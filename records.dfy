/**
 * Record normalisation of the fetcher: picking the site list out of a decoded JSON
 * document, the key-fallback lookup `_get`, and the canonical seven-key site record.
 */
module Records {
  import opened Wrappers
  import opened Text
  import opened Json

  /** Keys under which a JSON document may hold its site list, in priority order. */
  const SiteListKeys: seq<string> := ["sites", "rows", "data", "results"]

  /** `_extract_sites_from_json`: the site list of a decoded JSON document. */
  function ExtractSitesFromJson(data: Json): (r: seq<Json>)
    ensures data.JList? ==> r == data.items
    ensures !data.JList? && !data.JObj? ==> r == []
    ensures data.JObj? ==>
      forall i :: (0 <= i < |SiteListKeys| && HoldsList(data.entries, SiteListKeys[i])
                   && (forall j :: 0 <= j < i ==> !HoldsList(data.entries, SiteListKeys[j])))
                  ==> r == Lookup(data.entries, SiteListKeys[i]).value.items
    ensures data.JObj? && (forall i :: 0 <= i < |SiteListKeys| ==> !HoldsList(data.entries, SiteListKeys[i])) ==>
      forall i :: (0 <= i < |data.entries| && data.entries[i].1.JList?
                   && (forall j :: 0 <= j < i ==> !data.entries[j].1.JList?))
                  ==> r == data.entries[i].1.items
    ensures (data.JObj? && (forall i :: 0 <= i < |SiteListKeys| ==> !HoldsList(data.entries, SiteListKeys[i]))
             && (forall i :: 0 <= i < |data.entries| ==> !data.entries[i].1.JList?)) ==> r == []
  {
    if data.JList? then data.items
    else if data.JObj? then
      if FirstListUnder(data.entries, SiteListKeys).Some? then FirstListUnder(data.entries, SiteListKeys).value
      else if FirstListValue(data.entries).Some? then FirstListValue(data.entries).value
      else []
    else []
  }

  /** `d` is a dict in which `k` is present with a value other than None. */
  predicate PresentNonNull(d: Json, k: string) {
    d.JObj? && Lookup(d.entries, k).Some? && !Lookup(d.entries, k).value.JNull?
  }

  /** `_get(d, keys, default)`: the value of the first key present with a non-None value. */
  function GetFirst(d: Json, keys: seq<string>, default: Json): (r: Json)
    ensures (forall i :: 0 <= i < |keys| ==> !PresentNonNull(d, keys[i])) ==> r == default
    ensures forall i :: (0 <= i < |keys| && PresentNonNull(d, keys[i])
                         && (forall j :: 0 <= j < i ==> !PresentNonNull(d, keys[j])))
                        ==> r == Lookup(d.entries, keys[i]).value
  {
    if keys == [] then default
    else if PresentNonNull(d, keys[0]) then Lookup(d.entries, keys[0]).value
    else GetFirst(d, keys[1..], default)
  }

  const IdKeys: seq<string> := ["id", "site_id", "ref", "whc_id"]
  const NameKeys: seq<string> := ["name", "name_en", "title", "site_name"]
  const DescriptionKeys: seq<string> := ["description", "short_description", "summary", "desc"]
  const CountryKeys: seq<string> := ["state", "states", "country", "country_en"]
  const LatitudeKeys: seq<string> := ["latitude", "lat"]
  const LongitudeKeys: seq<string> := ["longitude", "lon", "lng"]

  /** The keys of a normalised site record, in the order the record is built. */
  const RecordKeys: seq<string> := ["id", "name", "description", "country", "latitude", "longitude", "raw"]

  /** Python's `float(v)`, which may raise; `None` stands for the raised error. */
  type FloatParser = Json -> Option<Number>

  /** One country element of a list-valued country: a dict contributes `str(c.get("name"))`. */
  function CountryPart(c: Json): string {
    if c.JObj? then PyStr(DictGet(c.entries, "name", JNull)) else PyStr(c)
  }

  /** The texts a list-valued country contributes, one per element, in order. */
  function CountryParts(cs: seq<Json>): (parts: seq<string>)
    ensures |parts| == |cs|
    ensures forall i :: 0 <= i < |cs| ==> parts[i] == CountryPart(cs[i])
  {
    seq(|cs|, i requires 0 <= i < |cs| => CountryPart(cs[i]))
  }

  /** The country text: a list is joined with ", ", anything else goes through `str()`. */
  function CountryText(country: Json): string {
    match country
    case JList(cs) => Join(", ", CountryParts(cs))
    case _ => PyStr(country)
  }

  /** `float(v) if v not in (None, "") else None`; `None` when `float` raises. */
  function Coordinate(v: Json, toFloat: FloatParser): (r: Option<Json>)
    ensures (v.JNull? || v == JStr("")) ==> r == Some(JNull)
    ensures !(v.JNull? || v == JStr("")) ==> (r.None? <==> toFloat(v).None?)
    ensures !(v.JNull? || v == JStr("")) && toFloat(v).Some? ==> r == Some(JNum(toFloat(v).value))
    ensures r.Some? && !r.value.JNull? ==> r.value.JNum?
  {
    if v.JNull? || v == JStr("") then Some(JNull)
    else match toFloat(v)
      case Some(n) => Some(JNum(n))
      case None => None
  }

  /** Latitude and longitude: if either conversion raises, both are None. */
  function Coordinates(raw: Json, toFloat: FloatParser): (r: (Json, Json))
    ensures (r.0.JNull? || r.0.JNum?) && (r.1.JNull? || r.1.JNum?)
    ensures var lat := Coordinate(GetFirst(raw, LatitudeKeys, JNull), toFloat);
      var lon := Coordinate(GetFirst(raw, LongitudeKeys, JNull), toFloat);
      && (lat.None? || lon.None? ==> r == (JNull, JNull))
      && (lat.Some? && lon.Some? ==> r == (lat.value, lon.value))
  {
    var lat := Coordinate(GetFirst(raw, LatitudeKeys, JNull), toFloat);
    var lon := Coordinate(GetFirst(raw, LongitudeKeys, JNull), toFloat);
    if lat.None? || lon.None? then (JNull, JNull) else (lat.value, lon.value)
  }

  /** `str(_get(raw, keys, ""))`; the value found is never None, so `str()` always applies. */
  function TextField(raw: Json, keys: seq<string>): (r: Json)
    ensures r.JStr?
    ensures (forall i :: 0 <= i < |keys| ==> !PresentNonNull(raw, keys[i])) ==> r == JStr("")
    ensures forall i :: (0 <= i < |keys| && PresentNonNull(raw, keys[i])
                         && (forall j :: 0 <= j < i ==> !PresentNonNull(raw, keys[j])))
                        ==> r == JStr(PyStr(Lookup(raw.entries, keys[i]).value))
  {
    JStr(PyStr(GetFirst(raw, keys, JStr(""))))
  }

  /** A dict with the seven record keys, in record order. */
  function RecordEntries(id: Json, name: Json, description: Json, country: Json,
                         latitude: Json, longitude: Json, raw: Json): seq<(string, Json)>
  {
    [("id", id), ("name", name), ("description", description), ("country", country),
     ("latitude", latitude), ("longitude", longitude), ("raw", raw)]
  }

  lemma RecordEntriesLookup(id: Json, name: Json, description: Json, country: Json,
                            latitude: Json, longitude: Json, raw: Json)
    ensures var e := RecordEntries(id, name, description, country, latitude, longitude, raw);
      && Keys(e) == RecordKeys
      && Lookup(e, "id") == Some(id) && Lookup(e, "name") == Some(name)
      && Lookup(e, "description") == Some(description) && Lookup(e, "country") == Some(country)
      && Lookup(e, "latitude") == Some(latitude) && Lookup(e, "longitude") == Some(longitude)
      && Lookup(e, "raw") == Some(raw)
  {
    var t6 := [("raw", raw)];
    KeysCons(("raw", raw), []);
    LookupCons(("raw", raw), []);
    assert t6 == [("raw", raw)] + [];
    var t5 := [("longitude", longitude)] + t6;
    KeysCons(("longitude", longitude), t6);
    LookupCons(("longitude", longitude), t6);
    var t4 := [("latitude", latitude)] + t5;
    KeysCons(("latitude", latitude), t5);
    LookupCons(("latitude", latitude), t5);
    var t3 := [("country", country)] + t4;
    KeysCons(("country", country), t4);
    LookupCons(("country", country), t4);
    var t2 := [("description", description)] + t3;
    KeysCons(("description", description), t3);
    LookupCons(("description", description), t3);
    var t1 := [("name", name)] + t2;
    KeysCons(("name", name), t2);
    LookupCons(("name", name), t2);
    KeysCons(("id", id), t1);
    LookupCons(("id", id), t1);
    assert RecordEntries(id, name, description, country, latitude, longitude, raw) == [("id", id)] + t1;
  }

  /** `_normalize_site_record`: the canonical site record built from any decoded record. */
  function NormalizeSiteRecord(raw: Json, toFloat: FloatParser): (r: Json)
    ensures r.JObj? && Keys(r.entries) == RecordKeys
    ensures Lookup(r.entries, "raw") == Some(raw)
    ensures Lookup(r.entries, "id").Some? && Lookup(r.entries, "id").value.JStr?
    ensures Lookup(r.entries, "name").Some? && Lookup(r.entries, "name").value.JStr?
    ensures Lookup(r.entries, "description").Some? && Lookup(r.entries, "description").value.JStr?
    ensures Lookup(r.entries, "country").Some? && Lookup(r.entries, "country").value.JStr?
  {
    var coords := Coordinates(raw, toFloat);
    var id := TextField(raw, IdKeys);
    var name := TextField(raw, NameKeys);
    var description := TextField(raw, DescriptionKeys);
    var country := JStr(CountryText(GetFirst(raw, CountryKeys, JStr(""))));
    RecordEntriesLookup(id, name, description, country, coords.0, coords.1, raw);
    JObj(RecordEntries(id, name, description, country, coords.0, coords.1, raw))
  }

  /** The value a record field holds in a normalised record. */
  function Field(record: Json, k: string): Json
    requires record.JObj?
  {
    DictGet(record.entries, k, JNull)
  }

  /** Each field of a normalised record, as `_normalize_site_record` computes it. */
  lemma NormalizedFields(raw: Json, toFloat: FloatParser)
    ensures var r := NormalizeSiteRecord(raw, toFloat);
      && Field(r, "id") == TextField(raw, IdKeys)
      && Field(r, "name") == TextField(raw, NameKeys)
      && Field(r, "description") == TextField(raw, DescriptionKeys)
      && Field(r, "country") == JStr(CountryText(GetFirst(raw, CountryKeys, JStr(""))))
      && Field(r, "latitude") == Coordinates(raw, toFloat).0
      && Field(r, "longitude") == Coordinates(raw, toFloat).1
  {
    var coords := Coordinates(raw, toFloat);
    RecordEntriesLookup(TextField(raw, IdKeys), TextField(raw, NameKeys), TextField(raw, DescriptionKeys),
                        JStr(CountryText(GetFirst(raw, CountryKeys, JStr("")))), coords.0, coords.1, raw);
  }

  /** The id is `str()` of the first of id/site_id/ref/whc_id present with a non-None value, else "". */
  lemma NormalizedIdIsFirstPresentKey(raw: Json, toFloat: FloatParser)
    ensures (forall i :: 0 <= i < |IdKeys| ==> !PresentNonNull(raw, IdKeys[i])) ==>
              Field(NormalizeSiteRecord(raw, toFloat), "id") == JStr("")
    ensures forall i :: (0 <= i < |IdKeys| && PresentNonNull(raw, IdKeys[i])
                         && (forall j :: 0 <= j < i ==> !PresentNonNull(raw, IdKeys[j])))
                        ==> Field(NormalizeSiteRecord(raw, toFloat), "id") == JStr(PyStr(Lookup(raw.entries, IdKeys[i]).value))
  {
    NormalizedFields(raw, toFloat);
  }

  /** A list-valued country is joined with ", ", dict elements contributing their "name". */
  lemma ListCountryIsJoined(raw: Json, toFloat: FloatParser)
    requires GetFirst(raw, CountryKeys, JStr("")).JList?
    ensures var cs := GetFirst(raw, CountryKeys, JStr("")).items;
            && Field(NormalizeSiteRecord(raw, toFloat), "country") == JStr(Join(", ", CountryParts(cs)))
            && forall i :: 0 <= i < |cs| ==>
                 CountryParts(cs)[i] == if cs[i].JObj? then PyStr(DictGet(cs[i].entries, "name", JNull)) else PyStr(cs[i])
  {
    NormalizedFields(raw, toFloat);
  }

  /** `v` is handed to `float()`: it is neither None nor "". */
  predicate Convertible(v: Json) {
    !(v.JNull? || v == JStr(""))
  }

  /** If `float` raises on either coordinate value, latitude and longitude are both None. */
  lemma FailedConversionClearsBoth(raw: Json, toFloat: FloatParser)
    requires var lat := GetFirst(raw, LatitudeKeys, JNull);
      var lon := GetFirst(raw, LongitudeKeys, JNull);
      (Convertible(lat) && toFloat(lat).None?) || (Convertible(lon) && toFloat(lon).None?)
    ensures Field(NormalizeSiteRecord(raw, toFloat), "latitude") == JNull
    ensures Field(NormalizeSiteRecord(raw, toFloat), "longitude") == JNull
  {
    NormalizedFields(raw, toFloat);
  }

  /** A missing, None or "" latitude gives None, and no `float` call is made for it. */
  lemma MissingLatitudeIsNone(raw: Json, toFloat: FloatParser)
    requires forall i :: 0 <= i < |LatitudeKeys| ==> !PresentNonNull(raw, LatitudeKeys[i]) || Lookup(raw.entries, LatitudeKeys[i]).value == JStr("")
    ensures Field(NormalizeSiteRecord(raw, toFloat), "latitude") == JNull
  {
    var v := GetFirst(raw, LatitudeKeys, JNull);
    if PresentNonNull(raw, LatitudeKeys[0]) {
      assert v == Lookup(raw.entries, LatitudeKeys[0]).value;
    } else if PresentNonNull(raw, LatitudeKeys[1]) {
      assert v == Lookup(raw.entries, LatitudeKeys[1]).value;
    } else {
      assert v == JNull;
    }
    assert Coordinate(v, toFloat) == Some(JNull);
    NormalizedFields(raw, toFloat);
  }

  /**
   * When `float` parses both coordinate values, found under any of their keys, the record
   * carries the parsed numbers.
   */
  lemma ParsedCoordinatesKept(raw: Json, toFloat: FloatParser, lat: Number, lon: Number)
    requires Convertible(GetFirst(raw, LatitudeKeys, JNull)) && toFloat(GetFirst(raw, LatitudeKeys, JNull)) == Some(lat)
    requires Convertible(GetFirst(raw, LongitudeKeys, JNull)) && toFloat(GetFirst(raw, LongitudeKeys, JNull)) == Some(lon)
    ensures Field(NormalizeSiteRecord(raw, toFloat), "latitude") == JNum(lat)
    ensures Field(NormalizeSiteRecord(raw, toFloat), "longitude") == JNum(lon)
  {
    NormalizedFields(raw, toFloat);
  }
}
