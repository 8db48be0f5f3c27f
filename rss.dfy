/**
 * `load_sites_from_rss`: site records out of a saved copy of the World Heritage List
 * RSS feed, optionally enriched by following each item's link.
 */
module Rss {
  import opened Wrappers
  import opened Text
  import opened Json
  import opened Records
  import opened Markup

  newtype byte = x: int | 0 <= x < 256

  /** The byte `<`. */
  const OpenAngle: byte := 0x3C

  /**
   * `raw_bytes[first_lt:]` when the first '<' is not the first byte, so that a non-XML
   * prefix (a browser notice pasted with the feed) is skipped.
   */
  function TrimToFirstTag(b: seq<byte>): (r: seq<byte>)
    ensures |r| <= |b| && r == b[|b| - |r|..]
    ensures OpenAngle !in b ==> r == b
    ensures OpenAngle in b ==> r != [] && r[0] == OpenAngle && OpenAngle !in b[..|b| - |r|]
  {
    if OpenAngle in b then b[IndexOf(b, OpenAngle)..] else b
  }

  /** A child element of an `<item>`: missing, or present with `.text` (None when it has none). */
  datatype Element = Absent | Present(text: Option<string>)

  /** One `<item>` of the feed: its title, link and description, and its serialisation. */
  datatype RssItem = RssItem(title: Element, link: Element, description: Element, markup: string)

  datatype LoadError =
    | ParseFailed                    // the RuntimeError raised when the XML does not parse
    | MissingDescription(index: nat) // the AttributeError of an item without <description>

  /** What the loader depends on but does not compute itself. */
  datatype RssEnv = RssEnv(
    parse: seq<byte> -> Option<seq<RssItem>>,          // `ET.fromstring` then `findall(".//item")`; None when it raises
    unescape: string -> string,                        // `html.unescape`
    soup: SoupText,                                    // BeautifulSoup's text extraction
    followLinks: bool,                                 // the `follow_links` argument
    scraperAvailable: bool,                            // `requests` and BeautifulSoup are both installed
    scrape: string -> Option<seq<(string, Json)>>)     // `_scrape_site_page`; None when it raises

  /** `el.text.strip() if el is not None and el.text else ""` */
  function ElementText(e: Element): (r: string)
    ensures !(e.Present? && e.text.Some?) ==> r == []
    ensures e.Present? && e.text.Some? ==> r == Strip(e.text.value)
  {
    if e.Present? && e.text.Some? && e.text.value != [] then Strip(e.text.value) else []
  }

  /** `_strip_html(unescape(desc_el.text or "")).strip()` */
  function DescriptionText(e: Element, env: RssEnv): string
    requires e.Present?
  {
    var d := if e.text.Some? then e.text.value else [];
    Strip(StripHtml(env.unescape(d), env.soup))
  }

  const ListPath: string := "/en/list/"

  /** `/en/list/(\d+)` matches `link` at position `p`. */
  predicate ListIdAt(link: string, p: nat) {
    p + |ListPath| < |link| && link[p..p + |ListPath|] == ListPath && IsDigit(link[p + |ListPath|])
  }

  /** The longest prefix of `s` made of digits (what the greedy `\d+` captures). */
  function DigitRun(s: string): (r: string)
    ensures r <= s && forall c :: c in r ==> IsDigit(c)
    ensures |r| < |s| ==> !IsDigit(s[|r|])
  {
    if s == [] || !IsDigit(s[0]) then [] else [s[0]] + DigitRun(s[1..])
  }

  /** The leftmost position from `p` on where `/en/list/(\d+)` matches. */
  function FindListId(link: string, p: nat): (r: Option<nat>)
    ensures r.Some? ==> p <= r.value && ListIdAt(link, r.value)
    ensures r.Some? ==> forall q :: p <= q < r.value ==> !ListIdAt(link, q)
    ensures r.None? ==> forall q :: p <= q ==> !ListIdAt(link, q)
    decreases |link| - p
  {
    if p >= |link| then None
    else if ListIdAt(link, p) then Some(p)
    else FindListId(link, p + 1)
  }

  /** `m.group(1) if m else link` for `m = re.search(r"/en/list/(\d+)", link)`. */
  function SiteIdFromLink(link: string): (r: string)
    ensures (forall q: nat :: !ListIdAt(link, q)) ==> r == link
    ensures forall p: nat :: ListIdAt(link, p) && (forall q: nat :: q < p ==> !ListIdAt(link, q)) ==>
              r == DigitRun(link[p + |ListPath|..]) && r != []
  {
    match FindListId(link, 0)
    case None => link
    case Some(p) => DigitRun(link[p + |ListPath|..])
  }

  lemma {:induction false} DigitRunOfNumber(digits: string, suffix: string)
    requires forall c :: c in digits ==> IsDigit(c)
    requires suffix == [] || !IsDigit(suffix[0])
    ensures DigitRun(digits + suffix) == digits
  {
    if digits == [] {
      assert digits + suffix == suffix;
    } else {
      assert (digits + suffix)[1..] == digits[1..] + suffix;
      DigitRunOfNumber(digits[1..], suffix);
    }
  }

  /** In `prefix + "/en/list/" + digits + suffix` the pattern matches right after `prefix`. */
  lemma ListLinkMatches(prefix: string, digits: string, suffix: string)
    requires digits != [] && IsDigit(digits[0])
    ensures var link := prefix + ListPath + digits + suffix;
      ListIdAt(link, |prefix|) && link[|prefix| + |ListPath|..] == digits + suffix
  {
    var link := prefix + ListPath + digits + suffix;
    var p := |prefix|;
    assert link[p..p + |ListPath|] == ListPath;
    assert link[p + |ListPath|..] == digits + suffix;
    assert link[p + |ListPath|] == digits[0];
  }

  /** A site page link `…/en/list/<n>` yields the id `str(n)`, which reads back as `n`. */
  lemma SiteIdOfListLink(prefix: string, n: nat, suffix: string)
    requires forall q: nat :: q < |prefix| ==> !ListIdAt(prefix + ListPath + NatToString(n) + suffix, q)
    requires suffix == [] || !IsDigit(suffix[0])
    ensures SiteIdFromLink(prefix + ListPath + NatToString(n) + suffix) == NatToString(n)
    ensures DecimalValue(SiteIdFromLink(prefix + ListPath + NatToString(n) + suffix)) == n
  {
    var digits := NatToString(n);
    ListLinkMatches(prefix, digits, suffix);
    DigitRunOfNumber(digits, suffix);
    NatToStringRoundTrip(n);
  }

  /** The keys a followed link may fill in, in the order they are merged. */
  const FollowKeys: seq<string> := ["name", "description", "country", "latitude", "longitude"]

  /** Following a link never overrides the id or the raw item. */
  lemma FollowKeysSpareIdAndRaw()
    ensures "id" !in FollowKeys && "raw" !in FollowKeys
  {
  }

  /** `{"link": link, "rss_item": ET.tostring(item)}` */
  function RawEntries(link: string, markup: string): seq<(string, Json)> {
    [("link", JStr(link)), ("rss_item", JStr(markup))]
  }

  /** The record built from an item before any link is followed. */
  function BaseRecord(item: RssItem, env: RssEnv): (r: Json)
    requires item.description.Present?
    ensures r.JObj?
  {
    var link := ElementText(item.link);
    JObj(RecordEntries(JStr(SiteIdFromLink(link)), JStr(ElementText(item.title)),
                       JStr(DescriptionText(item.description, env)), JStr(""), JNull, JNull,
                       JObj(RawEntries(link, item.markup))))
  }

  /** The base record has the seven record keys, filled from the item. */
  lemma BaseRecordFields(item: RssItem, env: RssEnv)
    requires item.description.Present?
    ensures var r := BaseRecord(item, env);
      var link := ElementText(item.link);
      && Keys(r.entries) == RecordKeys
      && Lookup(r.entries, "id") == Some(JStr(SiteIdFromLink(link)))
      && Lookup(r.entries, "name") == Some(JStr(ElementText(item.title)))
      && Lookup(r.entries, "description") == Some(JStr(DescriptionText(item.description, env)))
      && Lookup(r.entries, "country") == Some(JStr(""))
      && Lookup(r.entries, "latitude") == Some(JNull)
      && Lookup(r.entries, "longitude") == Some(JNull)
      && Lookup(r.entries, "raw") == Some(JObj(RawEntries(link, item.markup)))
  {
    var link := ElementText(item.link);
    RecordEntriesLookup(JStr(SiteIdFromLink(link)), JStr(ElementText(item.title)),
                        JStr(DescriptionText(item.description, env)), JStr(""), JNull, JNull,
                        JObj(RawEntries(link, item.markup)));
  }

  /** The scraped fields merged into a record, and `raw["scraped_url"] = link`. */
  function MergeScraped(entries: seq<(string, Json)>, scraped: seq<(string, Json)>,
                        link: string, markup: string): seq<(string, Json)>
  {
    var merged := MergeTruthy(entries, scraped, FollowKeys);
    Set(merged, "raw", JObj(Set(RawEntries(link, markup), "scraped_url", JStr(link))))
  }

  /** A link is followed when asked to, when there is one, and when the scraper can run. */
  predicate Follows(item: RssItem, env: RssEnv) {
    env.followLinks && ElementText(item.link) != [] && env.scraperAvailable
  }

  /** The record `load_sites_from_rss` appends for one item. */
  function ItemRecord(item: RssItem, env: RssEnv): (r: Json)
    requires item.description.Present?
    ensures r.JObj?
  {
    var base := BaseRecord(item, env);
    if Follows(item, env) then
      match env.scrape(ElementText(item.link))
      case None => base
      case Some(scraped) => JObj(MergeScraped(base.entries, scraped, ElementText(item.link), item.markup))
    else base
  }

  /** Without a followed link, or when scraping fails, the record is the base record. */
  lemma UnfollowedRecord(item: RssItem, env: RssEnv)
    requires item.description.Present?
    requires !Follows(item, env) || env.scrape(ElementText(item.link)).None?
    ensures var r := ItemRecord(item, env);
      && Keys(r.entries) == RecordKeys
      && Lookup(r.entries, "id") == Some(JStr(SiteIdFromLink(ElementText(item.link))))
      && Lookup(r.entries, "country") == Some(JStr(""))
      && Lookup(r.entries, "latitude") == Some(JNull) && Lookup(r.entries, "longitude") == Some(JNull)
  {
    BaseRecordFields(item, env);
  }

  /**
   * A successful scrape overrides exactly the merge keys it has truthy values for, keeps
   * the id, and records the followed link under `raw["scraped_url"]`.
   */
  lemma FollowedRecord(item: RssItem, env: RssEnv, k: string)
    requires item.description.Present? && Follows(item, env)
    requires env.scrape(ElementText(item.link)).Some?
    ensures var scraped := env.scrape(ElementText(item.link)).value;
      var r := ItemRecord(item, env);
      var base := BaseRecord(item, env);
      && (k in FollowKeys && Truthy(DictGet(scraped, k, JNull)) ==> Lookup(r.entries, k) == Lookup(scraped, k))
      && (k != "raw" && !(k in FollowKeys && Truthy(DictGet(scraped, k, JNull))) ==>
            Lookup(r.entries, k) == Lookup(base.entries, k))
      && Lookup(r.entries, "id") == Some(JStr(SiteIdFromLink(ElementText(item.link))))
      && Lookup(r.entries, "raw").Some? && Lookup(r.entries, "raw").value.JObj?
      && Lookup(Lookup(r.entries, "raw").value.entries, "scraped_url") == Some(JStr(ElementText(item.link)))
  {
    var link := ElementText(item.link);
    var scraped := env.scrape(link).value;
    var base := BaseRecord(item, env);
    var merged := MergeTruthy(base.entries, scraped, FollowKeys);
    var raw := JObj(Set(RawEntries(link, item.markup), "scraped_url", JStr(link)));
    var r := Set(merged, "raw", raw);
    assert ItemRecord(item, env) == JObj(r);
    assert Lookup(r, "raw") == Some(raw);
    FollowKeysSpareIdAndRaw();
    assert Lookup(r, "id") == Lookup(merged, "id") == Lookup(base.entries, "id");
    BaseRecordFields(item, env);
    if k != "raw" {
      assert Lookup(r, k) == Lookup(merged, k);
    }
  }

  /** `if max_sites and len(items) >= max_sites: break` lets this many records through. */
  function Limit(n: nat, maxSites: Option<int>): (k: nat)
    ensures k <= n
    ensures maxSites.None? || maxSites.value == 0 ==> k == n
    ensures maxSites.Some? && maxSites.value > 0 ==> k == if n < maxSites.value then n else maxSites.value
    ensures maxSites.Some? && maxSites.value < 0 && n > 0 ==> k == 1
  {
    if maxSites.Some? && maxSites.value != 0 then
      var cap := if maxSites.value < 1 then 1 else maxSites.value;
      if n < cap then n else cap
    else n
  }

  /** The first `n` items all have a `<description>`. */
  predicate Described(items: seq<RssItem>, n: nat)
    requires n <= |items|
  {
    forall j :: 0 <= j < n ==> items[j].description.Present?
  }

  /** The record of an item with a description, as a value the record loop is specified over. */
  function Recorder(env: RssEnv): (record: RssItem --> Json)
    ensures forall item: RssItem :: item.description.Present? ==> record.requires(item) && record(item) == ItemRecord(item, env)
  {
    (item: RssItem) requires item.description.Present? => ItemRecord(item, env)
  }

  /** `records` are the records `record` builds for the first `|records|` items, in order. */
  ghost predicate RecordsOf(items: seq<RssItem>, records: seq<Json>, record: RssItem --> Json)
    requires |records| <= |items|
  {
    && Described(items, |records|)
    && forall j :: 0 <= j < |records| ==> record.requires(items[j]) && records[j] == record(items[j])
  }

  lemma DescribedAppend(items: seq<RssItem>, n: nat)
    requires n < |items| && Described(items, n) && items[n].description.Present?
    ensures Described(items, n + 1)
  {
    forall j | 0 <= j < n + 1
      ensures items[j].description.Present?
    {
      if j < n {
        assert items[j].description.Present?;
      }
    }
  }

  lemma RecordsOfAppend(items: seq<RssItem>, records: seq<Json>, record: RssItem --> Json)
    requires |records| < |items| && RecordsOf(items, records, record)
    requires items[|records|].description.Present? && record.requires(items[|records|])
    ensures RecordsOf(items, records + [record(items[|records|])], record)
  {
    var n := |records|;
    var grown := records + [record(items[n])];
    assert forall j :: 0 <= j < n ==> grown[j] == records[j];
    DescribedAppend(items, n);
  }

  /**
   * The record loop of `load_sites_from_rss`: the records of the first `Limit` items, in
   * document order, or the error the first item without a description raises.
   */
  method CollectRecords(items: seq<RssItem>, maxSites: Option<int>, env: RssEnv)
    returns (r: Result<seq<Json>, LoadError>)
    ensures r.Success? <==> Described(items, Limit(|items|, maxSites))
    ensures r.Success? ==> |r.value| == Limit(|items|, maxSites) && RecordsOf(items, r.value, Recorder(env))
    ensures r.Failure? ==> r.error.MissingDescription? && r.error.index < Limit(|items|, maxSites)
                           && items[r.error.index].description.Absent? && Described(items, r.error.index)
  {
    ghost var n := Limit(|items|, maxSites);
    var records: seq<Json> := [];
    var i := 0;
    while i < |items|
      invariant 0 <= i <= n
      invariant maxSites.Some? && maxSites.value != 0 ==> i == 0 || i < maxSites.value
      invariant |records| == i && RecordsOf(items, records, Recorder(env))
    {
      if items[i].description.Absent? {
        assert !Described(items, n);
        return Failure(MissingDescription(i));
      }
      RecordsOfAppend(items, records, Recorder(env));
      records := records + [ItemRecord(items[i], env)];
      i := i + 1;
      if maxSites.Some? && maxSites.value != 0 && |records| >= maxSites.value {
        break;
      }
    }
    return Success(records);
  }

  /** `load_sites_from_rss` on the bytes of the feed. */
  method LoadSitesFromRss(rawBytes: seq<byte>, maxSites: Option<int>, env: RssEnv)
    returns (r: Result<seq<Json>, LoadError>)
    ensures env.parse(TrimToFirstTag(rawBytes)).None? ==> r == Failure(ParseFailed)
    ensures env.parse(TrimToFirstTag(rawBytes)).Some? ==>
      var items := env.parse(TrimToFirstTag(rawBytes)).value;
      && (r.Success? <==> Described(items, Limit(|items|, maxSites)))
      && (r.Success? ==> |r.value| == Limit(|items|, maxSites) && RecordsOf(items, r.value, Recorder(env)))
      && (r.Failure? ==> r.error.MissingDescription? && r.error.index < Limit(|items|, maxSites)
                         && items[r.error.index].description.Absent? && Described(items, r.error.index))
  {
    var parsed := env.parse(TrimToFirstTag(rawBytes));
    if parsed.None? {
      return Failure(ParseFailed);
    }
    r := CollectRecords(parsed.value, maxSites, env);
  }
}
