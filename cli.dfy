/**
 * `load_json` of the command line: the documents of a decoded JSON file.  A sibling of
 * `_extract_sites_from_json` with one more priority key and a different fallback.
 */
module Cli {
  import opened Json
  import opened Records

  /** Keys under which `load_json` looks for the document list, in priority order. */
  const DocumentListKeys: seq<string> := ["sites", "rows", "data", "results", "features"]

  /** `load_json` after `json.load`: a non-dict root as it is, else a list out of the dict. */
  function LoadJsonRoot(data: Json): (r: Json)
    ensures !data.JObj? ==> r == data
    ensures data.JObj? ==> r.JList?
    ensures data.JObj? ==>
      forall i :: (0 <= i < |DocumentListKeys| && HoldsList(data.entries, DocumentListKeys[i])
                   && (forall j :: 0 <= j < i ==> !HoldsList(data.entries, DocumentListKeys[j])))
                  ==> r == Lookup(data.entries, DocumentListKeys[i]).value
    ensures data.JObj? && (forall i :: 0 <= i < |DocumentListKeys| ==> !HoldsList(data.entries, DocumentListKeys[i])) ==>
      forall i :: (0 <= i < |data.entries| && data.entries[i].1.JList?
                   && (forall j :: 0 <= j < i ==> !data.entries[j].1.JList?))
                  ==> r == data.entries[i].1
    ensures (data.JObj? && (forall i :: 0 <= i < |DocumentListKeys| ==> !HoldsList(data.entries, DocumentListKeys[i]))
             && (forall i :: 0 <= i < |data.entries| ==> !data.entries[i].1.JList?)) ==> r == JList([data])
  {
    if !data.JObj? then data
    else if FirstListUnder(data.entries, DocumentListKeys).Some? then JList(FirstListUnder(data.entries, DocumentListKeys).value)
    else if FirstListValue(data.entries).Some? then JList(FirstListValue(data.entries).value)
    else JList([data])
  }

  /** Searching more keys after a hit finds the same list. */
  lemma {:induction false} FirstListUnderExtended(entries: seq<(string, Json)>, keys: seq<string>, more: seq<string>)
    requires FirstListUnder(entries, keys).Some?
    ensures FirstListUnder(entries, keys + more) == FirstListUnder(entries, keys)
  {
    if !HoldsList(entries, keys[0]) {
      assert (keys + more)[1..] == keys[1..] + more;
      FirstListUnderExtended(entries, keys[1..], more);
    } else {
      assert (keys + more)[0] == keys[0];
    }
  }

  /**
   * Where the fetcher finds a list under one of its four priority keys, `load_json`
   * returns the same list.
   */
  lemma AgreesWithFetcher(data: Json)
    requires data.JObj? && FirstListUnder(data.entries, SiteListKeys).Some?
    ensures LoadJsonRoot(data) == JList(ExtractSitesFromJson(data))
  {
    assert DocumentListKeys == SiteListKeys + ["features"];
    FirstListUnderExtended(data.entries, SiteListKeys, ["features"]);
  }

  /** A dict without any list-valued entry yields the singleton `[data]`, never an empty list. */
  lemma DictWithoutListsIsSingleton(data: Json)
    requires data.JObj? && forall i :: 0 <= i < |data.entries| ==> !data.entries[i].1.JList?
    ensures LoadJsonRoot(data) == JList([data]) && ExtractSitesFromJson(data) == []
  {
    assert forall k :: !HoldsList(data.entries, k) by {
      forall k ensures !HoldsList(data.entries, k) {
        LookupIsEntry(data.entries, k);
      }
    }
  }

  /** A value found under a key is the value of one of the entries. */
  lemma {:induction false} LookupIsEntry(entries: seq<(string, Json)>, k: string)
    ensures Lookup(entries, k).Some? ==> exists i :: 0 <= i < |entries| && entries[i].1 == Lookup(entries, k).value
  {
    if entries != [] && entries[0].0 != k {
      LookupIsEntry(entries[1..], k);
      if Lookup(entries, k).Some? {
        var i :| 0 <= i < |entries[1..]| && entries[1..][i].1 == Lookup(entries, k).value;
        assert entries[i + 1].1 == Lookup(entries, k).value;
      }
    }
  }
}
