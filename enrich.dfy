/**
 * `enrich_sites`: fill in missing country and coordinates of site records, in place, by
 * following each record's link to its site page.
 */
module Enrich {
  import opened Wrappers
  import opened Json

  /** The keys a scraped page may fill in, in the order they are merged. */
  const EnrichKeys: seq<string> := ["name", "description", "country", "latitude", "longitude", "continent"]

  /** Enrichment never overrides the raw record as a whole. */
  lemma EnrichKeysSpareRaw()
    ensures "raw" !in EnrichKeys
  {
  }

  /** `_scrape_site_page(link)` as a dict's entries, or None when it raises. */
  type Scraper = Json -> Option<seq<(string, Json)>>

  datatype EnrichError =
    | LibrariesMissing         // the RuntimeError raised without requests and BeautifulSoup
    | NotADict(index: nat)     // the AttributeError the error handler itself raises for a non-dict site
    | ZeroSaveInterval(index: nat) // the ZeroDivisionError of `updated % save_every` with save_every == 0

  /** `s.get("raw") or {}` */
  function RawOf(entries: seq<(string, Json)>): (r: Json)
    ensures Truthy(DictGet(entries, "raw", JNull)) ==> r == DictGet(entries, "raw", JNull)
    ensures !Truthy(DictGet(entries, "raw", JNull)) ==> r == JObj([])
  {
    var raw := DictGet(entries, "raw", JNull);
    if Truthy(raw) then raw else JObj([])
  }

  /** `raw.get("link") or raw.get("url")` */
  function LinkOf(raw: seq<(string, Json)>): (r: Json)
    ensures Truthy(r) <==> Truthy(DictGet(raw, "link", JNull)) || Truthy(DictGet(raw, "url", JNull))
  {
    var link := DictGet(raw, "link", JNull);
    if Truthy(link) then link else DictGet(raw, "url", JNull)
  }

  /** `not s.get("country") or not s.get("latitude") or not s.get("longitude")` */
  predicate NeedsEnrichment(entries: seq<(string, Json)>) {
    || !Truthy(DictGet(entries, "country", JNull))
    || !Truthy(DictGet(entries, "latitude", JNull))
    || !Truthy(DictGet(entries, "longitude", JNull))
  }

  /** The site is a dict with a dict `raw`, a truthy link and missing data, and its page scrapes. */
  predicate Scrapable(site: Json, scrape: Scraper) {
    && site.JObj? && RawOf(site.entries).JObj?
    && var link := LinkOf(RawOf(site.entries).entries);
       Truthy(link) && NeedsEnrichment(site.entries) && scrape(link).Some?
  }

  /**
   * The body of the loop for one site: None when the site is not a dict (the loop aborts);
   * otherwise the site afterwards and whether it counts as updated.  Any other exception
   * (a truthy `raw` that is not a dict, a failed scrape) leaves the site as it was.
   */
  function EnrichedSite(site: Json, scrape: Scraper): (r: Option<(Json, bool)>)
    ensures r.None? <==> !site.JObj?
    ensures r.Some? && r.value.1 <==> Scrapable(site, scrape)
    ensures r.Some? && !r.value.1 ==> r.value.0 == site
    ensures r.Some? ==> r.value.0.JObj?
  {
    if !site.JObj? then None
    else
      var raw := RawOf(site.entries);
      if !raw.JObj? then Some((site, false))
      else
        var link := LinkOf(raw.entries);
        if Truthy(link) && NeedsEnrichment(site.entries) then
          match scrape(link)
          case None => Some((site, false))
          case Some(scraped) =>
            var merged := MergeTruthy(site.entries, scraped, EnrichKeys);
            Some((JObj(Set(merged, "raw", JObj(Set(raw.entries, "scraped_url", link)))), true))
        else Some((site, false))
  }

  /** A record that already has a country and both coordinates is never touched. */
  lemma CompleteSiteUnchanged(site: Json, scrape: Scraper)
    requires site.JObj? && !NeedsEnrichment(site.entries)
    ensures EnrichedSite(site, scrape) == Some((site, false))
  {
  }

  /**
   * An updated site takes the scraped value of each merge key the page has a truthy value
   * for, keeps every other field but `raw`, and records the link under `raw["scraped_url"]`.
   */
  lemma UpdatedSiteFields(site: Json, scrape: Scraper, k: string)
    requires EnrichedSite(site, scrape).Some? && EnrichedSite(site, scrape).value.1
    ensures var link := LinkOf(RawOf(site.entries).entries);
      var scraped := scrape(link).value;
      var after := EnrichedSite(site, scrape).value.0;
      && Truthy(link) && NeedsEnrichment(site.entries) && scrape(link).Some?
      && (k in EnrichKeys && Truthy(DictGet(scraped, k, JNull)) ==> Lookup(after.entries, k) == Lookup(scraped, k))
      && (k != "raw" && !(k in EnrichKeys && Truthy(DictGet(scraped, k, JNull))) ==>
            Lookup(after.entries, k) == Lookup(site.entries, k))
      && Lookup(after.entries, "raw").Some? && Lookup(after.entries, "raw").value.JObj?
      && Lookup(Lookup(after.entries, "raw").value.entries, "scraped_url") == Some(link)
  {
    EnrichKeysSpareRaw();
  }

  /**
   * A dict site with a dict `raw`, a truthy link and missing data whose page scrapes is
   * updated: the truthy scraped values are merged over the six keys, `raw["scraped_url"]`
   * is set to the link, and the site counts as updated.
   */
  lemma ScrapableSiteUpdated(site: Json, scrape: Scraper, scraped: seq<(string, Json)>)
    requires site.JObj? && RawOf(site.entries).JObj?
    requires Truthy(LinkOf(RawOf(site.entries).entries)) && NeedsEnrichment(site.entries)
    requires scrape(LinkOf(RawOf(site.entries).entries)) == Some(scraped)
    ensures var raw := RawOf(site.entries);
      var link := LinkOf(raw.entries);
      EnrichedSite(site, scrape)
        == Some((JObj(Set(MergeTruthy(site.entries, scraped, EnrichKeys), "raw", JObj(Set(raw.entries, "scraped_url", link)))), true))
  {
  }

  /** A site whose page fails to scrape is left as it was and does not count. */
  lemma UnscrapableSiteKept(site: Json, scrape: Scraper)
    requires site.JObj? && !Scrapable(site, scrape)
    ensures EnrichedSite(site, scrape) == Some((site, false))
  {
  }

  /** The loop body as a value, so that the loop's specification can be stated over any body. */
  type SiteStep = Json -> Option<(Json, bool)>

  /** A loop body that aborts exactly on the sites that are not dicts. */
  ghost predicate AbortsOnNonDicts(step: SiteStep) {
    forall site :: step(site).None? <==> !site.JObj?
  }

  /** The body of the `enrich_sites` loop, `EnrichedSite` with the page scraper fixed. */
  function Enrichment(scrape: Scraper): (step: SiteStep)
    ensures forall site :: step(site) == EnrichedSite(site, scrape)
    ensures AbortsOnNonDicts(step)
  {
    site => EnrichedSite(site, scrape)
  }

  /**
   * The loop from site `i` on, with `updated` sites updated so far: the list afterwards and
   * the outcome (the count of updated sites, or the exception that ends the loop).
   */
  function EnrichFrom(s: seq<Json>, i: nat, updated: nat, saveEvery: int, step: SiteStep)
    : (r: (seq<Json>, Result<nat, EnrichError>))
    requires i <= |s|
    ensures |r.0| == |s|
    ensures r.0[..i] == s[..i]
    decreases |s| - i
  {
    if i == |s| then (s, Success(updated))
    else match step(s[i])
      case None => (s, Failure(NotADict(i)))
      case Some((site, up)) =>
        var count := if up then updated + 1 else updated;
        var next := s[i := site];
        if count > 0 && saveEvery == 0 then (next, Failure(ZeroSaveInterval(i)))
        else
          var r := EnrichFrom(next, i + 1, count, saveEvery, step);
          assert r.0[..i] == r.0[..i + 1][..i];
          r
  }

  /** The number of sites of `s` the loop body reports as updated. */
  function UpdatedCount(s: seq<Json>, step: SiteStep): nat
    requires forall j :: 0 <= j < |s| ==> step(s[j]).Some?
  {
    if s == [] then 0
    else (if step(s[0]).value.1 then 1 else 0) + UpdatedCount(s[1..], step)
  }

  /**
   * The loop runs to the end exactly when every remaining site is a dict and saving is not
   * on a zero interval, or nothing is updated.
   */
  lemma {:induction false} EnrichFromSucceeds(s: seq<Json>, i: nat, updated: nat, saveEvery: int, step: SiteStep)
    requires i <= |s| && (saveEvery == 0 ==> updated == 0) && AbortsOnNonDicts(step)
    ensures EnrichFrom(s, i, updated, saveEvery, step).1.Success? <==>
              (forall j :: i <= j < |s| ==> s[j].JObj?) && (saveEvery == 0 ==> UpdatedCount(s[i..], step) == 0)
    decreases |s| - i
  {
    if i < |s| {
      assert s[i..][0] == s[i] && s[i..][1..] == s[i + 1..];
      var out := step(s[i]);
      if out.Some? {
        var count := if out.value.1 then updated + 1 else updated;
        var next := s[i := out.value.0];
        if !(count > 0 && saveEvery == 0) {
          EnrichFromSucceeds(next, i + 1, count, saveEvery, step);
          assert next[i + 1..] == s[i + 1..];
        }
      }
    }
  }

  /** When the loop runs to the end each site is the loop body's result for it. */
  lemma {:induction false} EnrichFromSites(s: seq<Json>, i: nat, updated: nat, saveEvery: int, step: SiteStep)
    requires i <= |s| && EnrichFrom(s, i, updated, saveEvery, step).1.Success?
    ensures forall j :: i <= j < |s| ==> step(s[j]).Some? && EnrichFrom(s, i, updated, saveEvery, step).0[j] == step(s[j]).value.0
    decreases |s| - i
  {
    if i < |s| {
      var out := step(s[i]);
      var count := if out.value.1 then updated + 1 else updated;
      var next := s[i := out.value.0];
      EnrichFromSites(next, i + 1, count, saveEvery, step);
      var r := EnrichFrom(next, i + 1, count, saveEvery, step);
      assert r.0[i] == r.0[..i + 1][i] == next[i];
      assert forall j :: i < j < |s| ==> next[j] == s[j];
    }
  }

  /** When the loop runs to the end the count is the number of updated sites. */
  lemma {:induction false} EnrichFromCount(s: seq<Json>, i: nat, updated: nat, saveEvery: int, step: SiteStep)
    requires i <= |s| && EnrichFrom(s, i, updated, saveEvery, step).1.Success?
    ensures forall j :: i <= j < |s| ==> step(s[j]).Some?
    ensures EnrichFrom(s, i, updated, saveEvery, step).1.value == updated + UpdatedCount(s[i..], step)
    decreases |s| - i
  {
    if i < |s| {
      assert s[i..][0] == s[i] && s[i..][1..] == s[i + 1..];
      var out := step(s[i]);
      var count := if out.value.1 then updated + 1 else updated;
      var next := s[i := out.value.0];
      EnrichFromCount(next, i + 1, count, saveEvery, step);
      assert next[i + 1..] == s[i + 1..];
    }
  }

  /** When the loop stops at a site that is not a dict, that site and all after it are as they were. */
  lemma {:induction false} NotADictStopsCleanly(s: seq<Json>, i: nat, updated: nat, saveEvery: int, step: SiteStep)
    requires i <= |s| && AbortsOnNonDicts(step)
    requires EnrichFrom(s, i, updated, saveEvery, step).1.Failure?
    requires EnrichFrom(s, i, updated, saveEvery, step).1.error.NotADict?
    ensures var r := EnrichFrom(s, i, updated, saveEvery, step);
      var k := r.1.error.index;
      i <= k < |s| && !s[k].JObj? && r.0[k..] == s[k..]
    decreases |s| - i
  {
    var out := step(s[i]);
    if out.Some? {
      var count := if out.value.1 then updated + 1 else updated;
      var next := s[i := out.value.0];
      NotADictStopsCleanly(next, i + 1, count, saveEvery, step);
    }
  }

  /** With a zero save interval the loop stops right after the first update; later sites are as they were. */
  lemma {:induction false} ZeroIntervalStopsCleanly(s: seq<Json>, i: nat, updated: nat, saveEvery: int, step: SiteStep)
    requires i <= |s|
    requires EnrichFrom(s, i, updated, saveEvery, step).1.Failure?
    requires EnrichFrom(s, i, updated, saveEvery, step).1.error.ZeroSaveInterval?
    ensures var r := EnrichFrom(s, i, updated, saveEvery, step);
      var k := r.1.error.index;
      && i <= k < |s| && saveEvery == 0 && step(s[k]).Some?
      && r.0[k] == step(s[k]).value.0 && r.0[k + 1..] == s[k + 1..]
    decreases |s| - i
  {
    var out := step(s[i]);
    var count := if out.value.1 then updated + 1 else updated;
    var next := s[i := out.value.0];
    if !(count > 0 && saveEvery == 0) {
      ZeroIntervalStopsCleanly(next, i + 1, count, saveEvery, step);
    }
  }

  /**
   * On a list of dicts with a non-zero save interval, `enrich_sites` completes: each site
   * is enriched on its own and the count is the number of sites updated.
   */
  lemma EnrichDictSites(s: seq<Json>, saveEvery: int, scrape: Scraper)
    requires forall j :: 0 <= j < |s| ==> s[j].JObj?
    requires saveEvery != 0
    ensures var r := EnrichFrom(s, 0, 0, saveEvery, Enrichment(scrape));
      && r.1 == Success(UpdatedCount(s, Enrichment(scrape)))
      && forall j :: 0 <= j < |s| ==> r.0[j] == EnrichedSite(s[j], scrape).value.0
  {
    var step := Enrichment(scrape);
    var r := EnrichFrom(s, 0, 0, saveEvery, step);
    EnrichFromSucceeds(s, 0, 0, saveEvery, step);
    assert r.1.Success?;
    EnrichFromSites(s, 0, 0, saveEvery, step);
    EnrichFromCount(s, 0, 0, saveEvery, step);
    assert s[0..] == s;
    assert r.1.value == UpdatedCount(s, step);
  }

  /**
   * `enrich_sites`: the sites are enriched in place, in order; the result is the same list,
   * or the exception that escapes.
   */
  method EnrichSites(sites: array<Json>, available: bool, saveEvery: int, scrape: Scraper)
    returns (r: Result<array<Json>, EnrichError>)
    modifies sites
    ensures !available ==> r == Failure(LibrariesMissing) && sites[..] == old(sites[..])
    ensures available ==>
      var run := EnrichFrom(old(sites[..]), 0, 0, saveEvery, Enrichment(scrape));
      && sites[..] == run.0
      && (run.1.Success? ==> r == Success(sites))
      && (run.1.Failure? ==> r == Failure(run.1.error))
  {
    if !available {
      return Failure(LibrariesMissing);
    }
    ghost var goal := EnrichFrom(sites[..], 0, 0, saveEvery, Enrichment(scrape));
    var updated: nat := 0;
    var i := 0;
    while i < sites.Length
      invariant 0 <= i <= sites.Length
      invariant EnrichFrom(sites[..], i, updated, saveEvery, Enrichment(scrape)) == goal
    {
      var out := EnrichedSite(sites[i], scrape);
      if out.None? {
        return Failure(NotADict(i));
      }
      if out.value.1 {
        updated := updated + 1;
      }
      sites[i] := out.value.0;
      if updated > 0 && saveEvery == 0 {
        return Failure(ZeroSaveInterval(i));
      }
      i := i + 1;
    }
    return Success(sites);
  }
}
