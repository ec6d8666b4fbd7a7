/// src/services/scraper.ts: fetching each agency's page, choosing the CSS
/// selector of its listings container (cached per agency name in
/// `data/selectors.json`, asked of the oracle when missing), and keeping the
/// cleaned inner HTML of that container. A failed scrape yields an empty page,
/// and `scrapeAllAgencies` drops those.
module Scraper {
  import opened Wrappers
  import opened Text
  import opened Oracle
  import opened Config
  import opened SelectorFinder

  /// `Listing` (lines 9-14); the timestamp is not modelled.
  datatype Listing = Listing(agency: string, url: string, html: string)

  /// What the file system holds at `data/selectors.json`.
  datatype SelectorFile = NoFile | Corrupt | Saved(selectors: map<string, string>)

  /// The outside world one scrape sees.
  datatype Web = Web(
    /// `axios.get(url)`: the page, None when the request throws.
    fetch: string -> Option<string>,
    /// cheerio's `$("body").html()` of a page.
    bodyHtml: string -> string,
    /// The DeepSeek chat completion.
    oracle: SelectorPrompt -> Reply,
    /// How many elements a selector matches on a page; None when cheerio rejects it.
    count: (string, string) -> Option<nat>,
    /// `$(selector).html()` on a page: None for `null` (nothing matched) or a throw.
    select: (string, string) -> Option<string>,
    /// `$clean.html()` once navigation, scripts and ads are removed (lines 83-87).
    clean: string -> string)

  /// `loadSelectors()` (lines 18-24): the stored object, `{}` when the file is
  /// missing or unreadable.
  function LoadedSelectors(f: SelectorFile): (m: map<string, string>)
    ensures f.Saved? ==> m == f.selectors
    ensures !f.Saved? ==> m == map[]
  {
    if f.Saved? then f.selectors else map[]
  }

  /// The selector cached for `name`; "" when there is none (`!selector`).
  function Cached(f: SelectorFile, name: string): string {
    var m := LoadedSelectors(f);
    if name in m then m[name] else ""
  }

  /// The matcher the selector finder validates candidates with, on one page.
  function CountOn(web: Web, page: string): string -> Option<nat> {
    s => web.count(page, s)
  }

  /// The outcome of one scrape: the page's listing HTML ("" on failure) and
  /// the selector file afterwards.
  datatype Outcome = Outcome(html: string, file: SelectorFile)

  /// Lines 71-89 once the selector is chosen: the container's inner HTML,
  /// cleaned, or the uncleaned HTML when cleaning leaves nothing.
  function Extracted(page: string, selector: string, web: Web, f: SelectorFile): (o: Outcome)
    ensures o.file == f
    ensures o.html != "" <==> web.select(page, selector).Some? && web.select(page, selector).value != ""
  {
    match web.select(page, selector)
    case None => Outcome("", f)
    case Some(bodyContent) =>
      if bodyContent == "" then Outcome("", f)
      else
        var cleaned := web.clean(bodyContent);
        Outcome(if cleaned != "" then cleaned else bodyContent, f)
  }

  /// `scrapeAgency(agency)` (lines 31-118) as a value. `writeOk` says whether
  /// the selector file can be written.
  function Scrape(f: SelectorFile, agency: Agency, web: Web, writeOk: bool): Outcome {
    match web.fetch(agency.url)
    case None => Outcome("", f)
    case Some(page) =>
      var cached := Cached(f, agency.name);
      if cached == "" then
        var ai := FindSelectorsWithAI(page, agency.name, web.bodyHtml, web.oracle, CountOn(web, page));
        if ai == Body || !writeOk then Outcome("", f)
        else Extracted(page, ai, web, Saved(LoadedSelectors(f)[agency.name := ai]))
      else if cached == Body then Outcome("", f)
      else Extracted(page, cached, web, f)
  }

  /// The attempts of `scrapeAllAgencies`, one per agency in configuration
  /// order, and the selector file after them.
  datatype Run = Run(attempts: seq<Listing>, file: SelectorFile)

  function ScrapeRun(f: SelectorFile, agencies: seq<Agency>, web: Web, writeOk: bool): (r: Run)
    ensures |r.attempts| == |agencies|
    ensures forall i :: 0 <= i < |agencies| ==>
      r.attempts[i].agency == agencies[i].name && r.attempts[i].url == agencies[i].url
  {
    if agencies == [] then Run([], f)
    else
      var r := ScrapeRun(f, agencies[..|agencies| - 1], web, writeOk);
      var a := agencies[|agencies| - 1];
      var o := Scrape(r.file, a, web, writeOk);
      Run(r.attempts + [Listing(a.name, a.url, o.html)], o.file)
  }

  predicate HasHtml(l: Listing) {
    l.html != ""
  }

  /// The selector cache together with the scraping that reads and fills it.
  class SelectorStore {
    var file: SelectorFile

    constructor(f: SelectorFile)
      ensures file == f
    {
      file := f;
    }

    method LoadSelectors() returns (selectors: map<string, string>)
      ensures selectors == LoadedSelectors(file)
    {
      if file.Saved? {
        selectors := file.selectors;
      } else {
        selectors := map[];
      }
    }

    /// `saveSelectors` (lines 26-29): `ok` is false when the write throws.
    method SaveSelectors(selectors: map<string, string>, writeOk: bool) returns (ok: bool)
      modifies this
      ensures ok == writeOk
      ensures ok ==> file == Saved(selectors)
      ensures !ok ==> file == old(file)
    {
      ok := writeOk;
      if ok {
        file := Saved(selectors);
      }
    }

    /// Lines 31-118: every failure is caught and turns into an empty page.
    method ScrapeAgency(agency: Agency, web: Web, writeOk: bool) returns (listing: Listing)
      modifies this
      ensures listing == Listing(agency.name, agency.url, Scrape(old(file), agency, web, writeOk).html)
      ensures file == Scrape(old(file), agency, web, writeOk).file
    {
      ghost var f0 := file;
      var failed := Listing(agency.name, agency.url, "");
      var data := web.fetch(agency.url);
      if data.None? {
        return failed;
      }
      var page := data.value;
      var selectors := LoadSelectors();
      var selector := if agency.name in selectors then selectors[agency.name] else "";
      assert selector == Cached(f0, agency.name);
      if selector == "" {
        var aiSelector := FindSelectorsWithAI(page, agency.name, web.bodyHtml, web.oracle, CountOn(web, page));
        if aiSelector != "" && aiSelector != Body {
          selector := aiSelector;
          selectors := selectors[agency.name := selector];
          var ok := SaveSelectors(selectors, writeOk);
          if !ok {
            return failed;
          }
          assert Scrape(f0, agency, web, writeOk) == Extracted(page, selector, web, file);
        } else {
          return failed;
        }
      } else {
        assert selector != Body ==> Scrape(f0, agency, web, writeOk) == Extracted(page, selector, web, file);
      }
      if selector == Body {
        return failed;
      }
      var bodyContent := web.select(page, selector);
      if bodyContent.None? || bodyContent.value == "" {
        return failed;
      }
      var cleaned := web.clean(bodyContent.value);
      var cleanContent := if cleaned != "" then cleaned else bodyContent.value;
      listing := Listing(agency.name, agency.url, cleanContent);
    }

    /// Lines 120-129: the agencies in order, keeping the non-empty pages.
    method ScrapeAllAgencies(agencies: seq<Agency>, web: Web, writeOk: bool) returns (allListings: seq<Listing>)
      modifies this
      ensures allListings == Filter(HasHtml, ScrapeRun(old(file), agencies, web, writeOk).attempts)
      ensures file == ScrapeRun(old(file), agencies, web, writeOk).file
    {
      ghost var f0 := file;
      allListings := [];
      var i := 0;
      while i < |agencies|
        invariant 0 <= i <= |agencies|
        invariant allListings == Filter(HasHtml, ScrapeRun(f0, agencies[..i], web, writeOk).attempts)
        invariant file == ScrapeRun(f0, agencies[..i], web, writeOk).file
      {
        var listing := ScrapeAgency(agencies[i], web, writeOk);
        ScrapeAllStep(f0, agencies, web, writeOk, i, listing);
        if listing.html != "" {
          allListings := allListings + [listing];
        }
        i := i + 1;
      }
      assert agencies[..i] == agencies;
    }
  }

  /// One iteration of the loop of lines 122-127.
  lemma ScrapeAllStep(f: SelectorFile, agencies: seq<Agency>, web: Web, writeOk: bool, i: nat, listing: Listing)
    requires i < |agencies|
    requires var before := ScrapeRun(f, agencies[..i], web, writeOk);
      listing == Listing(agencies[i].name, agencies[i].url, Scrape(before.file, agencies[i], web, writeOk).html)
    ensures var before := ScrapeRun(f, agencies[..i], web, writeOk);
      var after := ScrapeRun(f, agencies[..i + 1], web, writeOk);
      after.file == Scrape(before.file, agencies[i], web, writeOk).file
      && Filter(HasHtml, after.attempts) == Filter(HasHtml, before.attempts) + (if listing.html != "" then [listing] else [])
  {
    var before := ScrapeRun(f, agencies[..i], web, writeOk);
    RunStep(f, agencies, web, writeOk, i);
    FilterStep(before.attempts, listing);
  }

  /// One more agency adds its attempt and passes the file on.
  lemma RunStep(f: SelectorFile, agencies: seq<Agency>, web: Web, writeOk: bool, i: nat)
    requires i < |agencies|
    ensures var before := ScrapeRun(f, agencies[..i], web, writeOk);
      var o := Scrape(before.file, agencies[i], web, writeOk);
      ScrapeRun(f, agencies[..i + 1], web, writeOk)
        == Run(before.attempts + [Listing(agencies[i].name, agencies[i].url, o.html)], o.file)
  {
    assert agencies[..i + 1][..i] == agencies[..i];
  }

  lemma FilterStep(s: seq<Listing>, x: Listing)
    ensures Filter(HasHtml, s + [x]) == Filter(HasHtml, s) + (if HasHtml(x) then [x] else [])
  {
    assert (s + [x])[..|s|] == s;
  }

  // ---------------------------------------------------------------------
  // Properties of one scrape.

  /// With a selector cached for the agency the oracle is not consulted: the
  /// outcome is the same whatever it would answer, and the file is untouched.
  lemma CachedSelectorSkipsOracle(f: SelectorFile, agency: Agency, web: Web, other: SelectorPrompt -> Reply, writeOk: bool)
    requires Cached(f, agency.name) != ""
    ensures Scrape(f, agency, web, writeOk) == Scrape(f, agency, web.(oracle := other), writeOk)
    ensures Scrape(f, agency, web, writeOk).file == f
  {
  }

  /// The file changes only when no selector was cached, the selector found
  /// with the oracle is not "body" and the write succeeds; it then gains
  /// exactly the agency's entry, holding that selector.
  lemma CacheGainsOnlyAgencyName(f: SelectorFile, agency: Agency, web: Web, writeOk: bool)
    ensures var o := Scrape(f, agency, web, writeOk);
      o.file == f || (writeOk && Cached(f, agency.name) == "" && web.fetch(agency.url).Some?
        && var page := web.fetch(agency.url).value;
           var ai := FindSelectorsWithAI(page, agency.name, web.bodyHtml, web.oracle, CountOn(web, page));
           ai != "" && ai != Body && o.file == Saved(LoadedSelectors(f)[agency.name := ai]))
  {
    match web.fetch(agency.url)
    case None =>
    case Some(page) =>
      if Cached(f, agency.name) == "" {
        var ai := FindSelectorsWithAI(page, agency.name, web.bodyHtml, web.oracle, CountOn(web, page));
        if ai != Body && writeOk {
          assert Scrape(f, agency, web, writeOk).file == Saved(LoadedSelectors(f)[agency.name := ai]);
        }
      }
  }

  /// A "body" selector always fails the scrape, cached or new.
  lemma BodySelectorFails(f: SelectorFile, agency: Agency, web: Web, writeOk: bool)
    requires Cached(f, agency.name) == Body
      || (Cached(f, agency.name) == "" && web.fetch(agency.url).Some?
          && FindSelectorsWithAI(web.fetch(agency.url).value, agency.name, web.bodyHtml, web.oracle,
               CountOn(web, web.fetch(agency.url).value)) == Body)
    ensures Scrape(f, agency, web, writeOk).html == ""
    ensures Scrape(f, agency, web, writeOk).file == f
  {
  }

  /// A scrape succeeds only when the page was fetched and its selector picked
  /// out a non-empty container; it then keeps the container's HTML, cleaned
  /// when cleaning leaves something.
  lemma SuccessNeedsContent(f: SelectorFile, agency: Agency, web: Web, writeOk: bool)
    requires Scrape(f, agency, web, writeOk).html != ""
    ensures web.fetch(agency.url).Some?
    ensures exists sel :: (sel != "" && sel != Body
      && web.select(web.fetch(agency.url).value, sel).Some?
      && web.select(web.fetch(agency.url).value, sel).value != "")
  {
    var page := web.fetch(agency.url).value;
    var cached := Cached(f, agency.name);
    if cached == "" {
      var ai := FindSelectorsWithAI(page, agency.name, web.bodyHtml, web.oracle, CountOn(web, page));
      assert web.select(page, ai).Some? && web.select(page, ai).value != "";
    } else {
      assert web.select(page, cached).Some? && web.select(page, cached).value != "";
    }
  }

  /// A missing or unreadable selector file counts as an empty cache.
  lemma UnreadableFileIsEmptyCache(name: string)
    ensures Cached(NoFile, name) == "" && Cached(Corrupt, name) == ""
  {
  }

  // ---------------------------------------------------------------------
  // Properties of `scrapeAllAgencies`.

  /// The kept listings are the successful attempts, in configuration order;
  /// each one names its agency and the agency's page.
  lemma ScrapeAllKeepsSuccesses(f: SelectorFile, agencies: seq<Agency>, web: Web, writeOk: bool)
    ensures var kept := Filter(HasHtml, ScrapeRun(f, agencies, web, writeOk).attempts);
      |kept| <= |agencies|
      && forall l :: l in kept <==> l.html != "" && l in ScrapeRun(f, agencies, web, writeOk).attempts
    ensures var kept := Filter(HasHtml, ScrapeRun(f, agencies, web, writeOk).attempts);
      forall l :: l in kept ==> exists i :: 0 <= i < |agencies| && l.agency == agencies[i].name && l.url == agencies[i].url
  {
    var attempts := ScrapeRun(f, agencies, web, writeOk).attempts;
    forall l | l in attempts ensures exists i :: 0 <= i < |agencies| && l.agency == agencies[i].name && l.url == agencies[i].url {
      var i :| 0 <= i < |attempts| && attempts[i] == l;
    }
  }

  /// An agency whose scrape failed has no listing at all when the configured
  /// names are distinct: it is dropped, not kept with an empty page.
  lemma FailedAgencyDropped(f: SelectorFile, agencies: seq<Agency>, web: Web, writeOk: bool, i: nat)
    requires i < |agencies|
    requires forall j, k :: 0 <= j < k < |agencies| ==> agencies[j].name != agencies[k].name
    requires ScrapeRun(f, agencies, web, writeOk).attempts[i].html == ""
    ensures forall l :: l in Filter(HasHtml, ScrapeRun(f, agencies, web, writeOk).attempts) ==> l.agency != agencies[i].name
  {
    var attempts := ScrapeRun(f, agencies, web, writeOk).attempts;
    forall l | l in Filter(HasHtml, attempts) ensures l.agency != agencies[i].name {
      var j :| 0 <= j < |attempts| && attempts[j] == l;
      assert j != i;
    }
  }
}
