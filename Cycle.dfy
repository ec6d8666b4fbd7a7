/// src/index.ts, `main`: one watch cycle. The configuration is checked, the
/// stored URL history loaded and every agency scraped; each scraped page is
/// compared with its agency's history, and the oracle is asked about pages with
/// new URLs; the matching verdicts are sent in one notification, and the URLs
/// seen in this cycle are saved.
module Cycle {
  import opened Wrappers
  import opened Text
  import opened Oracle
  import opened Agencies
  import opened Config
  import opened UrlExtractor
  import opened Watcher
  import opened Flatten
  import opened Scraper
  import opened Evaluator

  /// An entry of the `evaluations` array (lines 124-128).
  datatype Evaluation = Evaluation(agency: string, evaluation: string, url: string)

  /// What the processing of one listing resolves to (lines 91-96, 107-110,
  /// 113-116): its agency, the URLs to save for it, and its verdict when the
  /// oracle found a match.
  datatype AgencyResult = AgencyResult(agency: string, currentUrls: seq<string>, matched: Option<Evaluation>)

  /// The services a cycle calls: `new URL(...)`, cheerio's parse of a page,
  /// the DeepSeek chat completion, and `DEFAULT_CRITERIA` of the evaluator
  /// (`evaluateListing` is called with `undefined` criteria).
  datatype Services = Services(
    parseUrl: string -> Option<BaseUrl>,
    parse: string -> seq<Node>,
    oracle: ListingPrompt -> Reply,
    criteria: string)

  /// `currentUrls.filter(url => !previousUrls.includes(url))` (lines 72-74).
  function NewUrls(currentUrls: seq<string>, previousUrls: seq<string>): (r: seq<string>)
    ensures forall u :: u in r <==> u in currentUrls && u !in previousUrls
    ensures |r| <= |currentUrls|
  {
    Filter(u => u !in previousUrls, currentUrls)
  }

  /// `hasNewUrls || hasRemovedUrls` (lines 58-65): the two lists hold
  /// different sets of URLs.
  function Changed(currentUrls: seq<string>, previousUrls: seq<string>): (b: bool)
    ensures b <==> (set u | u in currentUrls) != (set u | u in previousUrls)
  {
    var hasNewUrls := SomeNotIn(currentUrls, previousUrls);
    var hasRemovedUrls := SomeNotIn(previousUrls, currentUrls);
    SetsDifferIff(currentUrls, previousUrls);
    hasNewUrls || hasRemovedUrls
  }

  /// Two lists hold different sets exactly when one has an element the other
  /// lacks.
  lemma SetsDifferIff(xs: seq<string>, ys: seq<string>)
    ensures (set u | u in xs) != (set u | u in ys) <==> SomeNotIn(xs, ys) || SomeNotIn(ys, xs)
  {
    var sx, sy := set u | u in xs, set u | u in ys;
    if SomeNotIn(xs, ys) {
      var i :| 0 <= i < |xs| && xs[i] !in ys;
      assert xs[i] in sx && xs[i] !in sy;
    } else if SomeNotIn(ys, xs) {
      var i :| 0 <= i < |ys| && ys[i] !in xs;
      assert ys[i] in sy && ys[i] !in sx;
    } else {
      forall u | u in xs ensures u in ys {
        var i :| 0 <= i < |xs| && xs[i] == u;
      }
      forall u | u in ys ensures u in xs {
        var i :| 0 <= i < |ys| && ys[i] == u;
      }
      assert sx == sy;
    }
  }

  /// The verdict test of line 89.
  predicate IsMatch(evaluation: string) {
    Contains(evaluation, "YES") || Contains(evaluation, "CLOSE")
  }

  /// Lines 65-101 for a listing whose URLs were extracted: the oracle is asked
  /// only when some URL is new, and a matching answer becomes an evaluation.
  function Verdict(listing: Listing, currentUrls: seq<string>, previousUrls: seq<string>, sv: Services): Option<Evaluation> {
    var hasNewUrls := SomeNotIn(currentUrls, previousUrls);
    if Changed(currentUrls, previousUrls) && hasNewUrls then
      var newUrls := NewUrls(currentUrls, previousUrls);
      if |newUrls| > 0 then
        var evaluation := EvaluateListing(listing, sv.criteria, [], newUrls, sv.parse, sv.oracle);
        if IsMatch(evaluation) then Some(Evaluation(listing.agency, evaluation, listing.url)) else None
      else None
    else None
  }

  /// The callback of lines 50-118 for one listing. An extraction that throws
  /// is caught and leaves the agency with no current URLs.
  function ProcessListing(listing: Listing, previous: UrlsByAgency, sv: Services): (r: AgencyResult)
    ensures r.agency == listing.agency
    ensures var x := Extract(listing.html, sv.parseUrl(listing.url));
      r.currentUrls == if x.Ok? then x.value else []
  {
    match Extract(listing.html, sv.parseUrl(listing.url))
    case Err(_) => AgencyResult(listing.agency, [], None)
    case Ok(currentUrls) =>
      var previousUrls := History(previous, listing.agency);
      AgencyResult(listing.agency, currentUrls, Verdict(listing, currentUrls, previousUrls, sv))
  }

  /// `Promise.all(current.map(...))`: one result per listing, in order.
  function ProcessAll(listings: seq<Listing>, previous: UrlsByAgency, sv: Services): (rs: seq<AgencyResult>)
    ensures |rs| == |listings|
    ensures forall i :: 0 <= i < |listings| ==> rs[i] == ProcessListing(listings[i], previous, sv)
  {
    seq(|listings|, i requires 0 <= i < |listings| => ProcessListing(listings[i], previous, sv))
  }

  /// The `evaluations` pushed by the `forEach` of lines 133-145.
  function Evaluations(rs: seq<AgencyResult>): seq<Evaluation> {
    if rs == [] then []
    else
      var last := rs[|rs| - 1];
      Evaluations(rs[..|rs| - 1]) + (if last.matched.Some? then [last.matched.value] else [])
  }

  /// The `currentScrapedUrls` object filled by the same `forEach`: a later
  /// result for an agency overwrites an earlier one.
  function UrlsToSave(rs: seq<AgencyResult>): UrlsByAgency {
    if rs == [] then map[]
    else
      var last := rs[|rs| - 1];
      UrlsToSave(rs[..|rs| - 1])[last.agency := last.currentUrls]
  }

  /// Lines 124-145.
  method Aggregate(results: seq<AgencyResult>) returns (evaluations: seq<Evaluation>, currentScrapedUrls: UrlsByAgency)
    ensures evaluations == Evaluations(results)
    ensures currentScrapedUrls == UrlsToSave(results)
  {
    evaluations := [];
    currentScrapedUrls := map[];
    var i := 0;
    while i < |results|
      invariant 0 <= i <= |results|
      invariant evaluations == Evaluations(results[..i])
      invariant currentScrapedUrls == UrlsToSave(results[..i])
    {
      var result := results[i];
      assert results[..i + 1][..i] == results[..i];
      if result.matched.Some? {
        evaluations := evaluations + [result.matched.value];
      }
      currentScrapedUrls := currentScrapedUrls[result.agency := result.currentUrls];
      i := i + 1;
    }
    assert results[..i] == results;
  }

  /// The whole cycle (lines 34-161). `selectorWriteOk` says whether the
  /// selector file accepts writes and `saveOk` whether the URL file does.
  /// Returns the evaluations handed to `sendBatchNotification`, None when it
  /// is not called; that function catches its own mail errors, so the URLs are
  /// saved on every cycle that passes the configuration check. A failed check
  /// ends the cycle in the catch of lines 158-160 before anything is read.
  method RunCycle(env: Env, urlStore: JsonStore, selectorStore: SelectorStore, web: Web, selectorWriteOk: bool,
              sv: Services, saveOk: bool) returns (notified: Option<seq<Evaluation>>)
    modifies urlStore, selectorStore
    ensures ValidateConfig(env).Err? ==>
      notified == None && urlStore.file == old(urlStore.file) && selectorStore.file == old(selectorStore.file)
    ensures ValidateConfig(env).Ok? ==>
      var run := ScrapeRun(old(selectorStore.file), Config.Agencies, web, selectorWriteOk);
      var results := ProcessAll(Filter(HasHtml, run.attempts), Loaded(old(urlStore.file)), sv);
      var evaluations := Evaluations(results);
      selectorStore.file == run.file
      && notified == (if evaluations != [] then Some(evaluations) else None)
      && urlStore.file == if saveOk then SavedFile(old(urlStore.file), UrlsToSave(results)) else old(urlStore.file)
  {
    notified := None;
    if ValidateConfig(env).Err? {
      return;
    }
    var previousScrapedUrls := urlStore.LoadScrapedUrls();
    var current := selectorStore.ScrapeAllAgencies(Config.Agencies, web, selectorWriteOk);
    var results := ProcessAll(current, previousScrapedUrls, sv);
    var evaluations, currentScrapedUrls := Aggregate(results);
    if |evaluations| > 0 {
      notified := Some(evaluations);
    }
    urlStore.SaveScrapedUrls(currentScrapedUrls, saveOk);
  }

  // ---------------------------------------------------------------------
  // Change detection.

  /// The oracle is asked exactly when extraction succeeded and some current
  /// URL is new, with no URLs to exclude and the new ones to focus on; the
  /// listing gets an evaluation exactly when that answer says "YES" or "CLOSE",
  /// and the evaluation records the agency's listing page.
  lemma EvaluationGate(listing: Listing, previous: UrlsByAgency, sv: Services)
    ensures var r := ProcessListing(listing, previous, sv);
      var x := Extract(listing.html, sv.parseUrl(listing.url));
      r.matched.Some? <==> (x.Ok? && NewUrls(x.value, History(previous, listing.agency)) != []
        && IsMatch(EvaluateListing(listing, sv.criteria, [], NewUrls(x.value, History(previous, listing.agency)), sv.parse, sv.oracle)))
    ensures var r := ProcessListing(listing, previous, sv);
      var x := Extract(listing.html, sv.parseUrl(listing.url));
      r.matched.Some? ==> r.matched.value == Evaluation(listing.agency,
        EvaluateListing(listing, sv.criteria, [], NewUrls(x.value, History(previous, listing.agency)), sv.parse, sv.oracle),
        listing.url)
  {
    var x := Extract(listing.html, sv.parseUrl(listing.url));
    if x.Ok? {
      HasNewIffNewUrls(x.value, History(previous, listing.agency));
    }
  }

  /// Some current URL is not previous iff the filtered list is not empty, so
  /// the three nested tests of lines 65, 70 and 76 amount to one.
  lemma HasNewIffNewUrls(currentUrls: seq<string>, previousUrls: seq<string>)
    ensures SomeNotIn(currentUrls, previousUrls) <==> NewUrls(currentUrls, previousUrls) != []
    ensures SomeNotIn(currentUrls, previousUrls) ==> Changed(currentUrls, previousUrls)
  {
    var n := NewUrls(currentUrls, previousUrls);
    if n != [] {
      var u := n[0];
      assert u in currentUrls && u !in previousUrls;
      var i :| 0 <= i < |currentUrls| && currentUrls[i] == u;
    }
    if SomeNotIn(currentUrls, previousUrls) {
      var i :| 0 <= i < |currentUrls| && currentUrls[i] !in previousUrls;
      assert currentUrls[i] in n;
    }
    SetsDifferIff(currentUrls, previousUrls);
  }

  /// Without a new URL the oracle's answers do not matter: it is not called.
  lemma OracleUnusedWithoutNewUrls(listing: Listing, previous: UrlsByAgency, sv: Services, other: ListingPrompt -> Reply)
    requires var x := Extract(listing.html, sv.parseUrl(listing.url));
      x.Err? || NewUrls(x.value, History(previous, listing.agency)) == []
    ensures ProcessListing(listing, previous, sv) == ProcessListing(listing, previous, sv.(oracle := other))
    ensures ProcessListing(listing, previous, sv).matched.None?
  {
    var x := Extract(listing.html, sv.parseUrl(listing.url));
    if x.Ok? {
      HasNewIffNewUrls(x.value, History(previous, listing.agency));
    }
  }

  /// An agency seen for the first time has all its URLs new.
  lemma FirstVisitAllNew(currentUrls: seq<string>)
    ensures NewUrls(currentUrls, []) == currentUrls
  {
    FilterAll(currentUrls);
  }

  lemma {:induction false} FilterAll(s: seq<string>)
    ensures Filter(u => u !in [], s) == s
  {
    if s != [] {
      FilterAll(s[..|s| - 1]);
    }
  }

  // ---------------------------------------------------------------------
  // Aggregation.

  /// An evaluation is sent for exactly the results that carry one, each once
  /// per result.
  lemma {:induction false} EvaluationsAreMatches(rs: seq<AgencyResult>)
    ensures |Evaluations(rs)| <= |rs|
    ensures forall e :: e in Evaluations(rs) <==> exists i :: 0 <= i < |rs| && rs[i].matched == Some(e)
  {
    if rs != [] {
      var front := rs[..|rs| - 1];
      EvaluationsAreMatches(front);
      assert forall i :: 0 <= i < |front| ==> front[i] == rs[i];
    }
  }

  /// Every processed agency has an entry to save, and nothing else has.
  lemma {:induction false} UrlsToSaveKeys(rs: seq<AgencyResult>)
    ensures forall a :: a in UrlsToSave(rs) <==> exists i :: 0 <= i < |rs| && rs[i].agency == a
  {
    if rs != [] {
      var front := rs[..|rs| - 1];
      UrlsToSaveKeys(front);
      assert forall i :: 0 <= i < |front| ==> front[i] == rs[i];
    }
  }

  /// With one result per agency, each agency's entry is its result's URLs.
  lemma {:induction false} UrlsToSaveEntry(rs: seq<AgencyResult>, i: nat)
    requires i < |rs|
    requires forall j, k :: 0 <= j < k < |rs| ==> rs[j].agency != rs[k].agency
    ensures rs[i].agency in UrlsToSave(rs) && UrlsToSave(rs)[rs[i].agency] == rs[i].currentUrls
  {
    if i < |rs| - 1 {
      UrlsToSaveEntry(rs[..|rs| - 1], i);
    }
  }

  // ---------------------------------------------------------------------
  // Behaviour across cycles.

  /// The configured agency names are distinct.
  lemma ConfiguredNamesDistinct()
    ensures forall j, k :: 0 <= j < k < |Config.Agencies| ==> Config.Agencies[j].name != Config.Agencies[k].name
  {
    assert Config.Agencies[0].name[0] != Config.Agencies[1].name[0];
  }

  /// An agency whose scrape failed is missing from the results, so a saved
  /// file no longer holds its history, and on the next cycle every URL of its
  /// page counts as new.
  lemma FailedScrapeWipesHistory(f: StoreFile, listings: seq<Listing>, previous: UrlsByAgency, sv: Services,
                                 agency: string, currentUrls: seq<string>)
    requires forall l :: l in listings ==> l.agency != agency
    ensures var saved := SavedFile(f, UrlsToSave(ProcessAll(listings, previous, sv)));
      agency !in Loaded(saved) && NewUrls(currentUrls, History(Loaded(saved), agency)) == currentUrls
  {
    var rs := ProcessAll(listings, previous, sv);
    UrlsToSaveKeys(rs);
    forall i | 0 <= i < |rs| ensures rs[i].agency != agency {
      assert listings[i] in listings;
    }
    FirstVisitAllNew(currentUrls);
  }

  /// An agency whose extraction threw is saved with no new URLs, so its
  /// stored history is kept, deduplicated.
  lemma ExtractionErrorKeepsHistory(f: StoreFile, listings: seq<Listing>, previous: UrlsByAgency, sv: Services, i: nat)
    requires i < |listings|
    requires forall j, k :: 0 <= j < k < |listings| ==> listings[j].agency != listings[k].agency
    requires Extract(listings[i].html, sv.parseUrl(listings[i].url)).Err?
    ensures var saved := Loaded(SavedFile(f, UrlsToSave(ProcessAll(listings, previous, sv))));
      listings[i].agency in saved && saved[listings[i].agency] == Dedup(History(Loaded(f), listings[i].agency))
  {
    var rs := ProcessAll(listings, previous, sv);
    assert rs[i].agency == listings[i].agency && rs[i].currentUrls == [];
    EmptyResultKeepsHistory(f, rs, i);
  }

  /// A result with no current URLs leaves its agency's saved list as it was
  /// stored, deduplicated.
  lemma EmptyResultKeepsHistory(f: StoreFile, rs: seq<AgencyResult>, i: nat)
    requires i < |rs| && rs[i].currentUrls == []
    requires forall j, k :: 0 <= j < k < |rs| ==> rs[j].agency != rs[k].agency
    ensures var saved := Loaded(SavedFile(f, UrlsToSave(rs)));
      rs[i].agency in saved && saved[rs[i].agency] == Dedup(History(Loaded(f), rs[i].agency))
  {
    var a := rs[i].agency;
    UrlsToSaveEntry(rs, i);
    var m := UrlsToSave(rs);
    SavedWithoutNewUrls(f, m, a);
  }

  /// Saving a cycle's URLs and running again on the same pages is quiet: no
  /// URL is new, and no listing gets an evaluation.
  lemma RerunIsQuiet(f: StoreFile, listings: seq<Listing>, previous: UrlsByAgency, sv: Services, i: nat)
    requires i < |listings|
    requires forall j, k :: 0 <= j < k < |listings| ==> listings[j].agency != listings[k].agency
    ensures var saved := Loaded(SavedFile(f, UrlsToSave(ProcessAll(listings, previous, sv))));
      var x := Extract(listings[i].html, sv.parseUrl(listings[i].url));
      (x.Ok? ==> NewUrls(x.value, History(saved, listings[i].agency)) == [])
      && ProcessListing(listings[i], saved, sv).matched.None?
  {
    var rs := ProcessAll(listings, previous, sv);
    var a := listings[i].agency;
    var saved := Loaded(SavedFile(f, UrlsToSave(rs)));
    SavedCoversCurrent(f, rs, i);
    var x := Extract(listings[i].html, sv.parseUrl(listings[i].url));
    if x.Ok? {
      NothingNewWhenCovered(x.value, History(saved, a));
    }
    OracleUnusedWithoutNewUrls(listings[i], saved, sv, sv.oracle);
  }

  /// After a save, an agency's stored list holds every URL its result had.
  lemma SavedCoversCurrent(f: StoreFile, rs: seq<AgencyResult>, i: nat)
    requires i < |rs|
    requires forall j, k :: 0 <= j < k < |rs| ==> rs[j].agency != rs[k].agency
    ensures forall u :: u in rs[i].currentUrls ==> u in History(Loaded(SavedFile(f, UrlsToSave(rs))), rs[i].agency)
  {
    UrlsToSaveEntry(rs, i);
    MergeKeepsHistory(Loaded(f), UrlsToSave(rs), rs[i].agency);
  }

  /// A previous list holding every current URL gives no new URL, whatever
  /// was removed.
  lemma NothingNewWhenCovered(currentUrls: seq<string>, previousUrls: seq<string>)
    requires forall u :: u in currentUrls ==> u in previousUrls
    ensures NewUrls(currentUrls, previousUrls) == []
  {
    HasNewIffNewUrls(currentUrls, previousUrls);
  }
}
