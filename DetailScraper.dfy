/// src/services/detailScraper.ts: fetching the pages that the classifier found
/// to be property detail pages, over plain HTTP or through a rendering browser,
/// and keeping those that came back with content.
module DetailScraper {
  import opened Wrappers
  import opened Text
  import opened UrlClassifier
  import Config

  /// Lines 8-13; the timestamp is left out.
  datatype PropertyDetail = PropertyDetail(url: string, agency: string, html: string)

  /// `scrapeDetailPageWithHttp` or `scrapeDetailPageWithPuppeteer`.
  datatype Transport = Http | Rendered

  /// The agency as this module reads it: its name and whether
  /// `agency.javascript` is truthy.
  datatype DetailAgency = DetailAgency(name: string, javascript: bool)

  /// The configured agencies: `Agency` of src/config/config.ts declares no
  /// `javascript` field, so `agency.javascript` is `undefined` for each of them.
  function FromConfig(a: Config.Agency): DetailAgency {
    DetailAgency(a.name, false)
  }

  /// The filter of lines 97-99.
  predicate PassesThreshold(c: UrlClassification) {
    c.isListingDetail && c.confidence >= 5.0
  }

  function DetailPages(classifications: seq<UrlClassification>): seq<UrlClassification> {
    Filter(PassesThreshold, classifications)
  }

  /// Lines 109-111: chosen once for the agency.
  function TransportFor(agency: DetailAgency): (t: Transport)
    ensures t == Rendered <==> agency.javascript
  {
    if agency.javascript then Rendered else Http
  }

  /// One fetch (lines 15-91). `fetch(t, url)` is the page as the transport
  /// returns it, None when the request throws; both functions catch that and
  /// answer with an empty page.
  function ScrapeDetailPage(t: Transport, url: string, agencyName: string,
                            fetch: (Transport, string) -> Option<string>): PropertyDetail {
    PropertyDetail(url, agencyName, fetch(t, url).GetOr(""))
  }

  /// The result of fetching every page in order, before the emptiness test.
  function Fetched(pages: seq<UrlClassification>, t: Transport, agencyName: string,
                   fetch: (Transport, string) -> Option<string>): (ds: seq<PropertyDetail>)
    ensures |ds| == |pages|
    ensures forall i :: 0 <= i < |pages| ==>
      ds[i].url == pages[i].url && ds[i].agency == agencyName && ds[i].html == fetch(t, pages[i].url).GetOr("")
  {
    seq(|pages|, i requires 0 <= i < |pages| => ScrapeDetailPage(t, pages[i].url, agencyName, fetch))
  }

  /// `if (detail.html)` (line 120).
  predicate Retrieved(d: PropertyDetail) {
    d.html != ""
  }

  /// `scrapeDetailPages(agency, classifications)` (lines 93-139).
  method ScrapeDetailPages(agency: DetailAgency, classifications: seq<UrlClassification>,
                           fetch: (Transport, string) -> Option<string>) returns (details: seq<PropertyDetail>)
    ensures details == Filter(Retrieved, Fetched(DetailPages(classifications), TransportFor(agency), agency.name, fetch))
    ensures DetailPages(classifications) == [] ==> details == []
  {
    var detailPages := DetailPages(classifications);
    if |detailPages| == 0 {
      return [];
    }
    var scrapeMethod := TransportFor(agency);
    details := [];
    for i := 0 to |detailPages|
      invariant details == Filter(Retrieved, Fetched(detailPages[..i], scrapeMethod, agency.name, fetch))
    {
      var classification := detailPages[i];
      var detail := ScrapeDetailPage(scrapeMethod, classification.url, agency.name, fetch);
      FetchedStep(detailPages, i, scrapeMethod, agency.name, fetch);
      if detail.html != "" {
        details := details + [detail];
      }
    }
    assert detailPages[..|detailPages|] == detailPages;
  }

  lemma FetchedStep(pages: seq<UrlClassification>, i: nat, t: Transport, agencyName: string,
                    fetch: (Transport, string) -> Option<string>)
    requires i < |pages|
    ensures Fetched(pages[..i + 1], t, agencyName, fetch)
      == Fetched(pages[..i], t, agencyName, fetch) + [ScrapeDetailPage(t, pages[i].url, agencyName, fetch)]
  {
  }

  // ---------------------------------------------------------------------
  // Properties.

  /// Exactly the classified detail pages with confidence 5 or more are
  /// fetched: 4 is below the threshold and 5 is not.
  lemma ThresholdIff(classifications: seq<UrlClassification>, c: UrlClassification)
    ensures c in DetailPages(classifications) <==> c in classifications && c.isListingDetail && c.confidence >= 5.0
    ensures !PassesThreshold(c.(confidence := 4.0)) && (c.isListingDetail ==> PassesThreshold(c.(confidence := 5.0)))
  {
  }

  /// Each detail returned has content, the agency's name and the URL of a
  /// page that passed the threshold; there are at most as many as such pages.
  lemma DetailsFromPages(pages: seq<UrlClassification>, t: Transport, agencyName: string,
                         fetch: (Transport, string) -> Option<string>)
    ensures var ds := Filter(Retrieved, Fetched(pages, t, agencyName, fetch));
      |ds| <= |pages|
      && forall d :: d in ds ==> (d.html != "" && d.agency == agencyName
        && exists k :: 0 <= k < |pages| && pages[k].url == d.url && fetch(t, d.url) == Some(d.html))
  {
    var fs := Fetched(pages, t, agencyName, fetch);
    forall d | d in Filter(Retrieved, fs)
      ensures exists k :: 0 <= k < |pages| && pages[k].url == d.url && fetch(t, d.url) == Some(d.html)
    {
      var k :| 0 <= k < |fs| && fs[k] == d;
      assert pages[k].url == d.url;
    }
  }

  /// A page whose fetch fails is left out and the pages after it are still
  /// fetched.
  lemma FailedFetchSkipped(pages: seq<UrlClassification>, k: nat, t: Transport, agencyName: string,
                           fetch: (Transport, string) -> Option<string>)
    requires k < |pages| && fetch(t, pages[k].url).None?
    ensures Filter(Retrieved, Fetched(pages, t, agencyName, fetch))
      == Filter(Retrieved, Fetched(pages[..k], t, agencyName, fetch)) + Filter(Retrieved, Fetched(pages[k + 1..], t, agencyName, fetch))
  {
    var fs := Fetched(pages, t, agencyName, fetch);
    assert fs[..k] == Fetched(pages[..k], t, agencyName, fetch);
    assert fs[k + 1..] == Fetched(pages[k + 1..], t, agencyName, fetch);
    FilterSkip(Retrieved, fs, k);
  }

  /// The configured agencies are fetched over plain HTTP.
  lemma ConfiguredAgenciesUseHttp(a: Config.Agency)
    ensures TransportFor(FromConfig(a)) == Http
  {
  }
}
