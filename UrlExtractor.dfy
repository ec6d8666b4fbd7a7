/// src/utils/urlExtractor.ts: the candidate listing URLs of one agency page.
/// Every `href="…"` or `href='…'` value is made absolute by an ad-hoc rule that
/// keeps only the scheme and host of the agency URL, links matching a fixed
/// exclusion list are dropped, and duplicates are removed keeping first-seen order.
module UrlExtractor {
  import opened Wrappers
  import opened Text

  /// What `new URL(agencyUrl)` yields: `protocol` keeps its colon ("https:"),
  /// `host` keeps a non-default port. `pathname` is never read by the extractor.
  datatype BaseUrl = BaseUrl(protocol: string, host: string, pathname: string)

  /// The message of the TypeError `new URL` throws on a malformed agency URL.
  const InvalidUrl: string := "Invalid URL"

  predicate IsQuote(c: char) {
    c == '"' || c == '\''
  }

  function NextQuote(s: string, from: nat): (r: Option<nat>)
    ensures r.Some? ==> from <= r.value < |s| && IsQuote(s[r.value])
    ensures r.Some? ==> forall k :: from <= k < r.value ==> !IsQuote(s[k])
    decreases |s| - from
  {
    if from >= |s| then None
    else if IsQuote(s[from]) then Some(from)
    else NextQuote(s, from + 1)
  }

  /// The first groups of `html.matchAll(/href=["']([^"']+)["']/gi)` from index
  /// `from` on: after a match the scan resumes behind its closing quote, after
  /// a failed attempt one character further.
  function Hrefs(html: string, from: nat): (r: seq<string>)
    ensures forall i :: 0 <= i < |r| ==> r[i] != [] && '"' !in r[i] && '\'' !in r[i]
    decreases |html| - from
  {
    if from + 5 >= |html| then []
    else if Lower(html[from..from + 5]) == "href=" && IsQuote(html[from + 5]) then
      match NextQuote(html, from + 6)
      case Some(j) =>
        if j > from + 6 then
          var v := html[from + 6..j];
          assert forall k :: 0 <= k < |v| ==> v[k] == html[from + 6 + k];
          [v] + Hrefs(html, j + 1)
        else Hrefs(html, from + 1)
      case None => Hrefs(html, from + 1)
    else Hrefs(html, from + 1)
  }

  /// Lines 17-23: a root-relative href is appended to scheme and host, any other
  /// href not starting with "http" is put below the host root, the rest is kept.
  /// None when the agency URL could not be parsed and it was needed.
  function Absolute(href: string, base: Option<BaseUrl>): Option<string> {
    if StartsWith(href, "/") then
      if base.None? then None else Some(base.value.protocol + "//" + base.value.host + href)
    else if !StartsWith(href, "http") then
      if base.None? then None else Some(base.value.protocol + "//" + base.value.host + "/" + href)
    else Some(href)
  }

  /// `excludePatterns.some(p => p.test(url))` for the case-insensitive
  /// expressions of lines 32-55, in their order. Every pattern is lower-case
  /// ASCII, so folding the URL to lower case is exactly the `i` flag.
  predicate IsExcluded(url: string) {
    var u := Lower(url);
    Contains(u, "/contact") || Contains(u, "/about") || Contains(u, "/privacy")
    || Contains(u, "/terms") || Contains(u, "/cookies") || Contains(u, "/login")
    || Contains(u, "/register") || Contains(u, "/search") || Contains(u, "/filter")
    || Contains(u, "/sort")
    || EndsWith(u, ".css") || EndsWith(u, ".js") || EndsWith(u, ".png") || EndsWith(u, ".jpg")
    || EndsWith(u, ".jpeg") || EndsWith(u, ".gif") || EndsWith(u, ".svg") || EndsWith(u, ".ico")
    || EndsWith(u, ".pdf")
    || Contains(u, "mailto:") || Contains(u, "tel:") || Contains(u, "#")
  }

  predicate IsKept(url: string) {
    !IsExcluded(url)
  }

  /// The `urls` array after the loop of lines 12-27, or the error it throws.
  function AbsoluteAll(hrefs: seq<string>, base: Option<BaseUrl>): (r: Result<seq<string>>)
    ensures r.Err? <==> exists i :: 0 <= i < |hrefs| && Absolute(hrefs[i], base).None?
    ensures r.Err? ==> r.message == InvalidUrl
    ensures r.Ok? ==> |r.value| == |hrefs|
    ensures r.Ok? ==> forall i :: 0 <= i < |hrefs| ==> Absolute(hrefs[i], base) == Some(r.value[i])
  {
    if hrefs == [] then Ok([])
    else
      var front := hrefs[..|hrefs| - 1];
      assert forall i :: 0 <= i < |front| ==> hrefs[i] == front[i];
      match AbsoluteAll(front, base)
      case Err(m) => Err(m)
      case Ok(urls) =>
        match Absolute(hrefs[|hrefs| - 1], base)
        case None => Err(InvalidUrl)
        case Some(u) => Ok(urls + [u])
  }

  /// The rest of `extractUrlsFromHtml` once the href values are known. An `Ok`
  /// result holds exactly the made-absolute hrefs that match no exclusion
  /// pattern, each once.
  function FromHrefs(hrefs: seq<string>, base: Option<BaseUrl>): (r: Result<seq<string>>)
    ensures r.Err? <==> exists h :: h in hrefs && Absolute(h, base).None?
    ensures r.Err? ==> r.message == InvalidUrl
    ensures r.Ok? ==> NoDups(r.value)
    ensures r.Ok? ==> forall u :: u in r.value ==> IsKept(u)
    ensures r.Ok? ==> forall u :: u in r.value <==>
      IsKept(u) && exists h :: h in hrefs && Absolute(h, base) == Some(u)
  {
    match AbsoluteAll(hrefs, base)
    case Err(m) => Err(m)
    case Ok(urls) =>
      assert forall u :: u in urls <==> exists h :: h in hrefs && Absolute(h, base) == Some(u) by {
        forall u | u in urls ensures exists h :: h in hrefs && Absolute(h, base) == Some(u) {
          var i :| 0 <= i < |urls| && urls[i] == u;
          assert hrefs[i] in hrefs;
        }
        forall u | exists h :: h in hrefs && Absolute(h, base) == Some(u) ensures u in urls {
          var h :| h in hrefs && Absolute(h, base) == Some(u);
          var i :| 0 <= i < |hrefs| && hrefs[i] == h;
          assert urls[i] == u;
        }
      }
      Ok(Dedup(Filter(IsKept, urls)))
  }

  /// `extractUrlsFromHtml(html, agencyUrl)` as a value.
  function Extract(html: string, base: Option<BaseUrl>): (r: Result<seq<string>>)
    ensures r.Err? <==> exists h :: h in Hrefs(html, 0) && Absolute(h, base).None?
    ensures r.Ok? ==> NoDups(r.value)
    ensures r.Ok? ==> forall u :: u in r.value <==>
      IsKept(u) && exists h :: h in Hrefs(html, 0) && Absolute(h, base) == Some(u)
  {
    FromHrefs(Hrefs(html, 0), base)
  }

  /// The loop of lines 12-27 pushing every made-absolute href, followed by the
  /// exclusion filter and the `Set` deduplication.
  method ExtractUrlsFromHtml(html: string, base: Option<BaseUrl>) returns (r: Result<seq<string>>)
    ensures r == Extract(html, base)
  {
    var matches := Hrefs(html, 0);
    var urls: seq<string> := [];
    var i := 0;
    while i < |matches|
      invariant 0 <= i <= |matches|
      invariant AbsoluteAll(matches[..i], base) == Ok(urls)
    {
      var url := matches[i];
      assert matches[..i + 1][..i] == matches[..i];
      if StartsWith(url, "/") {
        if base.None? {
          assert Absolute(matches[i], base).None?;
          return Err(InvalidUrl);
        }
        url := base.value.protocol + "//" + base.value.host + url;
      } else if !StartsWith(url, "http") {
        if base.None? {
          assert Absolute(matches[i], base).None?;
          return Err(InvalidUrl);
        }
        url := base.value.protocol + "//" + base.value.host + "/" + url;
      }
      urls := urls + [url];
      i := i + 1;
    }
    assert matches[..i] == matches;
    var propertyUrls := Filter(IsKept, urls);
    r := Ok(Dedup(propertyUrls));
    assert r == FromHrefs(matches, base);
  }

  /// `hasNewUrls`: whether the page holds a URL outside `excludeUrls`; the
  /// extraction's error propagates.
  function HasNewUrls(html: string, base: Option<BaseUrl>, excludeUrls: seq<string>): (r: Result<bool>)
    ensures r.Ok? <==> Extract(html, base).Ok?
    ensures r.Ok? ==> (r.value <==> exists u :: u in Extract(html, base).value && u !in excludeUrls)
  {
    match Extract(html, base)
    case Err(m) => Err(m)
    case Ok(urls) => Ok(SomeNotIn(urls, excludeUrls))
  }

  /// When every extracted URL is already excluded there is nothing new.
  lemma NothingNewWhenAllExcluded(html: string, base: Option<BaseUrl>, excludeUrls: seq<string>)
    requires Extract(html, base).Ok?
    requires forall u :: u in Extract(html, base).value ==> u in excludeUrls
    ensures HasNewUrls(html, base, excludeUrls) == Ok(false)
  {
  }

  /// The output lists the kept URLs in the order of their first occurrence.
  lemma ExtractKeepsFirstSeenOrder(html: string, base: Option<BaseUrl>, i: nat, j: nat)
    requires AbsoluteAll(Hrefs(html, 0), base).Ok?
    requires i < j < |Extract(html, base).value|
    ensures var kept := Filter(IsKept, AbsoluteAll(Hrefs(html, 0), base).value);
      FirstIndex(kept, Extract(html, base).value[i]) < FirstIndex(kept, Extract(html, base).value[j])
  {
    DedupKeepsFirstOccurrenceOrder(Filter(IsKept, AbsoluteAll(Hrefs(html, 0), base).value), i, j);
  }

  /// Only the scheme and host of the agency URL matter; its path is ignored.
  lemma {:induction false} BasePathIgnored(html: string, b1: BaseUrl, b2: BaseUrl)
    requires b1.protocol == b2.protocol && b1.host == b2.host
    ensures Extract(html, Some(b1)) == Extract(html, Some(b2))
  {
    var hrefs := Hrefs(html, 0);
    assert forall h :: Absolute(h, Some(b1)) == Absolute(h, Some(b2));
    AbsoluteAllAgree(hrefs, Some(b1), Some(b2));
  }

  lemma {:induction false} AbsoluteAllAgree(hrefs: seq<string>, b1: Option<BaseUrl>, b2: Option<BaseUrl>)
    requires forall h :: Absolute(h, b1) == Absolute(h, b2)
    ensures AbsoluteAll(hrefs, b1) == AbsoluteAll(hrefs, b2)
  {
    if hrefs != [] {
      AbsoluteAllAgree(hrefs[..|hrefs| - 1], b1, b2);
    }
  }

  const ExampleListing: string := "https://example.com/listing/42"

  /// Where a few characters occur in the example listing URL.
  lemma ExampleSlashes()
    ensures forall i :: 0 <= i < |ExampleListing| && ExampleListing[i] == '/' ==> i == 6 || i == 7 || i == 19 || i == 27
  {
  }

  lemma ExampleEls()
    ensures forall i :: 0 <= i < |ExampleListing| && ExampleListing[i] == 'l' ==> i == 13 || i == 20
  {
  }

  lemma ExampleEms()
    ensures forall i :: 0 <= i < |ExampleListing| && ExampleListing[i] == 'm' ==> i == 11 || i == 18
  {
  }

  lemma ExampleTees()
    ensures forall i :: 0 <= i < |ExampleListing| && ExampleListing[i] == 't' ==> i == 1 || i == 2 || i == 23
  {
  }

  /// A path pattern whose second character never follows a '/' in the example
  /// listing URL does not occur in it.
  lemma ExampleMissesPath(t: string)
    requires |t| >= 2 && t[0] == '/' && t[1] != '/' && t[1] != 'e' && t[1] != 'l' && t[1] != '4'
    ensures !Contains(ExampleListing, t)
  {
    ExampleSlashes();
    NotContainsByPair(ExampleListing, t, 0);
  }

  lemma ExampleMissesPaths()
    ensures !Contains(ExampleListing, "/contact") && !Contains(ExampleListing, "/about")
      && !Contains(ExampleListing, "/privacy") && !Contains(ExampleListing, "/terms")
      && !Contains(ExampleListing, "/cookies") && !Contains(ExampleListing, "/register")
      && !Contains(ExampleListing, "/search") && !Contains(ExampleListing, "/filter")
      && !Contains(ExampleListing, "/sort")
  {
    ExampleMissesFirstPaths();
    ExampleMissesLastPaths();
  }

  lemma ExampleMissesFirstPaths()
    ensures !Contains(ExampleListing, "/contact") && !Contains(ExampleListing, "/about")
      && !Contains(ExampleListing, "/privacy") && !Contains(ExampleListing, "/terms")
  {
    ExampleMissesPath("/contact");
    ExampleMissesPath("/about");
    ExampleMissesPath("/privacy");
    ExampleMissesPath("/terms");
  }

  lemma ExampleMissesLastPaths()
    ensures !Contains(ExampleListing, "/cookies") && !Contains(ExampleListing, "/register")
      && !Contains(ExampleListing, "/search") && !Contains(ExampleListing, "/filter")
      && !Contains(ExampleListing, "/sort")
  {
    ExampleMissesPath("/cookies");
    ExampleMissesPath("/register");
    ExampleMissesPath("/search");
    ExampleMissesPath("/filter");
    ExampleMissesPath("/sort");
  }

  lemma ExampleMissesLogin()
    ensures !Contains(ExampleListing, "/login")
  {
    ExampleEls();
    NotContainsByPair(ExampleListing, "/login", 1);
  }

  lemma ExampleMissesMailto()
    ensures !Contains(ExampleListing, "mailto:")
  {
    ExampleEms();
    NotContainsByPair(ExampleListing, "mailto:", 0);
  }

  lemma ExampleMissesTel()
    ensures !Contains(ExampleListing, "tel:")
  {
    ExampleTees();
    NotContainsByPair(ExampleListing, "tel:", 0);
  }

  lemma ExampleMissesAnchor()
    ensures !Contains(ExampleListing, "#")
  {
    NotContainsByChar(ExampleListing, "#", 0);
  }

  lemma ExampleIsLowerCase()
    ensures Lower(ExampleListing) == ExampleListing
  {
  }

  /// No exclusion pattern matches the example listing URL.
  lemma ExampleListingKept()
    ensures IsKept(ExampleListing)
  {
    ExampleIsLowerCase();
    ExampleMissesPaths();
    ExampleMissesLogin();
    ExampleMissesMailto();
    ExampleMissesTel();
    ExampleMissesAnchor();
    ExampleMissesSuffixes();
  }

  lemma ExampleMissesSuffixes()
    ensures !EndsWith(ExampleListing, ".css") && !EndsWith(ExampleListing, ".js")
      && !EndsWith(ExampleListing, ".png") && !EndsWith(ExampleListing, ".jpg")
      && !EndsWith(ExampleListing, ".jpeg") && !EndsWith(ExampleListing, ".gif")
      && !EndsWith(ExampleListing, ".svg") && !EndsWith(ExampleListing, ".ico")
      && !EndsWith(ExampleListing, ".pdf")
  {
    var n := |ExampleListing|;
    assert ExampleListing[n - 1] == '2' && ExampleListing[n - 2] == '4';
  }

  /// The lower-case folding of `x + t + y` shows `t` where it was put, when
  /// `t` holds no upper-case letter.
  lemma LowerShowsInfix(x: string, t: string, y: string)
    requires forall k :: 0 <= k < |t| ==> LowerChar(t[k]) == t[k]
    ensures OccursAt(Lower(x + t + y), t, |x|)
  {
    var l := Lower(x + t + y);
    forall k | 0 <= k < |t| ensures l[|x|..|x| + |t|][k] == t[k] {
      assert (x + t + y)[|x| + k] == t[k];
    }
  }

  /// Every URL ending in "/contact" is excluded.
  lemma ContactExcluded(root: string)
    ensures IsExcluded(root + "/contact")
  {
    LowerShowsInfix(root, "/contact", "");
    assert root + "/contact" + "" == root + "/contact";
    ContainsAt(Lower(root + "/contact"), "/contact", |root|);
  }

  /// Every URL ending in ".css" is excluded.
  lemma StylesheetExcluded(x: string)
    ensures IsExcluded(x + ".css")
  {
    LowerShowsSuffix(x, ".css");
  }

  lemma LowerShowsSuffix(x: string, t: string)
    requires forall k :: 0 <= k < |t| ==> LowerChar(t[k]) == t[k]
    ensures EndsWith(Lower(x + t), t)
  {
    var l := Lower(x + t);
    forall k | 0 <= k < |t| ensures l[|x|..][k] == t[k] {
      assert (x + t)[|x| + k] == t[k];
    }
  }

  /// Every URL holding a "#" is excluded.
  lemma AnchorExcluded(x: string, y: string)
    ensures IsExcluded(x + "#" + y)
  {
    LowerShowsInfix(x, "#", y);
    ContainsAt(Lower(x + "#" + y), "#", |x|);
  }

  /// The contact, stylesheet and anchor links of the example page, made
  /// absolute, are excluded.
  lemma ExampleLinksExcluded(root: string)
    ensures IsExcluded(root + "/contact")
    ensures IsExcluded(root + "/" + "styles.css")
    ensures IsExcluded(root + "/" + "#top")
  {
    ContactExcluded(root);
    StylesheetExcluded(root + "/" + "styles");
    AppendAssoc(root + "/", "styles", ".css");
    assert "styles" + ".css" == "styles.css";
    AnchorExcluded(root + "/", "top");
    AppendAssoc(root + "/", "#", "top");
    assert "#" + "top" == "#top";
  }

  /// The four links of the example page made absolute against any agency URL.
  lemma ExampleHrefsMadeAbsolute(b: BaseUrl)
    ensures var root := b.protocol + "//" + b.host;
      AbsoluteAll(["/listing/42", "/contact", "styles.css", "#top"], Some(b))
      == Ok([root + "/listing/42", root + "/contact", root + "/" + "styles.css", root + "/" + "#top"])
  {
    var h := ["/listing/42", "/contact", "styles.css", "#top"];
    var root := b.protocol + "//" + b.host;
    assert StartsWith(h[0], "/") && StartsWith(h[1], "/");
    assert h[2][..1][0] == 's' && h[2][..4][0] == 's' && h[3][..1][0] == '#' && h[3][..4][0] == '#';
    assert Absolute(h[0], Some(b)) == Some(root + "/listing/42");
    assert Absolute(h[1], Some(b)) == Some(root + "/contact");
    assert Absolute(h[2], Some(b)) == Some(root + "/" + "styles.css");
    assert Absolute(h[3], Some(b)) == Some(root + "/" + "#top");
    assert forall i :: 0 <= i < |h| ==> Absolute(h[i], Some(b)).Some?;
    var r := AbsoluteAll(h, Some(b)).value;
    assert |r| == 4;
    assert r == [root + "/listing/42", root + "/contact", root + "/" + "styles.css", root + "/" + "#top"];
  }

  /// A page linking a listing, a contact page, a stylesheet and an in-page
  /// anchor yields the listing alone, whatever the agency's scheme and host,
  /// provided the listing URL itself matches no exclusion pattern.
  lemma ListingPageExample(b: BaseUrl)
    requires IsKept(b.protocol + "//" + b.host + "/listing/42")
    ensures FromHrefs(["/listing/42", "/contact", "styles.css", "#top"], Some(b))
      == Ok([b.protocol + "//" + b.host + "/listing/42"])
  {
    var root := b.protocol + "//" + b.host;
    var urls := [root + "/listing/42", root + "/contact", root + "/" + "styles.css", root + "/" + "#top"];
    ExampleHrefsMadeAbsolute(b);
    ExampleLinksExcluded(root);
    assert urls[..1] == [urls[0]] && urls[..2][..1] == urls[..1];
    assert urls[..3][..2] == urls[..2] && urls[..4][..3] == urls[..3] && urls[..4] == urls;
    assert Filter(IsKept, urls[..1]) == [urls[0]];
    assert Filter(IsKept, urls[..2]) == [urls[0]];
    assert Filter(IsKept, urls[..3]) == [urls[0]];
    assert Filter(IsKept, urls) == [urls[0]];
  }

  /// The case of an agency at https://example.com.
  lemma ExampleListingPage(b: BaseUrl)
    requires b == BaseUrl("https:", "example.com", "/")
    ensures FromHrefs(["/listing/42", "/contact", "styles.css", "#top"], Some(b))
      == Ok(["https://example.com/listing/42"])
  {
    var listing := b.protocol + "//" + b.host + "/listing/42";
    assert listing == ExampleListing;
    ExampleListingKept();
    ListingPageExample(b);
  }
}
