/// src/services/evaluator.ts: asking the oracle whether an agency page lists
/// apartments that meet the criteria. The page is truncated, flattened to
/// text lines, and put in a prompt with optional sections naming URLs to skip
/// and URLs to focus on; the answer is the trimmed reply, or "ERROR".
module Evaluator {
  import opened Wrappers
  import opened Text
  import opened Oracle
  import opened Flatten
  import opened Scraper

  /// The most characters of a page that are flattened (lines 33-36).
  const MaxHtml: nat := 50000

  const ErrorAnswer: string := "ERROR"

  const ExcludeHeading: string := "\n\nEXCLUDE THESE ALREADY-MATCHED URLs: "

  const FocusHeading: string := "\n\nFOCUS ON THESE SPECIFIC URLs: "

  /// The page as flattened: whole up to `MaxHtml` characters, else its prefix.
  function HtmlContent(html: string): (r: string)
    ensures |r| <= MaxHtml && StartsWith(html, r)
    ensures |html| <= MaxHtml ==> r == html
    ensures |html| > MaxHtml ==> |r| == MaxHtml
  {
    if |html| > MaxHtml then html[..MaxHtml] else html
  }

  /// A prompt section listing `urls` after `heading`, or nothing when there
  /// are none (lines 44-52).
  function UrlSection(heading: string, urls: seq<string>): (r: string)
    requires heading != ""
    ensures r == "" <==> urls == []
    ensures urls != [] ==> StartsWith(r, heading) && r[|heading|..] == Join(urls, ", ")
  {
    if |urls| > 0 then heading + Join(urls, ", ") else ""
  }

  /// What the prompt of lines 54-107 carries besides fixed wording.
  datatype ListingPrompt = ListingPrompt(
    criteria: string, agency: string, url: string,
    excludeSection: string, focusSection: string, flattenedHtml: string)

  /// The prompt for `listing`. `parse` is cheerio's parse of a page into the
  /// children of its body.
  function PromptFor(listing: Listing, criteria: string, excludeUrls: seq<string>, focusUrls: seq<string>,
                     parse: string -> seq<Node>): ListingPrompt
  {
    ListingPrompt(criteria, listing.agency, listing.url,
      UrlSection(ExcludeHeading, excludeUrls), UrlSection(FocusHeading, focusUrls),
      Join(BodyLines(parse(HtmlContent(listing.html)), 0), "\n"))
  }

  /// `evaluateListing(listing, criteria, excludeUrls, focusUrls)`: the trimmed
  /// reply, or "ERROR" when the reply is empty or absent or the call throws.
  function EvaluateListing(listing: Listing, criteria: string, excludeUrls: seq<string>, focusUrls: seq<string>,
                           parse: string -> seq<Node>, oracle: ListingPrompt -> Reply): (answer: string)
    ensures answer != ""
    ensures !IsWhitespace(answer[0]) && !IsWhitespace(answer[|answer| - 1])
    ensures var reply := oracle(PromptFor(listing, criteria, excludeUrls, focusUrls, parse));
      answer != ErrorAnswer ==> reply.Answered? && reply.content.Some? && answer == Trim(reply.content.value)
    ensures var reply := oracle(PromptFor(listing, criteria, excludeUrls, focusUrls, parse));
      reply.Failed? || reply.content.None? ==> answer == ErrorAnswer
    ensures var reply := oracle(PromptFor(listing, criteria, excludeUrls, focusUrls, parse));
      reply.Answered? && reply.content.Some? ==>
        answer == if Trim(reply.content.value) != "" then Trim(reply.content.value) else ErrorAnswer
  {
    var reply := oracle(PromptFor(listing, criteria, excludeUrls, focusUrls, parse));
    TrimmedContent(reply).GetOr(ErrorAnswer)
  }

  /// Only the first `MaxHtml` characters of a page reach the oracle: pages
  /// that agree on them get the same answer.
  lemma TailIgnored(a: Listing, b: Listing, criteria: string, excludeUrls: seq<string>, focusUrls: seq<string>,
                    parse: string -> seq<Node>, oracle: ListingPrompt -> Reply)
    requires a.agency == b.agency && a.url == b.url
    requires |a.html| >= MaxHtml && |b.html| >= MaxHtml && a.html[..MaxHtml] == b.html[..MaxHtml]
    ensures EvaluateListing(a, criteria, excludeUrls, focusUrls, parse, oracle)
      == EvaluateListing(b, criteria, excludeUrls, focusUrls, parse, oracle)
  {
    assert HtmlContent(a.html) == HtmlContent(b.html);
  }

  /// With no URLs to exclude or focus on, the prompt has neither section.
  lemma NoSectionsWithoutUrls(listing: Listing, criteria: string, parse: string -> seq<Node>)
    ensures var p := PromptFor(listing, criteria, [], [], parse);
      p.excludeSection == "" && p.focusSection == ""
  {
  }
}
