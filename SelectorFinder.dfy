/// src/services/selector-finder.ts: asking the oracle for the CSS selector of
/// the element holding an agency's listings, reading a selector out of its
/// free-text answer, and falling back to "body" whenever that fails.
module SelectorFinder {
  import opened Wrappers
  import opened Text
  import opened Oracle

  /// The most characters of the body sent to the oracle (lines 43-46).
  const SampleLimit: nat := 40000

  const Body: string := "body"

  // ---------------------------------------------------------------------
  // `extractSelectorFromResponse` (lines 12-33).

  /// The first backtick at or after `from`.
  function NextBacktick(t: string, from: nat): (r: Option<nat>)
    ensures r.Some? ==> from <= r.value < |t| && t[r.value] == '`'
    ensures r.Some? ==> forall k :: from <= k < r.value ==> t[k] != '`'
    ensures r.None? ==> forall k :: from <= k < |t| ==> t[k] != '`'
    decreases |t| - from
  {
    if from >= |t| then None
    else if t[from] == '`' then Some(from)
    else NextBacktick(t, from + 1)
  }

  /// /`([^`]+)`/ matches at `i` with group `g`.
  predicate BacktickPairAt(t: string, i: nat, g: string) {
    g != [] && i + |g| + 1 < |t| && t[i] == '`' && t[i + |g| + 1] == '`'
    && t[i + 1..i + |g| + 1] == g && '`' !in g
  }

  /// The pattern matches at no index in [a, b).
  ghost predicate NoPairBetween(t: string, a: nat, b: nat) {
    forall i, g :: a <= i < b ==> !BacktickPairAt(t, i, g)
  }

  /// The group of the first match of /`([^`]+)`/ at or after `from`: at a
  /// backtick the group runs to the next backtick and must not be empty.
  function Backticked(t: string, from: nat): Option<string>
    decreases |t| - from
  {
    if from >= |t| then None
    else if t[from] != '`' then Backticked(t, from + 1)
    else
      match NextBacktick(t, from + 1)
      case None => None
      case Some(j) => if j == from + 1 then Backticked(t, j) else Some(t[from + 1..j])
  }

  /// `Backticked` finds the leftmost match of the pattern, and finds nothing
  /// exactly when the pattern matches nowhere.
  lemma {:induction false} BacktickedIsFirstMatch(t: string, from: nat)
    ensures var r := Backticked(t, from);
      r.Some? ==> exists i :: from <= i && BacktickPairAt(t, i, r.value) && NoPairBetween(t, from, i)
    ensures Backticked(t, from).None? ==> NoPairBetween(t, from, |t|)
    decreases |t| - from
  {
    if from < |t| {
      if t[from] != '`' {
        BacktickedIsFirstMatch(t, from + 1);
        NoPairAtPlain(t, from);
      } else {
        match NextBacktick(t, from + 1)
        case None =>
          forall i, g | from <= i < |t| ensures !BacktickPairAt(t, i, g) {
          }
        case Some(j) =>
          if j == from + 1 {
            BacktickedIsFirstMatch(t, j);
            NoPairAtEmptyGroup(t, from);
          } else {
            var g := t[from + 1..j];
            assert BacktickPairAt(t, from, g);
          }
      }
    }
  }

  lemma NoPairAtPlain(t: string, i: nat)
    requires i < |t| && t[i] != '`'
    ensures forall g :: !BacktickPairAt(t, i, g)
  {
  }

  lemma NoPairAtEmptyGroup(t: string, i: nat)
    requires i + 1 < |t| && t[i + 1] == '`'
    ensures forall g :: !BacktickPairAt(t, i, g)
  {
    forall g | g != [] && i + |g| + 1 < |t| && t[i + 1..i + |g| + 1] == g ensures '`' in g {
      assert g[0] == t[i + 1];
    }
  }

  /// A selector-looking line (lines 16-25), otherwise the first backticked text
  /// of the trimmed line (lines 27-30).
  function LineSelector(line: string): (r: Option<string>)
    ensures r.Some? ==> r.value != []
  {
    var t := Trim(line);
    if StartsWith(t, ".") || StartsWith(t, "#") || StartsWith(t, "[") || t == Body then Some(t)
    else
      match Backticked(t, 0)
      case None => None
      case Some(g) =>
        BacktickedIsFirstMatch(t, 0);
        Some(g)
  }

  /// The first `f(x)` of `xs`, in order, that is not None: the `for` loop of
  /// lines 15-31 with its early returns.
  function FirstSome(f: string -> Option<string>, xs: seq<string>): Option<string> {
    if xs == [] then None
    else if f(xs[0]).Some? then f(xs[0])
    else FirstSome(f, xs[1..])
  }

  /// `FirstSome` returns at the first element that yields a value, and returns
  /// None exactly when none does.
  lemma {:induction false} FirstSomeIsFirstMatch(f: string -> Option<string>, xs: seq<string>)
    ensures FirstSome(f, xs).None? <==> forall k :: 0 <= k < |xs| ==> f(xs[k]).None?
    ensures FirstSome(f, xs).Some? ==> exists k :: (0 <= k < |xs| && f(xs[k]) == FirstSome(f, xs)
      && forall k' :: 0 <= k' < k ==> f(xs[k']).None?)
  {
    if xs != [] && f(xs[0]).None? {
      var tail := xs[1..];
      FirstSomeIsFirstMatch(f, tail);
      assert forall k :: 0 < k < |xs| ==> xs[k] == tail[k - 1];
      var r := FirstSome(f, tail);
      if r.Some? {
        var k :| 0 <= k < |tail| && f(tail[k]) == r
          && forall k' :: 0 <= k' < k ==> f(tail[k']).None?;
        assert f(xs[k + 1]) == r;
      }
    }
  }

  /// `extractSelectorFromResponse(response)`: None stands for `null`.
  function ExtractSelectorFromResponse(response: string): (r: Option<string>)
    ensures r.Some? ==> r.value != []
  {
    var lines := Split(response, '\n');
    FirstSomeIsFirstMatch(LineSelector, lines);
    FirstSome(LineSelector, lines)
  }

  /// A line that, once trimmed, starts like a class, id or attribute selector
  /// is returned as it stands.
  lemma SelectorLineReturned(response: string)
    requires var lines := Split(response, '\n');
      lines != [] && (StartsWith(Trim(lines[0]), ".") || StartsWith(Trim(lines[0]), "#") || StartsWith(Trim(lines[0]), "["))
    ensures ExtractSelectorFromResponse(response) == Some(Trim(Split(response, '\n')[0]))
  {
  }

  /// A response without a line break is read as one line.
  lemma SingleLineResponse(response: string)
    requires '\n' !in response
    ensures ExtractSelectorFromResponse(response) == LineSelector(response)
  {
    assert Split(response, '\n') == [response];
    FirstSomeIsFirstMatch(LineSelector, [response]);
  }

  // ---------------------------------------------------------------------
  // `findSelectorsWithAI` (lines 35-98).

  /// What the prompt carries besides fixed wording: the agency name and the
  /// sample of the page.
  datatype SelectorPrompt = SelectorPrompt(agencyName: string, sample: string)

  /// The sample of lines 43-46: at most `SampleLimit` leading characters.
  function Sample(bodyContent: string): (r: string)
    ensures |r| <= SampleLimit && StartsWith(bodyContent, r)
    ensures |bodyContent| <= SampleLimit ==> r == bodyContent
    ensures |bodyContent| > SampleLimit ==> |r| == SampleLimit
  {
    if |bodyContent| > SampleLimit then bodyContent[..SampleLimit] else bodyContent
  }

  /// The candidate of line 74: the extracted selector, or the whole answer.
  function Candidate(rawResponse: string): (c: string)
    requires rawResponse != []
    ensures c != []
    ensures ExtractSelectorFromResponse(rawResponse).Some? ==> c == ExtractSelectorFromResponse(rawResponse).value
    ensures ExtractSelectorFromResponse(rawResponse).None? ==> c == rawResponse
  {
    ExtractSelectorFromResponse(rawResponse).GetOr(rawResponse)
  }

  /// The prompt sent for a page: `bodyHtml` is cheerio's `$("body").html()`,
  /// an empty one replaced by the page itself (line 42).
  function PromptFor(html: string, agencyName: string, bodyHtml: string -> string): (p: SelectorPrompt)
    ensures p.agencyName == agencyName
    ensures bodyHtml(html) != [] ==> StartsWith(bodyHtml(html), p.sample)
    ensures bodyHtml(html) == [] ==> StartsWith(html, p.sample)
  {
    var body := bodyHtml(html);
    var bodyContent := if body != [] then body else html;
    SelectorPrompt(agencyName, Sample(bodyContent))
  }

  /// `findSelectorsWithAI(html, agencyName)`. `count(s)` is the number of
  /// elements `s` selects on the page, None when cheerio rejects `s` (it
  /// throws, and the catch of lines 94-97 answers "body").
  function FindSelectorsWithAI(html: string, agencyName: string, bodyHtml: string -> string,
                               oracle: SelectorPrompt -> Reply, count: string -> Option<nat>): (r: string)
    ensures r != []
    ensures r != Body ==> (TrimmedContent(oracle(PromptFor(html, agencyName, bodyHtml))).Some?
      && r == Candidate(TrimmedContent(oracle(PromptFor(html, agencyName, bodyHtml))).value)
      && count(r).Some? && count(r).value > 0)
    ensures TrimmedContent(oracle(PromptFor(html, agencyName, bodyHtml))).None? ==> r == Body
  {
    match TrimmedContent(oracle(PromptFor(html, agencyName, bodyHtml)))
    case None => Body
    case Some(rawResponse) =>
      var selector := Candidate(rawResponse);
      match count(selector)
      case None => Body
      case Some(n) => if n > 0 && selector != Body then selector else Body
  }

  /// A candidate that selects something and is not "body" is accepted; any
  /// other candidate gives "body".
  lemma AcceptRule(html: string, agencyName: string, bodyHtml: string -> string,
                   oracle: SelectorPrompt -> Reply, count: string -> Option<nat>)
    requires TrimmedContent(oracle(PromptFor(html, agencyName, bodyHtml))).Some?
    ensures var c := Candidate(TrimmedContent(oracle(PromptFor(html, agencyName, bodyHtml))).value);
      FindSelectorsWithAI(html, agencyName, bodyHtml, oracle, count) ==
        if count(c).Some? && count(c).value > 0 && c != Body then c else Body
  {
  }
}
