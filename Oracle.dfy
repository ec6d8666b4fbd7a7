/// The DeepSeek chat-completion service as the core sees it: a call either fails
/// (the client throws) or answers with a message whose `content` may be absent.
/// Also the tolerant reading of an answer that wraps its JSON in a Markdown code
/// fence, shared by src/services/urlClassifier.ts and src/services/detailEvaluator.ts.
module Oracle {
  import opened Wrappers
  import opened Text

  datatype Reply = Failed(message: string) | Answered(content: Option<string>)

  /// `response.choices[0].message.content?.trim()` followed by a truthiness test:
  /// the trimmed content, or None when it is absent or trims to "".
  function TrimmedContent(r: Reply): (a: Option<string>)
    ensures a.Some? <==> r.Answered? && r.content.Some? && Trim(r.content.value) != ""
    ensures a.Some? ==> a.value == Trim(r.content.value)
    ensures a.Some? <==>
      (r.Answered? && r.content.Some? && exists i :: 0 <= i < |r.content.value| && !IsWhitespace(r.content.value[i]))
    ensures a.Some? ==> a.value != "" && !IsWhitespace(a.value[0]) && !IsWhitespace(a.value[|a.value| - 1])
    ensures a.Some? ==> exists i :: OccursAt(r.content.value, a.value, i)
  {
    match r
    case Answered(Some(c)) => TrimEmptyIff(c); if Trim(c) == "" then None else Some(Trim(c))
    case _ => None
  }

  /// The error a call without usable content reports.
  const NoResponse: string := "No response from DeepSeek"

  const Fence: string := "```"
  const JsonFence: string := "```json"

  /// The end of the run of white space that starts at `i` (greedy `\s*`).
  function SkipWhitespace(s: string, i: nat): (j: nat)
    requires i <= |s|
    ensures i <= j <= |s|
    ensures forall k :: i <= k < j ==> IsWhitespace(s[k])
    ensures j == |s| || !IsWhitespace(s[j])
    decreases |s| - i
  {
    if i < |s| && IsWhitespace(s[i]) then SkipWhitespace(s, i + 1) else i
  }

  /// The first `e >= from` at which `\s*```` matches: the end of the lazy group
  /// `([\s\S]*?)` of the fence patterns.
  function CloseAt(s: string, from: nat): (e: Option<nat>)
    requires from <= |s|
    ensures e.Some? ==> from <= e.value <= |s| && OccursAt(s, Fence, SkipWhitespace(s, e.value))
    decreases |s| - from
  {
    if OccursAt(s, Fence, SkipWhitespace(s, from)) then Some(from)
    else if from == |s| then None
    else CloseAt(s, from + 1)
  }

  /// The group is lazy: no earlier end is followed by a closing fence.
  lemma {:induction false} CloseAtFirst(s: string, from: nat)
    requires from <= |s| && CloseAt(s, from).Some?
    ensures forall k :: from <= k < CloseAt(s, from).value ==> !OccursAt(s, Fence, SkipWhitespace(s, k))
    decreases |s| - from
  {
    var here := OccursAt(s, Fence, SkipWhitespace(s, from));
    if !here {
      var e := CloseAt(s, from).value;
      assert from < |s| && CloseAt(s, from + 1) == Some(e);
      CloseAtFirst(s, from + 1);
      forall k | from <= k < e ensures !OccursAt(s, Fence, SkipWhitespace(s, k)) {
        if k == from {
          assert !here;
        }
      }
    }
  }

  /// The first match of /<opener>\s*([\s\S]*?)\s*```/ and its group. The match
  /// can only start at the first occurrence of `opener` (a later start would find
  /// a closing fence that the first one finds too), its leading `\s*` is greedy
  /// and its group lazy.
  function FenceMatch(s: string, opener: string): Option<string> {
    match IndexOf(s, opener, 0)
    case None => None
    case Some(p) =>
      var start := SkipWhitespace(s, p + |opener|);
      match CloseAt(s, start)
      case None => None
      case Some(e) => Some(s[start..e])
  }

  /// The text handed to `JSON.parse`: the inner text of a ```json block when the
  /// content mentions ```json and such a block is closed; otherwise, only when
  /// the content does not mention ```json, the inner text of a plain ``` block;
  /// otherwise the whole content.
  function StripFences(content: string): string {
    if Contains(content, JsonFence) then
      match FenceMatch(content, JsonFence)
      case Some(inner) => Trim(inner)
      case None => content
    else if Contains(content, Fence) then
      match FenceMatch(content, Fence)
      case Some(inner) => Trim(inner)
      case None => content
    else content
  }

  /// The lazy group closes exactly when a fence occurs at or after its start.
  lemma {:induction false} CloseAtNoneIff(s: string, from: nat)
    requires from <= |s|
    ensures CloseAt(s, from).None? <==> forall k :: from <= k ==> !OccursAt(s, Fence, k)
    decreases |s| - from
  {
    if OccursAt(s, Fence, SkipWhitespace(s, from)) {
    } else if from == |s| {
      forall k | from <= k ensures !OccursAt(s, Fence, k) {
      }
    } else {
      CloseAtNoneIff(s, from + 1);
    }
  }

  /// A fenced block opened by `opener` matches iff some fence follows the first
  /// `opener`.
  lemma FenceMatchNoneIff(s: string, opener: string)
    requires Contains(s, opener)
    ensures var p := IndexOf(s, opener, 0).value;
      FenceMatch(s, opener).None? <==> forall k :: p + |opener| <= k ==> !OccursAt(s, Fence, k)
  {
    var p := IndexOf(s, opener, 0).value;
    var start := SkipWhitespace(s, p + |opener|);
    FenceMatchByClose(s, opener);
    CloseAtNoneIff(s, start);
    WhitespaceHoldsNoFence(s, p + |opener|);
  }

  /// Once the opener is found, the match hinges on the lazy group closing.
  lemma FenceMatchByClose(s: string, opener: string)
    requires Contains(s, opener)
    ensures var start := SkipWhitespace(s, IndexOf(s, opener, 0).value + |opener|);
      FenceMatch(s, opener).None? <==> CloseAt(s, start).None?
  {
  }

  /// No fence starts inside a run of white space.
  lemma WhitespaceHoldsNoFence(s: string, from: nat)
    requires from <= |s|
    ensures forall k :: from <= k < SkipWhitespace(s, from) ==> !OccursAt(s, Fence, k)
  {
    var start := SkipWhitespace(s, from);
    forall k | from <= k < start ensures !OccursAt(s, Fence, k) {
      assert IsWhitespace(s[k]) && s[k] != '`';
      if k + |Fence| <= |s| {
        assert s[k..k + |Fence|][0] == s[k];
      }
    }
  }

  /// The lazy group stops at the first closing fence: the captured text never
  /// contains a fence itself.
  lemma FencedTextHasNoFence(s: string, opener: string)
    requires FenceMatch(s, opener).Some?
    ensures !Contains(FenceMatch(s, opener).value, Fence)
  {
    var p := IndexOf(s, opener, 0).value;
    var start := SkipWhitespace(s, p + |opener|);
    var inner := s[start..CloseAt(s, start).value];
    assert FenceMatch(s, opener) == Some(inner);
    NoFenceBeforeClose(s, start);
    assert !Contains(inner, Fence);
  }

  /// The text before the closing fence that `CloseAt` finds holds no fence.
  lemma NoFenceBeforeClose(s: string, start: nat)
    requires start <= |s| && CloseAt(s, start).Some?
    ensures !Contains(s[start..CloseAt(s, start).value], Fence)
  {
    var e := CloseAt(s, start).value;
    var x := s[start..e];
    if Contains(x, Fence) {
      var i := IndexOf(x, Fence, 0).value;
      FenceInside(s, start, e, i);
      CloseAtFirst(s, start);
    }
  }

  lemma FenceInside(s: string, start: nat, e: nat, i: nat)
    requires start <= e <= |s|
    requires OccursAt(s[start..e], Fence, i)
    ensures OccursAt(s, Fence, start + i) && start + i < e
    ensures SkipWhitespace(s, start + i) == start + i
  {
    var x := s[start..e];
    var j := start + i;
    assert |Fence| == 3 && i + 3 <= |x| && j + 3 <= e;
    assert x[i..i + 3] == Fence;
    assert x[i] == '`' && x[i + 1] == '`' && x[i + 2] == '`';
    assert s[j] == x[i] && s[j + 1] == x[i + 1] && s[j + 2] == x[i + 2];
    assert s[j..j + 3] == Fence;
    assert !IsWhitespace(s[j]);
  }

  /// An answer that mentions ```json but never closes that block is parsed as a
  /// whole, even when an earlier plain ``` block is closed.
  lemma UnclosedJsonFenceParsedWhole(content: string)
    requires Contains(content, JsonFence)
    requires forall k :: IndexOf(content, JsonFence, 0).value + |JsonFence| <= k ==> !OccursAt(content, Fence, k)
    ensures StripFences(content) == content
  {
    FenceMatchNoneIff(content, JsonFence);
  }

  /// Content without any fence is parsed as it is.
  lemma UnfencedParsedWhole(content: string)
    requires !Contains(content, Fence)
    ensures StripFences(content) == content
  {
    if Contains(content, JsonFence) {
      var p := IndexOf(content, JsonFence, 0).value;
      assert content[p..p + 3] == JsonFence[..3];
      ContainsAt(content, Fence, p);
    }
  }
}
