/// String and sequence helpers shared by the model: prefix and suffix tests,
/// substring search, ASCII case folding, JavaScript's `trim`, `join` and
/// `split`, and the order-preserving deduplication `[...new Set(xs)]`.
module Text {
  import opened Wrappers

  predicate StartsWith(s: string, prefix: string) {
    |prefix| <= |s| && s[..|prefix|] == prefix
  }

  predicate EndsWith(s: string, suffix: string) {
    |suffix| <= |s| && s[|s| - |suffix|..] == suffix
  }

  /// `pat` occurs in `s` starting at index `i`.
  predicate OccursAt(s: string, pat: string, i: int) {
    0 <= i && i + |pat| <= |s| && s[i..i + |pat|] == pat
  }

  /// The first index at or after `from` where `pat` occurs (`String.prototype.indexOf`).
  function IndexOf(s: string, pat: string, from: nat): (r: Option<nat>)
    ensures r.Some? ==> from <= r.value && OccursAt(s, pat, r.value)
    decreases |s| - from
  {
    if from + |pat| > |s| then None
    else if s[from..from + |pat|] == pat then Some(from)
    else IndexOf(s, pat, from + 1)
  }

  /// `indexOf` finds the first occurrence, and reports none only when there is none.
  lemma {:induction false} IndexOfFirst(s: string, pat: string, from: nat)
    ensures var r := IndexOf(s, pat, from);
      (r.Some? ==> forall k :: from <= k < r.value ==> !OccursAt(s, pat, k))
      && (r.None? ==> forall k :: from <= k ==> !OccursAt(s, pat, k))
    decreases |s| - from
  {
    if from + |pat| <= |s| && s[from..from + |pat|] != pat {
      IndexOfFirst(s, pat, from + 1);
    }
  }

  /// `String.prototype.includes`.
  predicate Contains(s: string, pat: string) {
    IndexOf(s, pat, 0).Some?
  }

  lemma ContainsIff(s: string, pat: string)
    ensures Contains(s, pat) <==> exists i :: OccursAt(s, pat, i)
  {
    IndexOfFirst(s, pat, 0);
  }

  /// A pattern occurring somewhere is contained.
  lemma ContainsAt(s: string, pat: string, i: nat)
    requires OccursAt(s, pat, i)
    ensures Contains(s, pat)
  {
    ContainsIff(s, pat);
  }

  /// A pattern one of whose characters never appears in `s` does not occur in it.
  lemma NotContainsByChar(s: string, pat: string, k: nat)
    requires k < |pat| && pat[k] !in s
    ensures !Contains(s, pat)
  {
    ContainsIff(s, pat);
  }

  /// A pattern holding two adjacent characters that are never adjacent in `s`
  /// does not occur in it.
  lemma NotContainsByPair(s: string, pat: string, k: nat)
    requires k + 1 < |pat|
    requires forall i :: 0 <= i < |s| - 1 && s[i] == pat[k] ==> s[i + 1] != pat[k + 1]
    ensures !Contains(s, pat)
  {
    ContainsIff(s, pat);
    forall i | OccursAt(s, pat, i) ensures s[i + k] == pat[k] && s[i + k + 1] == pat[k + 1] {
      assert s[i..i + |pat|][k] == s[i + k];
      assert s[i..i + |pat|][k + 1] == s[i + k + 1];
    }
  }

  /// ASCII case folding: the only folding a case-insensitive JavaScript regular
  /// expression without the `u` flag applies when its pattern is plain ASCII.
  function LowerChar(c: char): char {
    if 'A' <= c <= 'Z' then (c as int + 32) as char else c
  }

  function Lower(s: string): (r: string)
    ensures |r| == |s|
    ensures forall i :: 0 <= i < |s| ==> r[i] == LowerChar(s[i])
  {
    seq(|s|, i requires 0 <= i < |s| => LowerChar(s[i]))
  }

  /// The characters JavaScript's `trim` and the regular-expression class `\s`
  /// treat as white space: WhiteSpace and LineTerminator of ECMAScript.
  predicate IsWhitespace(c: char) {
    c == ' ' || c == '\t' || c == '\n' || c == '\r' || c == '\U{000B}' || c == '\U{000C}'
    || c == '\U{00A0}' || c == '\U{1680}' || ('\U{2000}' <= c <= '\U{200A}')
    || c == '\U{2028}' || c == '\U{2029}' || c == '\U{202F}' || c == '\U{205F}'
    || c == '\U{3000}' || c == '\U{FEFF}'
  }

  function TrimStart(s: string): (r: string)
    ensures |r| <= |s| && r == s[|s| - |r|..]
    ensures r == [] || !IsWhitespace(r[0])
    ensures forall i :: 0 <= i < |s| - |r| ==> IsWhitespace(s[i])
  {
    if s != [] && IsWhitespace(s[0]) then TrimStart(s[1..]) else s
  }

  function TrimEnd(s: string): (r: string)
    ensures |r| <= |s| && r == s[..|r|]
    ensures r == [] || !IsWhitespace(r[|r| - 1])
    ensures forall i :: |r| <= i < |s| ==> IsWhitespace(s[i])
  {
    if s != [] && IsWhitespace(s[|s| - 1]) then TrimEnd(s[..|s| - 1]) else s
  }

  /// `String.prototype.trim`: the longest infix without white space at either end.
  function Trim(s: string): (r: string)
    ensures r == [] || (!IsWhitespace(r[0]) && !IsWhitespace(r[|r| - 1]))
    ensures exists i :: OccursAt(s, r, i)
  {
    var t := TrimStart(s);
    var r := TrimEnd(t);
    var i := |s| - |t|;
    SliceOfSuffix(s, i, |r|);
    assert OccursAt(s, r, i);
    r
  }

  /// `trim` gives the empty string exactly for a string of white space only.
  lemma TrimEmptyIff(s: string)
    ensures Trim(s) == "" <==> forall i :: 0 <= i < |s| ==> IsWhitespace(s[i])
  {
    var t := TrimStart(s);
    if t != [] {
      assert t[0] == s[|s| - |t|];
    }
  }

  lemma SliceOfSuffix<T>(s: seq<T>, i: nat, m: nat)
    requires i + m <= |s|
    ensures s[i..][..m] == s[i..i + m]
  {
  }

  /// `Array.prototype.join`.
  function Join(parts: seq<string>, sep: string): string {
    if |parts| == 0 then ""
    else if |parts| == 1 then parts[0]
    else parts[0] + sep + Join(parts[1..], sep)
  }

  /// `String.prototype.split` on a one-character separator.
  function Split(s: string, sep: char): (parts: seq<string>)
    ensures |parts| >= 1
    ensures forall i :: 0 <= i < |parts| ==> sep !in parts[i]
    ensures Join(parts, [sep]) == s
    decreases |s|
  {
    if sep !in s then [s]
    else
      var i := FirstIndex(s, sep);
      var rest := Split(s[i + 1..], sep);
      assert s == s[..i] + [sep] + s[i + 1..];
      [s[..i]] + rest
  }

  /// The index of the first occurrence of `x`.
  function FirstIndex<T(==)>(s: seq<T>, x: T): (i: nat)
    requires x in s
    ensures i < |s| && s[i] == x && x !in s[..i]
  {
    if s[0] == x then 0 else 1 + FirstIndex(s[1..], x)
  }

  /// `xs.some(x => !ys.includes(x))`.
  function SomeNotIn<T(==)>(xs: seq<T>, ys: seq<T>): (b: bool)
    ensures b <==> exists i :: 0 <= i < |xs| && xs[i] !in ys
  {
    if xs == [] then false
    else if xs[0] !in ys then true
    else
      assert forall i :: 0 < i < |xs| ==> xs[i] == xs[1..][i - 1];
      SomeNotIn(xs[1..], ys)
  }

  predicate NoDups<T(==)>(s: seq<T>) {
    forall i, j :: 0 <= i < j < |s| ==> s[i] != s[j]
  }

  /// `[...new Set(s)]`: each distinct element once, at its first occurrence.
  function Dedup<T(==,!new)>(s: seq<T>): (r: seq<T>)
    ensures NoDups(r)
    ensures forall x :: x in r <==> x in s
    ensures |r| <= |s|
  {
    if s == [] then []
    else
      var d := Dedup(s[..|s| - 1]);
      assert forall x :: x in s <==> x in s[..|s| - 1] || x == s[|s| - 1];
      if s[|s| - 1] in d then d else d + [s[|s| - 1]]
  }

  /// `Array.prototype.filter`.
  function Filter<T(!new)>(keep: T -> bool, s: seq<T>): (r: seq<T>)
    ensures |r| <= |s|
    ensures forall x :: x in r <==> x in s && keep(x)
  {
    if s == [] then []
    else
      assert forall x :: x in s <==> x in s[..|s| - 1] || x == s[|s| - 1];
      Filter(keep, s[..|s| - 1]) + (if keep(s[|s| - 1]) then [s[|s| - 1]] else [])
  }

  /// Filtering distributes over concatenation, so it keeps the input order.
  lemma {:induction false} FilterAppend<T(!new)>(keep: T -> bool, a: seq<T>, b: seq<T>)
    ensures Filter(keep, a + b) == Filter(keep, a) + Filter(keep, b)
    decreases |b|
  {
    if b == [] {
      assert a + b == a;
    } else {
      var b', x := b[..|b| - 1], b[|b| - 1];
      var tail := if keep(x) then [x] else [];
      FilterAppend(keep, a, b');
      DropLastOfAppend(a, b);
      assert Filter(keep, a + b) == Filter(keep, a + b') + tail;
      assert Filter(keep, b) == Filter(keep, b') + tail;
      AppendAssoc(Filter(keep, a), Filter(keep, b'), tail);
    }
  }

  /// An element that is filtered out splits the result in two.
  lemma {:induction false} FilterSkip<T(!new)>(keep: T -> bool, s: seq<T>, k: nat)
    requires k < |s| && !keep(s[k])
    ensures Filter(keep, s) == Filter(keep, s[..k]) + Filter(keep, s[k + 1..])
  {
    var a, x, b := s[..k], s[k], s[k + 1..];
    FilterDropsLast(keep, a, x);
    SplitAt(s, k);
    FilterAppend(keep, a + [x], b);
  }

  /// A filter that keeps every element returns its input.
  lemma {:induction false} FilterKeepsAll<T(!new)>(keep: T -> bool, s: seq<T>)
    requires forall x :: x in s ==> keep(x)
    ensures Filter(keep, s) == s
    decreases |s|
  {
    if s != [] {
      var front, last := s[..|s| - 1], s[|s| - 1];
      assert forall x :: x in front ==> x in s;
      FilterKeepsAll(keep, front);
      assert last in s;
      assert s == front + [last];
    }
  }

  lemma FilterDropsLast<T(!new)>(keep: T -> bool, a: seq<T>, x: T)
    requires !keep(x)
    ensures Filter(keep, a + [x]) == Filter(keep, a)
  {
    var ax := a + [x];
    assert ax[..|ax| - 1] == a && ax[|ax| - 1] == x;
    assert Filter(keep, ax) == Filter(keep, a) + [];
  }

  lemma {:induction false} SplitAt<T>(s: seq<T>, k: nat)
    requires k < |s|
    ensures s == (s[..k] + [s[k]]) + s[k + 1..]
  {
  }

  lemma DropLastOfAppend<T>(xs: seq<T>, ys: seq<T>)
    requires ys != []
    ensures (xs + ys)[..|xs + ys| - 1] == xs + ys[..|ys| - 1]
    ensures (xs + ys)[|xs + ys| - 1] == ys[|ys| - 1]
  {
  }

  lemma TailOfAppend<T>(xs: seq<T>, ys: seq<T>)
    requires xs != []
    ensures (xs + ys)[0] == xs[0] && (xs + ys)[1..] == xs[1..] + ys
  {
  }

  lemma AppendAssoc<T>(a: seq<T>, b: seq<T>, c: seq<T>)
    ensures (a + b) + c == a + (b + c)
  {
  }

  lemma FirstIndexOfPrefix<T>(p: seq<T>, t: seq<T>, x: T)
    requires x in p
    ensures FirstIndex(p + t, x) == FirstIndex(p, x)
  {
    var m, k := FirstIndex(p, x), FirstIndex(p + t, x);
    assert (p + t)[m] == x;
  }

  /// Dedup lists its elements in the order of their first occurrence in the input.
  lemma {:induction false} DedupKeepsFirstOccurrenceOrder<T(!new)>(s: seq<T>, i: nat, j: nat)
    requires i < j < |Dedup(s)|
    ensures FirstIndex(s, Dedup(s)[i]) < FirstIndex(s, Dedup(s)[j])
  {
    var n := |s|;
    var p, last := s[..n - 1], s[n - 1];
    assert s == p + [last];
    var d := Dedup(p);
    if last in d {
      DedupKeepsFirstOccurrenceOrder(p, i, j);
      FirstIndexOfPrefix(p, [last], d[i]);
      FirstIndexOfPrefix(p, [last], d[j]);
    } else if j < |d| {
      DedupKeepsFirstOccurrenceOrder(p, i, j);
      FirstIndexOfPrefix(p, [last], d[i]);
      FirstIndexOfPrefix(p, [last], d[j]);
    } else {
      FirstIndexOfPrefix(p, [last], d[i]);
      assert last !in p;
    }
  }

  /// A list without duplicates is left as it is.
  lemma {:induction false} DedupOfNoDups<T(!new)>(s: seq<T>)
    requires NoDups(s)
    ensures Dedup(s) == s
  {
    if s != [] {
      var p := s[..|s| - 1];
      DedupOfNoDups(p);
      assert s[|s| - 1] !in p;
    }
  }

  /// Appending elements that are already present changes nothing.
  lemma {:induction false} DedupAppendPresent<T(!new)>(s: seq<T>, t: seq<T>)
    requires forall x :: x in t ==> x in s
    ensures Dedup(s + t) == Dedup(s)
  {
    if t == [] {
      assert s + t == s;
    } else {
      var t' := t[..|t| - 1];
      DedupAppendPresent(s, t');
      assert (s + t)[..|s + t| - 1] == s + t';
      assert (s + t)[|s + t| - 1] == t[|t| - 1];
    }
  }

  /// Deduplicating twice is deduplicating once.
  lemma DedupIdempotent<T(!new)>(s: seq<T>)
    ensures Dedup(Dedup(s)) == Dedup(s)
  {
    DedupOfNoDups(Dedup(s));
  }
}
