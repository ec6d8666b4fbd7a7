/// src/services/flatten-thml.ts: `flattenHTML` turns the children of a page's
/// body into indented text lines, one header line per element and one line per
/// non-blank text node. The DOM that cheerio builds is taken as given: a tree
/// of `Node` values.
module Flatten {
  import opened Text

  /// The element types of the DOM: ordinary tags and the two raw-text elements.
  datatype ElementKind = Tag | Script | Style

  /// A DOM node. `Other` stands for comments, directives and CDATA sections,
  /// which have no tag name.
  datatype Node =
    | Element(kind: ElementKind, name: string, attrs: seq<(string, string)>, children: seq<Node>)
    | TextNode(data: string)
    | Other

  /// `"  ".repeat(indent)`.
  function Spaces(indent: nat): (r: string)
    ensures |r| == 2 * indent
    ensures forall i :: 0 <= i < |r| ==> r[i] == ' '
  {
    if indent == 0 then "" else "  " + Spaces(indent - 1)
  }

  /// The attributes as `key="val"` pairs joined by single spaces (lines 11-13).
  function AttrText(attrs: seq<(string, string)>): string {
    Join(seq(|attrs|, i requires 0 <= i < |attrs| => attrs[i].0 + "=\"" + attrs[i].1 + "\""), " ")
  }

  /// The line that opens an element (line 15).
  function Header(name: string, attrs: seq<(string, string)>, indent: nat): string {
    var a := AttrText(attrs);
    Spaces(indent) + "[" + name + (if a != "" then " " + a else "") + "]"
  }

  /// The element's children are exactly one text node (line 20).
  predicate HasOnlyText(n: Node)
    requires n.Element?
  {
    |n.children| == 1 && n.children[0].TextNode?
  }

  /// The lines `processElement(n, indent)` appends: nothing for a node without
  /// a tag name; one line for an element whose only child is text; otherwise
  /// the header followed by the lines of the children.
  function Lines(n: Node, indent: nat): seq<string>
    decreases n, 1
  {
    if !n.Element? || n.name == "" then []
    else if HasOnlyText(n) then [Header(n.name, n.attrs, indent) + ": " + Trim(n.children[0].data)]
    else [Header(n.name, n.attrs, indent)] + ChildLines(n, 0, indent + 1)
  }

  /// The lines of the children of `n` from the `i`-th on (lines 27-36): a text
  /// child gives its trimmed text when that is not empty, a `tag` child its own
  /// lines, and scripts, styles and other nodes nothing.
  function ChildLines(n: Node, i: nat, indent: nat): seq<string>
    requires n.Element? && i <= |n.children|
    decreases n, 0, |n.children| - i
  {
    if i == |n.children| then []
    else ChildLine(n.children[i], indent) + ChildLines(n, i + 1, indent)
  }

  /// The lines one child contributes inside the loop of lines 27-36.
  function ChildLine(c: Node, indent: nat): seq<string>
    decreases c, 2
  {
    if c.TextNode? then (if Trim(c.data) != "" then [Spaces(indent) + Trim(c.data)] else [])
    else if c.Element? && c.kind == Tag then Lines(c, indent)
    else []
  }

  /// The lines of the body's children, in order, each at `indent` (lines 40-42).
  function BodyLines(nodes: seq<Node>, indent: nat): seq<string> {
    if nodes == [] then []
    else BodyLines(nodes[..|nodes| - 1], indent) + Lines(nodes[|nodes| - 1], indent)
  }

  /// The `output` array shared by the nested `processElement` calls.
  class Flattener {
    var output: seq<string>

    constructor()
      ensures output == []
    {
      output := [];
    }

    /// Lines 7-38.
    method ProcessElement(el: Node, indent: nat)
      modifies this
      ensures output == old(output) + Lines(el, indent)
      decreases el, 1
    {
      if !el.Element? || el.name == "" {
        return;
      }
      var attrs := AttrText(el.attrs);
      var line := Spaces(indent) + "[" + el.name + (if attrs != "" then " " + attrs else "") + "]";
      assert line == Header(el.name, el.attrs, indent);
      var children := el.children;
      var hasOnlyText := |children| == 1 && children[0].TextNode?;
      if hasOnlyText {
        var text := Trim(children[0].data);
        line := line + ": " + text;
        output := output + [line];
      } else {
        output := output + [line];
        ProcessChildren(el, indent + 1);
      }
    }

    /// The loop of lines 27-36 over the children of `el`, one level deeper.
    method ProcessChildren(el: Node, indent: nat)
      requires el.Element?
      modifies this
      ensures output == old(output) + ChildLines(el, 0, indent)
      decreases el, 0
    {
      var children := el.children;
      var i := 0;
      while i < |children|
        invariant 0 <= i <= |children|
        invariant output + ChildLines(el, i, indent) == old(output) + ChildLines(el, 0, indent)
      {
        var child := children[i];
        ghost var before := output;
        if child.TextNode? {
          var trimmed := Trim(child.data);
          if trimmed != "" {
            output := output + [Spaces(indent) + trimmed];
          }
        } else if child.Element? && child.kind == Tag {
          ProcessElement(child, indent);
        }
        assert output == before + ChildLine(child, indent);
        ChildStep(el, i, indent, before, output, old(output) + ChildLines(el, 0, indent));
        i := i + 1;
      }
    }
  }

  /// One turn of the loop over the children keeps the pending lines in step.
  lemma ChildStep(n: Node, i: nat, indent: nat, before: seq<string>, after: seq<string>, target: seq<string>)
    requires n.Element? && i < |n.children|
    requires before + ChildLines(n, i, indent) == target
    requires after == before + ChildLine(n.children[i], indent)
    ensures after + ChildLines(n, i + 1, indent) == target
  {
    var here, rest := ChildLine(n.children[i], indent), ChildLines(n, i + 1, indent);
    assert ChildLines(n, i, indent) == here + rest;
    AppendAssoc(before, here, rest);
  }

  /// `flattenHTML` on the already parsed body children (lines 3-44).
  method FlattenHTML(body: seq<Node>, indentLevel: nat) returns (r: string)
    ensures r == Join(BodyLines(body, indentLevel), "\n")
  {
    var f := new Flattener();
    var i := 0;
    while i < |body|
      invariant 0 <= i <= |body|
      invariant f.output == BodyLines(body[..i], indentLevel)
    {
      assert body[..i + 1][..i] == body[..i];
      f.ProcessElement(body[i], indentLevel);
      i := i + 1;
    }
    assert body[..i] == body;
    r := Join(f.output, "\n");
  }

  // ---------------------------------------------------------------------
  // Properties of the serialisation.

  /// A node emits lines iff it is an element with a tag name, and then its
  /// first line is its header, completed by the text of a text-only element.
  lemma FirstLineIsHeader(n: Node, indent: nat)
    ensures Lines(n, indent) != [] <==> n.Element? && n.name != ""
    ensures n.Element? && n.name != "" ==>
      Lines(n, indent)[0] ==
        Header(n.name, n.attrs, indent) + (if HasOnlyText(n) then ": " + Trim(n.children[0].data) else "")
  {
  }

  /// An element whose only child is text emits exactly one line.
  lemma TextOnlyIsOneLine(n: Node, indent: nat)
    requires n.Element? && n.name != "" && |n.children| == 1 && n.children[0].TextNode?
    ensures Lines(n, indent) == [Header(n.name, n.attrs, indent) + ": " + Trim(n.children[0].data)]
  {
  }

  /// The header is the tag between brackets after `2 * indent` spaces, with
  /// the attribute text after one space when there are attributes.
  lemma HeaderShape(name: string, attrs: seq<(string, string)>, indent: nat)
    ensures var h := Header(name, attrs, indent);
      StartsWith(h, Spaces(indent) + "[" + name) && h[|h| - 1] == ']'
    ensures attrs == [] ==> Header(name, attrs, indent) == Spaces(indent) + "[" + name + "]"
    ensures attrs != [] ==> Header(name, attrs, indent) == Spaces(indent) + "[" + name + " " + AttrText(attrs) + "]"
  {
    var h := Header(name, attrs, indent);
    var p := Spaces(indent) + "[" + name;
    assert h[..|p|] == p;
    if attrs != [] {
      var parts := seq(|attrs|, i requires 0 <= i < |attrs| => attrs[i].0 + "=\"" + attrs[i].1 + "\"");
      JoinNonEmpty(parts, " ");
    }
  }

  /// A join of pieces whose first one is not empty is not empty.
  lemma JoinNonEmpty(parts: seq<string>, sep: string)
    requires parts != [] && parts[0] != ""
    ensures Join(parts, sep) != ""
  {
    assert Join(parts, sep)[..|parts[0]|] == parts[0];
  }

  /// Every line of `ls` starts with the white space of `indent` levels.
  predicate Indented(ls: seq<string>, indent: nat) {
    forall k :: 0 <= k < |ls| ==> StartsWith(ls[k], Spaces(indent))
  }

  /// The header of a node comes before every line of its descendants, and each
  /// of those is indented one level deeper (pre-order).
  lemma {:induction false} LinesNested(n: Node, indent: nat)
    ensures Indented(Lines(n, indent), indent)
    ensures Lines(n, indent) != [] ==> Indented(Lines(n, indent)[1..], indent + 1)
    decreases n, 1
  {
    if n.Element? && n.name != "" {
      if !HasOnlyText(n) {
        ChildLinesIndented(n, 0, indent + 1);
        NestedWithChildren(n, indent);
      } else {
        NestedTextOnly(n, indent);
      }
    }
  }

  lemma NestedWithChildren(n: Node, indent: nat)
    requires n.Element? && n.name != "" && !HasOnlyText(n)
    requires Indented(ChildLines(n, 0, indent + 1), indent + 1)
    ensures Indented(Lines(n, indent), indent) && Indented(Lines(n, indent)[1..], indent + 1)
  {
    var h := Header(n.name, n.attrs, indent);
    var cl := ChildLines(n, 0, indent + 1);
    assert Lines(n, indent) == [h] + cl;
    HeaderIndented(n.name, n.attrs, indent);
    HeaderThenIndented(h, cl, indent);
  }

  lemma NestedTextOnly(n: Node, indent: nat)
    requires n.Element? && n.name != "" && HasOnlyText(n)
    ensures Indented(Lines(n, indent), indent) && Indented(Lines(n, indent)[1..], indent + 1)
  {
    var h := Header(n.name, n.attrs, indent);
    var l := h + ": " + Trim(n.children[0].data);
    assert Lines(n, indent) == [l];
    HeaderIndented(n.name, n.attrs, indent);
    KeepsIndent(h, ": " + Trim(n.children[0].data), Spaces(indent));
    SingleIndented(l, indent);
  }

  lemma SingleIndented(l: string, indent: nat)
    requires StartsWith(l, Spaces(indent))
    ensures Indented([l], indent) && Indented([l][1..], indent + 1)
  {
  }

  lemma HeaderIndented(name: string, attrs: seq<(string, string)>, indent: nat)
    ensures StartsWith(Header(name, attrs, indent), Spaces(indent))
  {
    var h := Header(name, attrs, indent);
    assert h[..|Spaces(indent)|] == Spaces(indent);
  }

  /// A line that starts with the indentation keeps it when text is added.
  lemma KeepsIndent(line: string, text: string, p: string)
    requires StartsWith(line, p)
    ensures StartsWith(line + text, p)
  {
    assert (line + text)[..|p|] == line[..|p|];
  }

  lemma HeaderThenIndented(h: string, cl: seq<string>, indent: nat)
    requires StartsWith(h, Spaces(indent)) && Indented(cl, indent + 1)
    ensures Indented([h] + cl, indent) && ([h] + cl)[1..] == cl
  {
    IndentedDeeper(cl, indent);
    IndentedAppend([h], cl, indent);
  }

  /// Every line of the children of `n` from the `i`-th on is indented at least
  /// `indent` levels.
  lemma {:induction false} ChildLinesIndented(n: Node, i: nat, indent: nat)
    requires n.Element? && i <= |n.children|
    ensures Indented(ChildLines(n, i, indent), indent)
    decreases n, 0, |n.children| - i
  {
    if i < |n.children| {
      var c := n.children[i];
      ChildLinesIndented(n, i + 1, indent);
      var here, rest := ChildLine(c, indent), ChildLines(n, i + 1, indent);
      assert ChildLines(n, i, indent) == here + rest;
      if c.TextNode? {
        var l := Spaces(indent) + Trim(c.data);
        assert l[..|Spaces(indent)|] == Spaces(indent);
      } else if c.Element? && c.kind == Tag {
        LinesNested(c, indent);
        assert here == Lines(c, indent);
      }
      IndentedAppend(here, rest, indent);
    }
  }

  lemma IndentedAppend(a: seq<string>, b: seq<string>, indent: nat)
    requires Indented(a, indent) && Indented(b, indent)
    ensures Indented(a + b, indent)
  {
    forall k | 0 <= k < |a + b| ensures StartsWith((a + b)[k], Spaces(indent)) {
      if k < |a| {
        assert (a + b)[k] == a[k];
      } else {
        assert (a + b)[k] == b[k - |a|];
      }
    }
  }

  lemma IndentedDeeper(ls: seq<string>, indent: nat)
    requires Indented(ls, indent + 1)
    ensures Indented(ls, indent)
  {
    SpacesPrefix(indent);
  }

  /// One more level of indentation starts with the current one.
  lemma SpacesPrefix(indent: nat)
    ensures forall l :: StartsWith(l, Spaces(indent + 1)) ==> StartsWith(l, Spaces(indent))
  {
    forall l | StartsWith(l, Spaces(indent + 1)) ensures StartsWith(l, Spaces(indent)) {
      assert l[..2 * indent] == l[..2 * indent + 2][..2 * indent];
    }
  }

  /// Children that are scripts, styles or other non-text, non-tag nodes add
  /// no line: such an element emits its header alone.
  lemma OnlySkippedChildren(n: Node, indent: nat)
    requires n.Element? && n.name != "" && !HasOnlyText(n)
    requires forall k :: 0 <= k < |n.children| ==> !n.children[k].TextNode? && !(n.children[k].Element? && n.children[k].kind == Tag)
    ensures Lines(n, indent) == [Header(n.name, n.attrs, indent)]
  {
    SkippedChildLines(n, 0, indent + 1);
  }

  lemma {:induction false} SkippedChildLines(n: Node, i: nat, indent: nat)
    requires n.Element? && i <= |n.children|
    requires forall k :: i <= k < |n.children| ==> !n.children[k].TextNode? && !(n.children[k].Element? && n.children[k].kind == Tag)
    ensures ChildLines(n, i, indent) == []
    decreases |n.children| - i
  {
    if i < |n.children| {
      SkippedChildLines(n, i + 1, indent);
    }
  }

  /// Blank text children add no line: white space between tags is dropped.
  lemma BlankTextSkipped(n: Node, i: nat, indent: nat)
    requires n.Element? && i < |n.children| && n.children[i].TextNode? && Trim(n.children[i].data) == ""
    ensures ChildLines(n, i, indent) == ChildLines(n, i + 1, indent)
  {
  }

  /// The body's lines are its children's lines in document order.
  lemma {:induction false} BodyLinesAppend(xs: seq<Node>, ys: seq<Node>, indent: nat)
    ensures BodyLines(xs + ys, indent) == BodyLines(xs, indent) + BodyLines(ys, indent)
    decreases |ys|
  {
    if ys == [] {
      assert xs + ys == xs;
    } else {
      BodyLinesAppend(xs, ys[..|ys| - 1], indent);
      BodyLinesAppendStep(xs, ys, indent);
    }
  }

  lemma BodyLinesUnfold(zs: seq<Node>, indent: nat)
    requires zs != []
    ensures BodyLines(zs, indent) == BodyLines(zs[..|zs| - 1], indent) + Lines(zs[|zs| - 1], indent)
  {
  }

  lemma BodyLinesAppendStep(xs: seq<Node>, ys: seq<Node>, indent: nat)
    requires ys != []
    requires BodyLines(xs + ys[..|ys| - 1], indent) == BodyLines(xs, indent) + BodyLines(ys[..|ys| - 1], indent)
    ensures BodyLines(xs + ys, indent) == BodyLines(xs, indent) + BodyLines(ys, indent)
  {
    var front, y := ys[..|ys| - 1], ys[|ys| - 1];
    var zs := xs + ys;
    DropLastOfAppend(xs, ys);
    calc {
      BodyLines(zs, indent);
      { BodyLinesUnfold(zs, indent); }
      BodyLines(xs + front, indent) + Lines(y, indent);
      (BodyLines(xs, indent) + BodyLines(front, indent)) + Lines(y, indent);
      { AppendAssoc(BodyLines(xs, indent), BodyLines(front, indent), Lines(y, indent)); }
      BodyLines(xs, indent) + (BodyLines(front, indent) + Lines(y, indent));
      { BodyLinesUnfold(ys, indent); }
      BodyLines(xs, indent) + BodyLines(ys, indent);
    }
  }
}
