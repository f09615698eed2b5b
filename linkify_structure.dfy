/** Which children the pass accepts, which child it throws on, and where the
    elements that are not highlight spans end up in its output. */
module LinkifyStructure {
  import opened Strings
  import opened Identifiers
  import opened Markup
  import opened Linkify
  import LinkifyText

  /** A child the loop accepts: a string, a highlight span, or another
      element whose own children are acceptable. */
  predicate ValidChild(n: Node)
    decreases Size(n), 0
  {
    n.Str? || (n.Elem? && (IsHighlightSpan(n) || ValidKids(n.children)))
  }

  predicate ValidList(ns: seq<Node>)
    decreases SizeList(ns), 1
  {
    ns == [] || (ValidChild(ns[0]) && ValidList(ns[1..]))
  }

  /** An acceptable `children` value: an array of acceptable children, a
      falsy value, or one acceptable child. */
  predicate ValidKids(c: Node)
    decreases Size(c), 2
  {
    if c.Arr? then ValidList(c.items) else IsFalsy(c) || ValidChild(c)
  }

  /** What `Invalid code child` is thrown for: neither a string nor an element. */
  predicate BadChild(n: Node)
  {
    !n.Str? && !n.Elem?
  }

  /** `e` is `n` itself, or a child the loop meets inside `n` when `n` is an
      element whose children are processed. */
  predicate MetAt(e: Node, n: Node)
    decreases Size(n), 0
  {
    e == n || (n.Elem? && !IsHighlightSpan(n) && MetIn(e, n.children))
  }

  predicate MetInList(e: Node, ns: seq<Node>)
    decreases SizeList(ns), 1
  {
    ns != [] && (MetAt(e, ns[0]) || MetInList(e, ns[1..]))
  }

  /** `e` is a child the loop meets when `processChildrenArray` is given `c`:
      an item of the array, or `c` itself when it is neither an array nor
      falsy, or a child met inside one of those. */
  predicate MetIn(e: Node, c: Node)
    decreases Size(c), 2
  {
    if c.Arr? then MetInList(e, c.items) else !IsFalsy(c) && MetAt(e, c)
  }

  lemma {:induction false} StepValid(ctx: Ctx, f: Frame, line: nat, child: Node)
    ensures Step(ctx, f, line, child).Ok? <==> ValidChild(child)
    ensures Step(ctx, f, line, child).Err? ==>
      BadChild(Step(ctx, f, line, child).child) && MetAt(Step(ctx, f, line, child).child, child)
    decreases Size(child), 0
  {
    if child.Elem? && !IsHighlightSpan(child) {
      ProcessValid(ctx, child.children, line);
    }
  }

  lemma {:induction false} FoldValid(ctx: Ctx, f: Frame, line: nat, nodes: seq<Node>)
    ensures Fold(ctx, f, line, nodes).Ok? <==> ValidList(nodes)
    ensures Fold(ctx, f, line, nodes).Err? ==>
      BadChild(Fold(ctx, f, line, nodes).child) && MetInList(Fold(ctx, f, line, nodes).child, nodes)
    decreases SizeList(nodes), 1
  {
    if nodes != [] {
      StepValid(ctx, f, line, nodes[0]);
      match Step(ctx, f, line, nodes[0])
      case Err(e) =>
      case Ok((f1, line1)) =>
        FoldValid(ctx, f1, line1, nodes[1..]);
    }
  }

  /** The pass succeeds exactly on acceptable children; when it throws, the
      child it names is neither a string nor an element, and it is a child
      the loop met in the input. */
  lemma {:induction false} ProcessValid(ctx: Ctx, children: Node, line: nat)
    ensures Process(ctx, children, line).Ok? <==> ValidKids(children)
    ensures Process(ctx, children, line).Err? ==>
      BadChild(Process(ctx, children, line).child) && MetIn(Process(ctx, children, line).child, children)
    decreases Size(children), 3
  {
    if children.Arr? {
      FoldValid(ctx, Fresh, line, children.items);
    } else if !IsFalsy(children) {
      SizeListOne(children);
      FoldValid(ctx, Fresh, line, [children]);
      assert [children][1..] == [];
    }
  }

  /** An element that is not a highlight span, as it is copied into the
      output: its type, its props and its processed children. */
  datatype Copy = Copy(tag: string, props: Props, kids: Kids)

  /** An array of children seen one level deep: each copied element with the
      text read since the previous one (or since the start), then the text
      after the last one. */
  datatype Layout = Layout(copies: seq<(string, Copy)>, tail: string)

  const NoLayout: Layout := Layout([], "")

  function AddText(l: Layout, s: string): Layout
  {
    l.(tail := l.tail + s)
  }

  function AddCopy(l: Layout, c: Copy): Layout
  {
    Layout(l.copies + [(l.tail, c)], "")
  }

  /** What one output child adds to the layout: a piece its text, a copied
      element a copy. */
  function AddOut(l: Layout, o: Out): Layout
  {
    match o
    case Piece(_, _, _, _, c) => AddText(l, ContentText(c))
    case Clone(_, tag, props, k) => AddCopy(l, Copy(tag, props, k))
  }

  /** The layout of the output: the text of its pieces and its copied elements. */
  function OutLayout(outs: seq<Out>): Layout
    decreases |outs|
  {
    if outs == [] then NoLayout else AddOut(OutLayout(outs[..|outs| - 1]), outs[|outs| - 1])
  }

  /** What one acceptable input child adds to the layout when the shared line
      is `line` as the loop reaches it: its text, or, for an element that is
      not a highlight span, a copy holding its children processed from `line`. */
  function InChild(ctx: Ctx, l: Layout, line: nat, n: Node): Layout
    requires ValidChild(n)
  {
    if n.Elem? && !IsHighlightSpan(n) then
      ProcessValid(ctx, n.children, line);
      AddCopy(l, Copy(n.tag, n.props, Process(ctx, n.children, line).value.0))
    else AddText(l, TextIn(n))
  }

  /** The layout of acceptable input children read from line `line` on: each
      child moves the line on by the line feeds in its text. */
  function InLayout(ctx: Ctx, l: Layout, line: nat, nodes: seq<Node>): Layout
    requires ValidList(nodes)
    decreases |nodes|
  {
    if nodes == [] then l
    else InLayout(ctx, InChild(ctx, l, line, nodes[0]), line + Newlines(TextIn(nodes[0])), nodes[1..])
  }

  /** The array `processChildrenArray` loops over, for a `children` value it
      does not give back as it is. */
  function Items(c: Node): (ns: seq<Node>)
    ensures ValidKids(c) && (c.Arr? || !IsFalsy(c)) ==> ValidList(ns)
  {
    if c.Arr? then c.items else assert [c][1..] == []; [c]
  }

  /** The frame's output followed by its open identifier. */
  function Laid(f: Frame): Layout
  {
    AddText(OutLayout(f.out), f.current)
  }

  lemma AddTextTwice(l: Layout, a: string, b: string)
    ensures AddText(AddText(l, a), b) == AddText(l, a + b)
  {
    Assoc(l.tail, a, b);
  }

  lemma AddNothing(l: Layout)
    ensures AddText(l, "") == l
  {
    assert l.tail + "" == l.tail;
  }

  lemma OutSnoc(outs: seq<Out>, o: Out)
    ensures OutLayout(outs + [o]) == AddOut(OutLayout(outs), o)
  {
    assert (outs + [o])[..|outs|] == outs;
  }

  /** `finishCurrentIdentifier` moves the open identifier into the output. */
  lemma FinishLayout(ctx: Ctx, f: Frame, line: nat)
    ensures FinishCurrentIdentifier(ctx, f, line).current == ""
    ensures OutLayout(FinishCurrentIdentifier(ctx, f, line).out) == Laid(f)
  {
    if f.current != "" {
      OutSnoc(f.out, Piece(|f.out|, f.lastSpan, line, IsBlurred(ctx.focusLines, line), IdentContent(ctx, f.current)));
    } else {
      AddNothing(OutLayout(f.out));
    }
  }

  /** The lines of a gap, pushed from part `i` on, add the rest of the gap's
      text and leave the open identifier as it was. */
  lemma {:induction false} LinePartsLayout(ctx: Ctx, l: Layout, f: Frame, line: nat, parts: seq<string>, i: nat)
    requires 1 <= |parts| && i <= |parts|
    requires OutLayout(f.out) == AddText(l, if i == 0 then "" else JoinLines(parts[..i]))
    ensures PushLineParts(ctx, f, line, parts, i).0.current == f.current
    ensures OutLayout(PushLineParts(ctx, f, line, parts, i).0.out) == AddText(l, JoinLines(parts))
    ensures PushLineParts(ctx, f, line, parts, i).1 == line + |parts| - (if i == 0 then 1 else i)
    decreases |parts| - i
  {
    if i == |parts| {
      assert parts[..i] == parts;
    } else {
      var line' := if i > 0 then line + 1 else line;
      var p := Piece(|f.out|, f.lastSpan, line', IsBlurred(ctx.focusLines, line'), Plain(LinePart(parts, i)));
      var f' := PushInCurrentSpan(ctx, f, line', Plain(LinePart(parts, i)));
      assert f'.out == f.out + [p] && f'.current == f.current;
      LinePartLaid(l, f.out, p, parts, i);
      LinePartsLayout(ctx, l, f', line', parts, i + 1);
      var r := PushLineParts(ctx, f', line', parts, i + 1);
      assert r == PushLineParts(ctx, f, line, parts, i);
    }
  }

  /** Pushing the `i`-th line part adds it after the parts already read. */
  lemma LinePartLaid(l: Layout, outs: seq<Out>, p: Out, parts: seq<string>, i: nat)
    requires i < |parts| && p.Piece? && p.content == Plain(LinePart(parts, i))
    requires OutLayout(outs) == AddText(l, if i == 0 then "" else JoinLines(parts[..i]))
    ensures OutLayout(outs + [p]) == AddText(l, JoinLines(parts[..i + 1]))
  {
    OutSnoc(outs, p);
    LinkifyText.JoinStep(l.tail, parts, i);
    AddTextTwice(l, if i == 0 then "" else JoinLines(parts[..i]), LinePart(parts, i));
  }

  /** `pushToken` adds the token's text after the frame's text, and moves the
      line on by the line feeds in it. */
  lemma PushTokenLayout(ctx: Ctx, f: Frame, line: nat, tok: string)
    requires IsIdentifier(tok) || IsGap(tok)
    ensures Laid(PushToken(ctx, f, line, tok).0) == AddText(Laid(f), tok)
    ensures PushToken(ctx, f, line, tok).1 == line + Newlines(tok)
  {
    if IsIdentifier(tok) {
      LinkifyText.IdentifierHasNoNewline(tok);
      AddTextTwice(OutLayout(f.out), f.current, tok);
    } else {
      var f0 := FinishCurrentIdentifier(ctx, f, line);
      FinishLayout(ctx, f, line);
      var parts := SplitLines(tok);
      AddNothing(Laid(f));
      LinePartsLayout(ctx, Laid(f), f0, line, parts, 0);
      AddNothing(AddText(Laid(f), tok));
    }
  }

  lemma {:induction false} PushTokensLayout(ctx: Ctx, f: Frame, line: nat, toks: seq<string>)
    requires forall i :: 0 <= i < |toks| ==> IsIdentifier(toks[i]) || IsGap(toks[i])
    ensures Laid(PushTokens(ctx, f, line, toks).0) == AddText(Laid(f), Concat(toks))
    ensures PushTokens(ctx, f, line, toks).1 == line + Newlines(Concat(toks))
    decreases |toks|
  {
    if toks == [] {
      AddNothing(Laid(f));
    } else {
      PushTokenLayout(ctx, f, line, toks[0]);
      var (f1, line1) := PushToken(ctx, f, line, toks[0]);
      PushTokensLayout(ctx, f1, line1, toks[1..]);
      AddTextTwice(Laid(f), toks[0], Concat(toks[1..]));
      NewlinesAppend(toks[0], Concat(toks[1..]));
      var r := PushTokens(ctx, f1, line1, toks[1..]);
      assert r == PushTokens(ctx, f, line, toks);
    }
  }

  /** The tokens of a string, pushed one by one. */
  lemma PushTextLayout(ctx: Ctx, f: Frame, line: nat, s: string)
    ensures Laid(PushTokens(ctx, f, line, Tokens(s)).0) == AddText(Laid(f), s)
    ensures PushTokens(ctx, f, line, Tokens(s)).1 == line + Newlines(s)
  {
    TokensAreSplit(s);
    PushTokensLayout(ctx, f, line, Tokens(s));
  }

  /** One pass of the loop over the children adds what `InChild` says and
      moves the line on by the child's line feeds. */
  lemma StepLayout(ctx: Ctx, f: Frame, line: nat, child: Node)
    requires ValidChild(child)
    ensures Step(ctx, f, line, child).Ok?
    ensures Laid(Step(ctx, f, line, child).value.0) == InChild(ctx, Laid(f), line, child)
    ensures Step(ctx, f, line, child).value.1 == line + Newlines(TextIn(child))
  {
    StepValid(ctx, f, line, child);
    var r := Step(ctx, f, line, child).value;
    match child
    case Str(s) =>
      PushTextLayout(ctx, f, line, s);
      assert r == PushTokens(ctx, f, line, Tokens(s));
    case Elem(tag, props, kids) =>
      if IsHighlightSpan(child) {
        var f0 := StartSpan(f, props);
        PushTextLayout(ctx, f0, line, kids.s);
        var (f1, line1) := PushTokens(ctx, f0, line, Tokens(kids.s));
        assert r == (CloseSpan(f1), line1);
      } else {
        var f1 := FinishCurrentIdentifier(ctx, f, line);
        FinishLayout(ctx, f, line);
        ProcessValid(ctx, kids, line);
        LinkifyText.ProcessIsFaithful(ctx, kids, line);
        var (k, line1) := Process(ctx, kids, line).value;
        var c := Clone(|f1.out|, tag, props, k);
        OutSnoc(f1.out, c);
        AddNothing(OutLayout(f1.out + [c]));
        assert r == (f1.(out := f1.out + [c]), line1);
      }
  }

  lemma {:induction false} FoldLayout(ctx: Ctx, f: Frame, line: nat, nodes: seq<Node>)
    requires ValidList(nodes)
    ensures Fold(ctx, f, line, nodes).Ok?
    ensures Laid(Fold(ctx, f, line, nodes).value.0) == InLayout(ctx, Laid(f), line, nodes)
    decreases |nodes|
  {
    if nodes != [] {
      StepLayout(ctx, f, line, nodes[0]);
      var (f1, line1) := Step(ctx, f, line, nodes[0]).value;
      FoldLayout(ctx, f1, line1, nodes[1..]);
      var r := Fold(ctx, f1, line1, nodes[1..]);
      assert r == Fold(ctx, f, line, nodes);
    }
  }

  /** The loop over an array of acceptable children: the output holds a copy
      of every element that is not a highlight span, in input order, with its
      type, its props and its own children processed from the line the loop
      had reached; and the text between the copies is the input's text
      between those elements. */
  lemma ProcessListLayout(ctx: Ctx, nodes: seq<Node>, line: nat)
    requires ValidList(nodes)
    ensures ProcessList(ctx, nodes, line).Ok?
    ensures var k := ProcessList(ctx, nodes, line).value.0;
      k.New? && OutLayout(k.items) == InLayout(ctx, NoLayout, line, nodes)
  {
    FoldLayout(ctx, Fresh, line, nodes);
    var (f, line1) := Fold(ctx, Fresh, line, nodes).value;
    FinishLayout(ctx, f, line1);
    AddNothing(NoLayout);
    assert Laid(Fresh) == NoLayout;
  }

  /** `processChildrenArray` on acceptable children: a falsy value that is
      not an array comes back as it is, and anything else is laid out as
      `ProcessListLayout` says. */
  lemma ProcessLayout(ctx: Ctx, children: Node, line: nat)
    requires ValidKids(children)
    ensures Process(ctx, children, line).Ok?
    ensures !children.Arr? && IsFalsy(children) ==> Process(ctx, children, line).value.0 == Same(children)
    ensures children.Arr? || !IsFalsy(children) ==>
      var k := Process(ctx, children, line).value.0;
      k.New? && OutLayout(k.items) == InLayout(ctx, NoLayout, line, Items(children))
  {
    if children.Arr? || !IsFalsy(children) {
      ProcessListLayout(ctx, Items(children), line);
    }
  }
}
