/** How the pass cuts the text into pieces. Read as one stream of tokens (the
    tokens of every string and highlight span, with a break wherever an
    identifier must be finished: before another element and at the end of
    every array), the rendered pieces are exactly: one piece for every run of
    identifier tokens not interrupted by a gap or a break, holding the merged
    name; and one piece per line of every gap, in the highlight span the gap
    came from, or in no span when it came from a plain string. */
module LinkifyShape {
  import opened Strings
  import opened Identifiers
  import opened Markup
  import opened Linkify
  import LinkifyText

  /** A token of the stream: an identifier, a gap with the props of the
      highlight span holding it, or a point where the open identifier is
      finished. */
  datatype Tok = Word(w: string) | Gap(g: string, span: Option<Props>) | Break

  /** What a rendered piece is, as far as the cutting goes: a finished
      identifier, or one line of a gap together with the span it is drawn in. */
  datatype Shape = Ident(name: string) | Line(text: string, span: Option<Props>)

  function TokStream(toks: seq<string>, span: Option<Props>): seq<Tok>
  {
    if toks == [] then []
    else [if IsIdentifier(toks[0]) then Word(toks[0]) else Gap(toks[0], span)] + TokStream(toks[1..], span)
  }

  /** The stream a child contributes to the array it sits in. */
  function StreamOf(n: Node): seq<Tok>
    decreases Size(n), 0
  {
    match n
    case Str(s) => TokStream(Tokens(s), None)
    case Elem(_, props, kids) =>
      if IsHighlightSpan(n) then TokStream(Tokens(kids.s), Some(props))
      else [Break] + KidsStream(kids)
    case _ => []
  }

  function ListStream(ns: seq<Node>): seq<Tok>
    decreases SizeList(ns), 1
  {
    if ns == [] then [] else StreamOf(ns[0]) + ListStream(ns[1..])
  }

  /** The stream of a `children` value: nothing when it is returned as it
      is, otherwise its children's streams and a final break. */
  function KidsStream(c: Node): seq<Tok>
    decreases Size(c), 2
  {
    if c.Arr? then ListStream(c.items) + [Break]
    else if IsFalsy(c) then []
    else
      SizeListOne(c);
      ListStream([c]) + [Break]
  }

  /** The piece the open identifier becomes when it is finished, if any. */
  function Flush(cur: string): seq<Shape>
  {
    if cur == "" then [] else [Ident(cur)]
  }

  /** The lines of a gap from part `i` on, each but the first with its line feed. */
  function LineShapes(parts: seq<string>, i: nat, span: Option<Props>): seq<Shape>
    requires i <= |parts|
    decreases |parts| - i
  {
    if i == |parts| then [] else [Line(LinePart(parts, i), span)] + LineShapes(parts, i + 1, span)
  }

  /** The pieces a stream is cut into when `cur` is the identifier open before it. */
  function Render(ts: seq<Tok>, cur: string): seq<Shape>
    decreases |ts|
  {
    if ts == [] then Flush(cur)
    else match ts[0]
      case Word(w) => Render(ts[1..], cur + w)
      case Gap(g, span) => Flush(cur) + LineShapes(SplitLines(g), 0, span) + Render(ts[1..], "")
      case Break => Flush(cur) + Render(ts[1..], "")
  }

  /** The shape of a rendered piece. */
  function ShapeOf(p: Out): Shape
    requires p.Piece?
  {
    if IsIdentifier(p.content.text) then Ident(p.content.text)
    else Line(p.content.text, p.span)
  }

  /** The shapes of the pieces in a run, in order; a copied element in the
      run has no shape of its own (its pieces are listed by `Pieces`). */
  function Shapes(ps: seq<Out>): seq<Shape>
  {
    if ps == [] then []
    else (if ps[0].Piece? then [ShapeOf(ps[0])] else []) + Shapes(ps[1..])
  }

  lemma {:induction false} ShapesAppend(a: seq<Out>, b: seq<Out>)
    ensures Shapes(a + b) == Shapes(a) + Shapes(b)
  {
    if a == [] {
      assert a + b == b;
    } else {
      var head := if a[0].Piece? then [ShapeOf(a[0])] else [];
      assert (a + b)[0] == a[0];
      assert (a + b)[1..] == a[1..] + b;
      ShapesAppend(a[1..], b);
      assert Shapes(a + b) == head + (Shapes(a[1..]) + Shapes(b));
      Assoc(head, Shapes(a[1..]), Shapes(b));
    }
  }

  /** Where the frame stands with respect to highlight spans: outside any span
      (a span may linger only while it is closed), or inside the span with
      these props. */
  predicate Mode(f: Frame, span: Option<Props>)
  {
    if span.None? then f.spanClosed || f.lastSpan.None?
    else !f.spanClosed && f.lastSpan == span
  }

  predicate CurrentOk(f: Frame)
  {
    f.current == "" || IsIdentifier(f.current)
  }

  lemma PushShape(f: Frame, p: Out)
    requires p.Piece?
    ensures Shapes(Pieces(f.out + [p])) == Shapes(Pieces(f.out)) + [ShapeOf(p)]
  {
    LinkifyText.PiecesSnoc(f.out, p);
    ShapesAppend(Pieces(f.out), [p]);
    assert Shapes([p]) == [ShapeOf(p)] + Shapes([]);
  }

  /** `finishCurrentIdentifier` turns the open identifier into its piece and
      leaves the frame in the span it was in. */
  lemma FinishShape(ctx: Ctx, f: Frame, line: nat, span: Option<Props>)
    requires Mode(f, span) && CurrentOk(f)
    ensures var f1 := FinishCurrentIdentifier(ctx, f, line);
      && f1.current == ""
      && f1.lastSpan == span
      && f1.spanClosed == f.spanClosed
      && Shapes(Pieces(f1.out)) == Shapes(Pieces(f.out)) + Flush(f.current)
  {
    if f.current != "" {
      PushShape(f, Piece(|f.out|, f.lastSpan, line, IsBlurred(ctx.focusLines, line), IdentContent(ctx, f.current)));
    }
  }

  /** Pushing the lines of a gap from part `i` on adds one line piece each, in
      the current span, and changes nothing else of the frame. */
  lemma {:induction false} LinePartsShape(ctx: Ctx, f: Frame, line: nat, parts: seq<string>, i: nat)
    requires i <= |parts|
    requires forall k :: 0 <= k < |parts| ==> '\n' !in parts[k] && !IsIdentifier(parts[k])
    ensures var f1 := PushLineParts(ctx, f, line, parts, i).0;
      && f1.current == f.current
      && f1.lastSpan == f.lastSpan
      && f1.spanClosed == f.spanClosed
      && Shapes(Pieces(f1.out)) == Shapes(Pieces(f.out)) + LineShapes(parts, i, f.lastSpan)
    decreases |parts| - i
  {
    if i < |parts| {
      var line' := if i > 0 then line + 1 else line;
      var part := LinePart(parts, i);
      var f' := PushInCurrentSpan(ctx, f, line', Plain(part));
      LinkifyText.LinePartOk(parts, i);
      PushShape(f, Piece(|f.out|, f.lastSpan, line', IsBlurred(ctx.focusLines, line'), Plain(part)));
      LinePartsShape(ctx, f', line', parts, i + 1);
      Assoc(Shapes(Pieces(f.out)), [Line(part, f.lastSpan)], LineShapes(parts, i + 1, f.lastSpan));
      var r := PushLineParts(ctx, f', line', parts, i + 1);
      assert r == PushLineParts(ctx, f, line, parts, i);
    }
  }

  /** The pieces built so far followed by what the rest of the stream becomes. */
  function Outlook(f: Frame, rest: seq<Tok>): seq<Shape>
  {
    Shapes(Pieces(f.out)) + Render(rest, f.current)
  }

  lemma RenderGap(g: string, span: Option<Props>, rest: seq<Tok>, cur: string)
    ensures Render([Gap(g, span)] + rest, cur) == Flush(cur) + LineShapes(SplitLines(g), 0, span) + Render(rest, "")
  {
    assert ([Gap(g, span)] + rest)[1..] == rest;
  }

  lemma RenderBreak(rest: seq<Tok>, cur: string)
    ensures Render([Break] + rest, cur) == Flush(cur) + Render(rest, "")
  {
    assert ([Break] + rest)[1..] == rest;
  }

  lemma OutlookGap(f: Frame, f1: Frame, g: string, span: Option<Props>, rest: seq<Tok>)
    requires f1.current == ""
    requires Shapes(Pieces(f1.out)) == Shapes(Pieces(f.out)) + Flush(f.current) + LineShapes(SplitLines(g), 0, span)
    ensures Outlook(f1, rest) == Outlook(f, [Gap(g, span)] + rest)
  {
    RenderGap(g, span, rest, f.current);
    Assoc(Shapes(Pieces(f.out)), Flush(f.current), LineShapes(SplitLines(g), 0, span));
    Assoc(Shapes(Pieces(f.out)), Flush(f.current) + LineShapes(SplitLines(g), 0, span), Render(rest, ""));
  }

  lemma IdentOutlook(f: Frame, tok: string, rest: seq<Tok>)
    ensures Outlook(f.(current := f.current + tok), rest) == Outlook(f, [Word(tok)] + rest)
  {
    assert ([Word(tok)] + rest)[1..] == rest;
  }

  /** A gap token finishes the open identifier and adds its lines in the
      span the frame is in. */
  lemma GapTokenShape(ctx: Ctx, f: Frame, line: nat, tok: string, span: Option<Props>, rest: seq<Tok>)
    requires Mode(f, span) && CurrentOk(f)
    requires IsGap(tok)
    ensures var f1 := PushLineParts(ctx, FinishCurrentIdentifier(ctx, f, line), line, SplitLines(tok), 0).0;
      && Mode(f1, span) && CurrentOk(f1)
      && Outlook(f1, rest) == Outlook(f, [Gap(tok, span)] + rest)
  {
    var f0 := FinishCurrentIdentifier(ctx, f, line);
    FinishShape(ctx, f, line, span);
    LinkifyText.GapLines(tok);
    LinePartsShape(ctx, f0, line, SplitLines(tok), 0);
    OutlookGap(f, PushLineParts(ctx, f0, line, SplitLines(tok), 0).0, tok, span, rest);
  }

  /** `pushToken` on a token of a string or highlight span. */
  lemma PushTokenShape(ctx: Ctx, f: Frame, line: nat, tok: string, span: Option<Props>, rest: seq<Tok>)
    requires Mode(f, span) && CurrentOk(f)
    requires IsIdentifier(tok) || IsGap(tok)
    ensures var f1 := PushToken(ctx, f, line, tok).0;
      && Mode(f1, span) && CurrentOk(f1)
      && Outlook(f1, rest) == Outlook(f, TokStream([tok], span) + rest)
  {
    var t := if IsIdentifier(tok) then Word(tok) else Gap(tok, span);
    assert [tok][1..] == [];
    assert TokStream([tok], span) == [t] + [];
    assert TokStream([tok], span) + rest == [t] + rest;
    if IsIdentifier(tok) {
      if f.current != "" {
        LinkifyText.IdentifierConcat(f.current, tok);
      }
      IdentOutlook(f, tok, rest);
    } else {
      GapTokenShape(ctx, f, line, tok, span, rest);
    }
  }

  lemma TokStreamOne(tok: string, span: Option<Props>)
    ensures TokStream([tok], span) == [if IsIdentifier(tok) then Word(tok) else Gap(tok, span)]
  {
    assert [tok][1..] == [];
  }

  lemma TokStreamCons(toks: seq<string>, span: Option<Props>, rest: seq<Tok>)
    requires toks != []
    ensures TokStream(toks, span) + rest == TokStream([toks[0]], span) + (TokStream(toks[1..], span) + rest)
  {
    TokStreamOne(toks[0], span);
    var t := TokStream([toks[0]], span);
    var tail := TokStream(toks[1..], span);
    assert TokStream(toks, span) == t + tail;
    Assoc(t, tail, rest);
  }

  lemma {:induction false} PushTokensShape(ctx: Ctx, f: Frame, line: nat, toks: seq<string>, span: Option<Props>, rest: seq<Tok>)
    requires Mode(f, span) && CurrentOk(f)
    requires forall i :: 0 <= i < |toks| ==> IsIdentifier(toks[i]) || IsGap(toks[i])
    ensures var f1 := PushTokens(ctx, f, line, toks).0;
      && Mode(f1, span) && CurrentOk(f1)
      && Outlook(f1, rest) == Outlook(f, TokStream(toks, span) + rest)
    decreases |toks|
  {
    if toks == [] {
      assert TokStream(toks, span) + rest == rest;
    } else {
      var (f1, line1) := PushToken(ctx, f, line, toks[0]);
      var rest' := TokStream(toks[1..], span) + rest;
      PushTokenShape(ctx, f, line, toks[0], span, rest');
      PushTokensShape(ctx, f1, line1, toks[1..], span, rest);
      TokStreamCons(toks, span, rest);
      var r := PushTokens(ctx, f1, line1, toks[1..]);
      assert r == PushTokens(ctx, f, line, toks);
      assert Outlook(r.0, rest) == Outlook(f1, rest');
      assert Outlook(f1, rest') == Outlook(f, TokStream(toks, span) + rest);
    }
  }

  lemma PushTextShape(ctx: Ctx, f: Frame, line: nat, s: string, span: Option<Props>, rest: seq<Tok>)
    requires Mode(f, span) && CurrentOk(f)
    ensures var f1 := PushTokens(ctx, f, line, Tokens(s)).0;
      && Mode(f1, span) && CurrentOk(f1)
      && Outlook(f1, rest) == Outlook(f, TokStream(Tokens(s), span) + rest)
  {
    TokensAreSplit(s);
    PushTokensShape(ctx, f, line, Tokens(s), span, rest);
  }

  /** A stream that ends with a break, or is empty, leaves no identifier open. */
  predicate Closed(ts: seq<Tok>)
  {
    ts == [] || ts[|ts| - 1] == Break
  }

  lemma {:induction false} RenderClosed(s: seq<Tok>, rest: seq<Tok>, cur: string)
    requires s != [] && s[|s| - 1] == Break
    ensures Render(s + rest, cur) == Render(s, cur) + Render(rest, "")
    decreases |s|
  {
    var s' := s[1..];
    assert (s + rest)[0] == s[0];
    assert (s + rest)[1..] == s' + rest;
    if s' == [] {
      assert s[0] == Break;
      assert s' + rest == rest;
    } else {
      assert s'[|s'| - 1] == Break;
      match s[0]
      case Word(w) =>
        RenderClosed(s', rest, cur + w);
      case Gap(g, span) =>
        RenderClosed(s', rest, "");
        Assoc(Flush(cur) + LineShapes(SplitLines(g), 0, span), Render(s', ""), Render(rest, ""));
      case Break =>
        RenderClosed(s', rest, "");
        Assoc(Flush(cur), Render(s', ""), Render(rest, ""));
    }
  }

  lemma KidsStreamClosed(c: Node)
    ensures Closed(KidsStream(c))
  {
  }

  /** The pieces of a copied element follow the pieces before it. */
  lemma CloneShapes(out: seq<Out>, k: Kids, tag: string, props: Props)
    ensures Shapes(Pieces(out + [Clone(|out|, tag, props, k)])) == Shapes(Pieces(out)) + Shapes(KidsPieces(k))
  {
    var c := Clone(|out|, tag, props, k);
    PiecesAppend(out, [c]);
    assert Pieces([c]) == KidsPieces(k) by {
      assert [c][1..] == [];
      assert PiecesOf(c) == KidsPieces(k);
      assert Pieces([c]) == PiecesOf(c) + [];
    }
    ShapesAppend(Pieces(out), KidsPieces(k));
  }

  /** The stream of an element's children ends with a break, so what follows
      it is cut independently. */
  lemma KidsRender(kids: Node, rest: seq<Tok>)
    ensures Render(KidsStream(kids) + rest, "") == Render(KidsStream(kids), "") + Render(rest, "")
  {
    var ks := KidsStream(kids);
    KidsStreamClosed(kids);
    if ks != [] {
      RenderClosed(ks, rest, "");
    } else {
      assert ks + rest == rest;
    }
  }

  /** Copying an element: the identifier open before it is finished, and
      the element's own pieces follow. */
  lemma CloneShape(ctx: Ctx, f: Frame, f1: Frame, kids: Node, k: Kids, tag: string, props: Props, rest: seq<Tok>)
    requires f1.current == ""
    requires Shapes(Pieces(f1.out)) == Shapes(Pieces(f.out)) + Flush(f.current)
    requires Shapes(KidsPieces(k)) == Render(KidsStream(kids), "")
    ensures Outlook(f1.(out := f1.out + [Clone(|f1.out|, tag, props, k)]), rest) == Outlook(f, [Break] + KidsStream(kids) + rest)
  {
    var ks := KidsStream(kids);
    var a := Shapes(Pieces(f.out));
    var b := Flush(f.current);
    var d := Render(ks, "");
    var e := Render(rest, "");
    CloneShapes(f1.out, k, tag, props);
    assert Outlook(f1.(out := f1.out + [Clone(|f1.out|, tag, props, k)]), rest) == a + b + d + e;
    KidsRender(kids, rest);
    Assoc([Break], ks, rest);
    RenderBreak(ks + rest, f.current);
    assert Render([Break] + ks + rest, f.current) == b + (d + e);
    Assoc(b, d, e);
    Assoc(a, b, d);
    Assoc(a, b + d, e);
  }

  lemma {:induction false} StepShape(ctx: Ctx, f: Frame, line: nat, child: Node, rest: seq<Tok>)
    requires Mode(f, None) && CurrentOk(f)
    requires Step(ctx, f, line, child).Ok?
    ensures var f1 := Step(ctx, f, line, child).value.0;
      && Mode(f1, None) && CurrentOk(f1)
      && Outlook(f1, rest) == Outlook(f, StreamOf(child) + rest)
    decreases Size(child), 0
  {
    var r := Step(ctx, f, line, child).value;
    match child
    case Str(s) =>
      PushTextShape(ctx, f, line, s, None, rest);
      assert r == PushTokens(ctx, f, line, Tokens(s));
    case Elem(tag, props, kids) =>
      if IsHighlightSpan(child) {
        var f0 := StartSpan(f, props);
        PushTextShape(ctx, f0, line, kids.s, Some(props), rest);
        var (f1, line1) := PushTokens(ctx, f0, line, Tokens(kids.s));
        assert r == (CloseSpan(f1), line1);
      } else {
        var f1 := FinishCurrentIdentifier(ctx, f, line);
        FinishShape(ctx, f, line, None);
        ProcessShape(ctx, kids, line);
        var (k, line1) := Process(ctx, kids, line).value;
        CloneShape(ctx, f, f1, kids, k, tag, props, rest);
        assert r == (f1.(out := f1.out + [Clone(|f1.out|, tag, props, k)]), line1);
      }
  }

  lemma {:induction false} FoldShape(ctx: Ctx, f: Frame, line: nat, nodes: seq<Node>, rest: seq<Tok>)
    requires Mode(f, None) && CurrentOk(f)
    requires Fold(ctx, f, line, nodes).Ok?
    ensures var f1 := Fold(ctx, f, line, nodes).value.0;
      && Mode(f1, None) && CurrentOk(f1)
      && Outlook(f1, rest) == Outlook(f, ListStream(nodes) + rest)
    decreases SizeList(nodes), 1
  {
    if nodes == [] {
      assert ListStream(nodes) + rest == rest;
    } else {
      var rest' := ListStream(nodes[1..]) + rest;
      StepShape(ctx, f, line, nodes[0], rest');
      var (f1, line1) := Step(ctx, f, line, nodes[0]).value;
      FoldShape(ctx, f1, line1, nodes[1..], rest);
      Assoc(StreamOf(nodes[0]), ListStream(nodes[1..]), rest);
      var r := Fold(ctx, f1, line1, nodes[1..]);
      assert r == Fold(ctx, f, line, nodes);
    }
  }

  lemma {:induction false} ProcessListShape(ctx: Ctx, nodes: seq<Node>, line: nat)
    requires ProcessList(ctx, nodes, line).Ok?
    ensures Shapes(KidsPieces(ProcessList(ctx, nodes, line).value.0)) == Render(ListStream(nodes) + [Break], "")
    decreases SizeList(nodes), 2
  {
    FoldShape(ctx, Fresh, line, nodes, [Break]);
    var (f, line1) := Fold(ctx, Fresh, line, nodes).value;
    var f1 := FinishCurrentIdentifier(ctx, f, line1);
    FinishShape(ctx, f, line1, None);
    assert ProcessList(ctx, nodes, line).value.0 == New(f1.out);
    RenderBreak([], f.current);
    assert [Break] + [] == [Break];
    assert Render([], "") == [];
    assert Render([Break], f.current) == Flush(f.current);
    assert Outlook(f, [Break]) == Shapes(Pieces(f1.out));
    assert Shapes(Pieces(Fresh.out)) == [];
    assert Outlook(Fresh, ListStream(nodes) + [Break]) == Render(ListStream(nodes) + [Break], "");
  }

  /** The pass cuts the text as `Render` says: merged identifiers, finished
      at every gap, element and array end, and gap lines in their spans. */
  lemma {:induction false} ProcessShape(ctx: Ctx, children: Node, line: nat)
    requires Process(ctx, children, line).Ok?
    ensures Shapes(KidsPieces(Process(ctx, children, line).value.0)) == Render(KidsStream(children), "")
    decreases Size(children), 3
  {
    if children.Arr? {
      ProcessListShape(ctx, children.items, line);
    } else if IsFalsy(children) {
    } else {
      SizeListOne(children);
      ProcessListShape(ctx, [children], line);
    }
  }

  lemma FooTokens()
    ensures Tokens("foo") == ["foo"] && IsIdentifier("foo")
  {
    assert NextMatch("foo", 0) == 0;
    assert MatchEnd("foo", 0) == 3;
    assert TokensFrom("foo", 3) == [];
    assert "foo"[0..3] == "foo";
  }

  lemma ParenTokens()
    ensures Tokens("()") == ["()"] && !IsIdentifier("()") && SplitLines("()") == ["()"]
  {
    assert NextMatch("()", 1) == 2;
    assert NextMatch("()", 0) == 2;
    assert "()"[0..] == "()";
    assert SplitLines(")") == [")"];
  }

  /** The first span leaves `foo` open and the span remembered. */
  lemma FooSpanStep(title: Props)
    ensures Step(Ctx(map[], None), Fresh, 1, Elem("span", title, Str("foo")))
         == Ok((Frame([], Some(title), "foo", true), 1))
  {
    var ctx := Ctx(map[], None);
    FooTokens();
    var f0 := StartSpan(Fresh, title);
    var f1 := Frame([], Some(title), "foo", false);
    assert "" + "foo" == "foo";
    assert PushToken(ctx, f0, 1, "foo") == (f1, 1);
    assert ["foo"][1..] == [];
    var r := PushTokens(ctx, f1, 1, []);
    assert r == PushTokens(ctx, f0, 1, ["foo"]);
    assert IsHighlightSpan(Elem("span", title, Str("foo")));
  }

  /** The second span opens, and its first token finishes `foo` inside it. */
  lemma ParenSpanStep(title: Props, params: Props)
    ensures Step(Ctx(map[], None), Frame([], Some(title), "foo", true), 1, Elem("span", params, Str("()")))
         == Ok((Frame([Piece(0, Some(params), 1, false, Plain("foo")), Piece(1, Some(params), 1, false, Plain("()"))], None, "", true), 1))
  {
    var ctx := Ctx(map[], None);
    ParenTokens();
    var g0 := StartSpan(Frame([], Some(title), "foo", true), params);
    var p0 := Piece(0, Some(params), 1, false, Plain("foo"));
    var g1 := Frame([p0], Some(params), "", false);
    assert FinishCurrentIdentifier(ctx, g0, 1) == g1;
    var g2 := Frame([p0, Piece(1, Some(params), 1, false, Plain("()"))], Some(params), "", false);
    assert LinePart(["()"], 0) == "()";
    assert PushInCurrentSpan(ctx, g1, 1, Plain("()")) == g2;
    assert PushLineParts(ctx, g1, 1, ["()"], 0) == (g2, 1);
    assert PushToken(ctx, g0, 1, "()") == (g2, 1);
    assert ["()"][1..] == [];
    var r := PushTokens(ctx, g2, 1, []);
    assert r == PushTokens(ctx, g0, 1, ["()"]);
    assert IsHighlightSpan(Elem("span", params, Str("()")));
  }

  /** An identifier is drawn in the span that is current when it is
      finished, which need not be the span it came from: an identifier that
      ends one highlight span, followed by a span that opens with
      punctuation, is drawn with the second span's props, because the second
      span is started before its first token finishes the identifier. */
  lemma IdentifierTakesNextSpan(title: Props, params: Props)
    ensures var input := Arr([Elem("span", title, Str("foo")), Elem("span", params, Str("()"))]);
      Process(Ctx(map[], None), input, 1)
        == Ok((New([Piece(0, Some(params), 1, false, Plain("foo")), Piece(1, Some(params), 1, false, Plain("()"))]), 1))
  {
    var ctx := Ctx(map[], None);
    var s1 := Elem("span", title, Str("foo"));
    var s2 := Elem("span", params, Str("()"));
    var p0 := Piece(0, Some(params), 1, false, Plain("foo"));
    var p1 := Piece(1, Some(params), 1, false, Plain("()"));
    var f1 := Frame([], Some(title), "foo", true);
    var f2 := Frame([p0, p1], None, "", true);
    FooSpanStep(title);
    ParenSpanStep(title, params);
    assert [s2][1..] == [];
    var r2 := Fold(ctx, f2, 1, []);
    assert r2 == Fold(ctx, f1, 1, [s2]);
    assert [s1, s2][1..] == [s2];
    var r1 := Fold(ctx, f1, 1, [s2]);
    assert r1 == Fold(ctx, Fresh, 1, [s1, s2]);
    assert FinishCurrentIdentifier(ctx, f2, 1) == f2;
  }
}
