/** What the pass promises about the text it renders: the text is kept, line
    numbers count the line feeds before each piece, the blurred flag follows
    the focus lines, links go exactly to identifiers in the links table, and
    every key is its index. */
module LinkifyText {
  import opened Strings
  import opened Identifiers
  import opened Markup
  import opened Linkify

  /** A rendered piece as the pass promises it: blurred exactly when its line
      is out of focus, a link exactly when its text is an identifier the table
      links (to that entry), and holding a line feed at most at its start. */
  predicate GoodPiece(ctx: Ctx, p: Out)
  {
    && p.Piece?
    && p.blurred == IsBlurred(ctx.focusLines, p.line)
    && (p.content.Link? <==> IsIdentifier(p.content.text) && HasLink(ctx.links, p.content.text))
    && (p.content.Link? ==> HasLink(ctx.links, p.content.text) && p.content.href == ctx.links[p.content.text])
    && (forall i :: 0 < i < |p.content.text| ==> p.content.text[i] != '\n')
  }

  /** Every piece is good, stated piece by piece. */
  predicate AllGoodFrom(ctx: Ctx, ps: seq<Out>)
    decreases |ps|
  {
    ps == [] || (GoodPiece(ctx, ps[0]) && AllGoodFrom(ctx, ps[1..]))
  }

  predicate AllGood(ctx: Ctx, ps: seq<Out>)
  {
    forall i :: 0 <= i < |ps| ==> GoodPiece(ctx, ps[i])
  }

  /** Each piece's `data-line` is the first line plus the line feeds read up to
      and including that piece. */
  predicate LinesCounted(ps: seq<Out>, line0: nat)
  {
    forall j :: 0 <= j < |ps| ==> ps[j].Piece? && ps[j].line == line0 + Newlines(PiecesText(ps[..j + 1]))
  }

  /** The same, piece by piece: each piece's line is the line the previous
      piece ended on plus the line feeds in it. */
  predicate LinesFrom(ps: seq<Out>, line: nat)
    decreases |ps|
  {
    ps == [] || (ps[0].Piece? && ps[0].line == line + Newlines(ContentText(ps[0].content)) && LinesFrom(ps[1..], ps[0].line))
  }

  /** What holds of the children built so far by a call that began on line `line0`. */
  predicate OutsOk(ctx: Ctx, line0: nat, outs: seq<Out>)
  {
    && WellKeyed(outs)
    && LinesFrom(Pieces(outs), line0)
    && AllGoodFrom(ctx, Pieces(outs))
  }

  /** The invariant of the loop over the children: `text` is the text read so
      far, the built pieces followed by the open identifier; the shared line
      number has moved on by the line feeds in it. */
  predicate FrameOk(ctx: Ctx, line0: nat, text: string, f: Frame, line: nat)
  {
    && OutsOk(ctx, line0, f.out)
    && (f.current == "" || IsIdentifier(f.current))
    && PiecesText(Pieces(f.out)) + f.current == text
    && line == line0 + Newlines(text)
  }

  lemma IdentifierHasNoNewline(t: string)
    requires IsIdentifier(t)
    ensures '\n' !in t
    ensures Newlines(t) == 0
  {
    assert forall i :: 0 <= i < |t| ==> IsIdentContinue(t[i]);
  }

  /** Two identifiers written one after the other make one identifier. */
  lemma IdentifierConcat(a: string, b: string)
    requires IsIdentifier(a) && IsIdentifier(b)
    ensures IsIdentifier(a + b)
  {
    var ab := a + b;
    forall i | 1 <= i < |ab| ensures IsIdentContinue(ab[i]) {
      if i < |a| {
        assert ab[i] == a[i];
      } else {
        assert ab[i] == b[i - |a|];
      }
    }
  }

  lemma ConcatStep(text: string, toks: seq<string>)
    requires toks != []
    ensures text + toks[0] + Concat(toks[1..]) == text + Concat(toks)
  {
    Assoc(text, toks[0], Concat(toks[1..]));
  }

  lemma TextListStep(text: string, nodes: seq<Node>)
    requires nodes != []
    ensures text + TextIn(nodes[0]) + TextList(nodes[1..]) == text + TextList(nodes)
  {
    Assoc(text, TextIn(nodes[0]), TextList(nodes[1..]));
  }

  lemma {:induction false} LinesConcat(p: seq<Out>, q: seq<Out>, line0: nat)
    requires LinesFrom(p, line0)
    requires LinesFrom(q, line0 + Newlines(PiecesText(p)))
    ensures LinesFrom(p + q, line0)
    decreases |p|
  {
    if p == [] {
      assert p + q == q;
    } else {
      assert (p + q)[0] == p[0];
      assert (p + q)[1..] == p[1..] + q;
      NewlinesAppend(ContentText(p[0].content), PiecesText(p[1..]));
      LinesConcat(p[1..], q, p[0].line);
    }
  }

  /** Counting piece by piece gives the line count of every prefix. */
  lemma {:induction false} LinesFromCounted(ps: seq<Out>, line0: nat)
    requires LinesFrom(ps, line0)
    ensures LinesCounted(ps, line0)
    decreases |ps|
  {
    if ps != [] {
      var rest := ps[1..];
      var t0 := ContentText(ps[0].content);
      LinesFromCounted(rest, ps[0].line);
      forall j | 0 <= j < |ps|
        ensures ps[j].Piece? && ps[j].line == line0 + Newlines(PiecesText(ps[..j + 1]))
      {
        if j == 0 {
          assert PiecesText(ps[..1]) == t0 + PiecesText(ps[..1][1..]);
          assert ps[..1][1..] == [];
        } else {
          assert ps[j] == rest[j - 1];
          assert ps[..j + 1][1..] == rest[..j];
          assert PiecesText(ps[..j + 1]) == t0 + PiecesText(rest[..j]);
          NewlinesAppend(t0, PiecesText(rest[..j]));
        }
      }
    }
  }

  lemma WellKeyedSnoc(outs: seq<Out>, o: Out)
    requires WellKeyed(outs) && o.key == |outs| && KeyedBelow(o)
    ensures WellKeyed(outs + [o])
  {
    var all := outs + [o];
    forall i | 0 <= i < |all| ensures all[i].key == i && KeyedBelow(all[i]) {
      if i < |outs| {
        assert all[i] == outs[i];
      }
    }
  }

  lemma {:induction false} AllGoodConcat(ctx: Ctx, p: seq<Out>, q: seq<Out>)
    requires AllGoodFrom(ctx, p) && AllGoodFrom(ctx, q)
    ensures AllGoodFrom(ctx, p + q)
    decreases |p|
  {
    if p == [] {
      assert p + q == q;
    } else {
      assert (p + q)[0] == p[0];
      assert (p + q)[1..] == p[1..] + q;
      AllGoodConcat(ctx, p[1..], q);
    }
  }

  lemma {:induction false} AllGoodFromAll(ctx: Ctx, ps: seq<Out>)
    requires AllGoodFrom(ctx, ps)
    ensures AllGood(ctx, ps)
    decreases |ps|
  {
    if ps != [] {
      AllGoodFromAll(ctx, ps[1..]);
      forall i | 0 <= i < |ps| ensures GoodPiece(ctx, ps[i]) {
        if i > 0 {
          assert ps[i] == ps[1..][i - 1];
        }
      }
    }
  }

  lemma PiecesSnoc(outs: seq<Out>, p: Out)
    requires p.Piece?
    ensures Pieces(outs + [p]) == Pieces(outs) + [p]
    ensures PiecesText(Pieces(outs) + [p]) == PiecesText(Pieces(outs)) + ContentText(p.content)
  {
    PiecesAppend(outs, [p]);
    assert Pieces([p]) == [p] + Pieces([]);
    PiecesTextAppend(Pieces(outs), [p]);
    assert PiecesText([p]) == ContentText(p.content) + PiecesText([]);
  }

  lemma LinesSnoc(ps: seq<Out>, p: Out, line0: nat)
    requires LinesFrom(ps, line0)
    requires p.Piece? && p.line == line0 + Newlines(PiecesText(ps) + ContentText(p.content))
    ensures LinesFrom(ps + [p], line0)
  {
    assert LinesFrom([p], line0 + Newlines(PiecesText(ps))) by {
      assert [p][1..] == [];
      NewlinesAppend(PiecesText(ps), ContentText(p.content));
    }
    LinesConcat(ps, [p], line0);
  }

  /** Pushing one more piece keeps the built children in order. */
  lemma AppendPiece(ctx: Ctx, line0: nat, outs: seq<Out>, p: Out)
    requires OutsOk(ctx, line0, outs)
    requires p.Piece? && p.key == |outs| && GoodPiece(ctx, p)
    requires p.line == line0 + Newlines(PiecesText(Pieces(outs)) + ContentText(p.content))
    ensures OutsOk(ctx, line0, outs + [p])
    ensures PiecesText(Pieces(outs + [p])) == PiecesText(Pieces(outs)) + ContentText(p.content)
  {
    PiecesSnoc(outs, p);
    LinesSnoc(Pieces(outs), p, line0);
    WellKeyedSnoc(outs, p);
    assert AllGoodFrom(ctx, [p]) by { assert [p][1..] == []; }
    AllGoodConcat(ctx, Pieces(outs), [p]);
  }

  /** Pushing a copied element keeps the built children in order. */
  lemma AppendClone(ctx: Ctx, line0: nat, outs: seq<Out>, c: Out)
    requires OutsOk(ctx, line0, outs)
    requires c.Clone? && c.key == |outs| && KidsKeyed(c.children)
    requires LinesFrom(KidsPieces(c.children), line0 + Newlines(PiecesText(Pieces(outs))))
    requires AllGoodFrom(ctx, KidsPieces(c.children))
    ensures OutsOk(ctx, line0, outs + [c])
    ensures PiecesText(Pieces(outs + [c])) == PiecesText(Pieces(outs)) + PiecesText(KidsPieces(c.children))
  {
    var before := Pieces(outs);
    var inner := KidsPieces(c.children);
    assert Pieces(outs + [c]) == before + inner by {
      PiecesAppend(outs, [c]);
      assert Pieces([c]) == PiecesOf(c) + Pieces([]);
    }
    PiecesTextAppend(before, inner);
    LinesConcat(before, inner, line0);
    WellKeyedSnoc(outs, c);
    AllGoodConcat(ctx, before, inner);
  }

  /** `finishCurrentIdentifier` empties the open identifier into a piece and
      keeps the invariant. */
  lemma FinishOk(ctx: Ctx, line0: nat, text: string, f: Frame, line: nat)
    requires FrameOk(ctx, line0, text, f, line)
    ensures FinishCurrentIdentifier(ctx, f, line).current == ""
    ensures FrameOk(ctx, line0, text, FinishCurrentIdentifier(ctx, f, line), line)
  {
    if f.current != "" {
      var c := IdentContent(ctx, f.current);
      var p := Piece(|f.out|, f.lastSpan, line, IsBlurred(ctx.focusLines, line), c);
      IdentifierHasNoNewline(f.current);
      assert GoodPiece(ctx, p);
      AppendPiece(ctx, line0, f.out, p);
    }
  }

  /** The text read grows by the next line part, line feed included. */
  lemma JoinStep(before: string, parts: seq<string>, i: nat)
    requires i < |parts|
    ensures before + (if i == 0 then "" else JoinLines(parts[..i])) + LinePart(parts, i) == before + JoinLines(parts[..i + 1])
  {
    if i == 0 {
      assert parts[..1] == [parts[0]];
      assert before + "" == before;
    } else {
      JoinLinesSnoc(parts, i);
      Assoc(before, JoinLines(parts[..i]), "\n" + parts[i]);
      Assoc(JoinLines(parts[..i]), "\n", parts[i]);
    }
  }

  /** The lines a gap splits into: no line feed, and no identifier. */
  predicate PlainParts(parts: seq<string>)
  {
    forall k :: 0 <= k < |parts| ==> '\n' !in parts[k] && !IsIdentifier(parts[k])
  }

  /** The invariant of the loop over the line parts: the first `i` parts have
      been read after `before`, and the line number counts their line feeds. */
  predicate PartsRead(ctx: Ctx, line0: nat, before: string, f: Frame, line: nat, parts: seq<string>, i: nat)
    requires i <= |parts|
  {
    && f.current == ""
    && OutsOk(ctx, line0, f.out)
    && PiecesText(Pieces(f.out)) == before + (if i == 0 then "" else JoinLines(parts[..i]))
    && line == line0 + Newlines(PiecesText(Pieces(f.out)))
  }

  /** The next line part is a good piece and moves the line on by its line feed. */
  lemma LinePartOk(parts: seq<string>, i: nat)
    requires i < |parts| && PlainParts(parts)
    ensures !IsIdentifier(LinePart(parts, i))
    ensures forall k :: 0 < k < |LinePart(parts, i)| ==> LinePart(parts, i)[k] != '\n'
    ensures Newlines(LinePart(parts, i)) == if i > 0 then 1 else 0
  {
    var part := LinePart(parts, i);
    assert '\n' !in parts[i] && !IsIdentifier(parts[i]);
    assert Newlines(parts[i]) == 0;
    if i > 0 {
      assert part == "\n" + parts[i];
      NewlinesAppend("\n", parts[i]);
      assert !IsIdentifier(part) by { assert part[0] == '\n'; }
      assert forall k :: 0 < k < |part| ==> part[k] == parts[i][k - 1];
    }
  }

  /** Pushing one line part keeps the built children in order and reads one
      more part. */
  lemma PushLinePartOk(ctx: Ctx, line0: nat, before: string, f: Frame, line: nat, parts: seq<string>, i: nat, line': nat)
    requires i < |parts| && line' == (if i > 0 then line + 1 else line)
    requires PlainParts(parts)
    requires PartsRead(ctx, line0, before, f, line, parts, i)
    ensures PartsRead(ctx, line0, before, PushInCurrentSpan(ctx, f, line', Plain(LinePart(parts, i))), line', parts, i + 1)
  {
    var part := LinePart(parts, i);
    var p := Piece(|f.out|, f.lastSpan, line', IsBlurred(ctx.focusLines, line'), Plain(part));
    LinePartOk(parts, i);
    NewlinesAppend(PiecesText(Pieces(f.out)), part);
    assert GoodPiece(ctx, p);
    AppendPiece(ctx, line0, f.out, p);
    JoinStep(before, parts, i);
  }

  /** Once every part is read, the loop's invariant is the frame invariant. */
  lemma PartsDone(ctx: Ctx, line0: nat, before: string, f: Frame, line: nat, parts: seq<string>)
    requires 1 <= |parts|
    requires PartsRead(ctx, line0, before, f, line, parts, |parts|)
    ensures FrameOk(ctx, line0, before + JoinLines(parts), f, line)
  {
    assert parts[..|parts|] == parts;
    assert PiecesText(Pieces(f.out)) + "" == PiecesText(Pieces(f.out));
  }

  /** Pushing the parts of a gap from part `i` on keeps the invariant and ends
      with the whole gap read. */
  lemma {:induction false} PushLinePartsOk(ctx: Ctx, line0: nat, before: string, f: Frame, line: nat, parts: seq<string>, i: nat)
    requires 1 <= |parts| && i <= |parts|
    requires PlainParts(parts)
    requires PartsRead(ctx, line0, before, f, line, parts, i)
    ensures FrameOk(ctx, line0, before + JoinLines(parts), PushLineParts(ctx, f, line, parts, i).0, PushLineParts(ctx, f, line, parts, i).1)
    decreases |parts| - i
  {
    if i == |parts| {
      PartsDone(ctx, line0, before, f, line, parts);
    } else {
      var line' := if i > 0 then line + 1 else line;
      PushLinePartOk(ctx, line0, before, f, line, parts, i, line');
      var f' := PushInCurrentSpan(ctx, f, line', Plain(LinePart(parts, i)));
      PushLinePartsOk(ctx, line0, before, f', line', parts, i + 1);
      FrameOkSame(ctx, line0, before + JoinLines(parts), PushLineParts(ctx, f', line', parts, i + 1), PushLineParts(ctx, f, line, parts, i));
    }
  }

  lemma FrameOkSame(ctx: Ctx, line0: nat, text: string, r: (Frame, nat), s: (Frame, nat))
    requires r == s && FrameOk(ctx, line0, text, r.0, r.1)
    ensures FrameOk(ctx, line0, text, s.0, s.1)
  {
  }

  /** The lines of a gap hold no line feed and are not identifiers. */
  lemma GapLines(tok: string)
    requires IsGap(tok)
    ensures PlainParts(SplitLines(tok))
  {
    var parts := SplitLines(tok);
    forall k | 0 <= k < |parts| ensures '\n' !in parts[k] && !IsIdentifier(parts[k]) {
      if parts[k] != [] {
        assert parts[k][0] in parts[k];
        assert parts[k][0] in tok;
      }
    }
  }

  /** An identifier token extends the open identifier. */
  lemma IdentTokenOk(ctx: Ctx, line0: nat, text: string, f: Frame, line: nat, tok: string)
    requires FrameOk(ctx, line0, text, f, line)
    requires IsIdentifier(tok)
    ensures FrameOk(ctx, line0, text + tok, f.(current := f.current + tok), line)
  {
    if f.current != "" {
      IdentifierConcat(f.current, tok);
    }
    IdentifierHasNoNewline(tok);
    NewlinesAppend(text, tok);
    Assoc(PiecesText(Pieces(f.out)), f.current, tok);
  }

  /** A gap token finishes the open identifier and is read line by line. */
  lemma GapTokenOk(ctx: Ctx, line0: nat, text: string, f: Frame, line: nat, tok: string)
    requires FrameOk(ctx, line0, text, f, line)
    requires IsGap(tok)
    ensures var r := PushLineParts(ctx, FinishCurrentIdentifier(ctx, f, line), line, SplitLines(tok), 0);
      FrameOk(ctx, line0, text + tok, r.0, r.1)
  {
    FinishOk(ctx, line0, text, f, line);
    GapLines(tok);
    assert text + "" == text;
    PushLinePartsOk(ctx, line0, text, FinishCurrentIdentifier(ctx, f, line), line, SplitLines(tok), 0);
  }

  /** `pushToken` keeps the invariant for every token `tokenize` can produce. */
  lemma PushTokenOk(ctx: Ctx, line0: nat, text: string, f: Frame, line: nat, tok: string)
    requires FrameOk(ctx, line0, text, f, line)
    requires IsIdentifier(tok) || IsGap(tok)
    ensures FrameOk(ctx, line0, text + tok, PushToken(ctx, f, line, tok).0, PushToken(ctx, f, line, tok).1)
  {
    if IsIdentifier(tok) {
      IdentTokenOk(ctx, line0, text, f, line, tok);
    } else {
      GapTokenOk(ctx, line0, text, f, line, tok);
    }
  }

  lemma {:induction false} PushTokensOk(ctx: Ctx, line0: nat, text: string, f: Frame, line: nat, toks: seq<string>)
    requires FrameOk(ctx, line0, text, f, line)
    requires forall i :: 0 <= i < |toks| ==> IsIdentifier(toks[i]) || IsGap(toks[i])
    ensures FrameOk(ctx, line0, text + Concat(toks), PushTokens(ctx, f, line, toks).0, PushTokens(ctx, f, line, toks).1)
    decreases |toks|
  {
    if toks == [] {
      assert text + Concat(toks) == text;
    } else {
      PushTokenOk(ctx, line0, text, f, line, toks[0]);
      var (f1, line1) := PushToken(ctx, f, line, toks[0]);
      PushTokensOk(ctx, line0, text + toks[0], f1, line1, toks[1..]);
      ConcatStep(text, toks);
    }
  }

  /** The text of a string or highlight span, pushed token by token. */
  lemma PushTextOk(ctx: Ctx, line0: nat, text: string, f: Frame, line: nat, s: string)
    requires FrameOk(ctx, line0, text, f, line)
    ensures FrameOk(ctx, line0, text + s, PushTokens(ctx, f, line, Tokens(s)).0, PushTokens(ctx, f, line, Tokens(s)).1)
  {
    TokensAreSplit(s);
    PushTokensOk(ctx, line0, text, f, line, Tokens(s));
  }

  /** Copying an element whose children were processed from `line` on keeps
      the invariant and reads their text. */
  lemma CloneOk(ctx: Ctx, line0: nat, text: string, f: Frame, line: nat, tag: string, props: Props, k: Kids, line1: nat)
    requires FrameOk(ctx, line0, text, f, line) && f.current == ""
    requires KidsKeyed(k) && LinesFrom(KidsPieces(k), line) && AllGoodFrom(ctx, KidsPieces(k))
    requires line1 == line + Newlines(PiecesText(KidsPieces(k)))
    ensures FrameOk(ctx, line0, text + PiecesText(KidsPieces(k)), f.(out := f.out + [Clone(|f.out|, tag, props, k)]), line1)
  {
    assert PiecesText(Pieces(f.out)) == text;
    AppendClone(ctx, line0, f.out, Clone(|f.out|, tag, props, k));
    NewlinesAppend(text, PiecesText(KidsPieces(k)));
  }

  lemma {:induction false} StepOk(ctx: Ctx, line0: nat, text: string, f: Frame, line: nat, child: Node)
    requires FrameOk(ctx, line0, text, f, line)
    requires Step(ctx, f, line, child).Ok?
    ensures FrameOk(ctx, line0, text + TextIn(child), Step(ctx, f, line, child).value.0, Step(ctx, f, line, child).value.1)
    decreases Size(child), 0
  {
    var r := Step(ctx, f, line, child).value;
    match child
    case Str(s) =>
      PushTextOk(ctx, line0, text, f, line, s);
      assert r == PushTokens(ctx, f, line, Tokens(s));
    case Elem(tag, props, kids) =>
      if IsHighlightSpan(child) {
        var f0 := StartSpan(f, props);
        assert FrameOk(ctx, line0, text, f0, line);
        PushTextOk(ctx, line0, text, f0, line, kids.s);
        var (f1, line1) := PushTokens(ctx, f0, line, Tokens(kids.s));
        assert FrameOk(ctx, line0, text + TextIn(child), CloseSpan(f1), line1);
        assert r == (CloseSpan(f1), line1);
      } else {
        FinishOk(ctx, line0, text, f, line);
        var f1 := FinishCurrentIdentifier(ctx, f, line);
        ProcessOk(ctx, kids, line);
        var (k, line1) := Process(ctx, kids, line).value;
        CloneOk(ctx, line0, text, f1, line, tag, props, k, line1);
        assert r == (f1.(out := f1.out + [Clone(|f1.out|, tag, props, k)]), line1);
      }
  }

  lemma {:induction false} FoldOk(ctx: Ctx, line0: nat, text: string, f: Frame, line: nat, nodes: seq<Node>)
    requires FrameOk(ctx, line0, text, f, line)
    requires Fold(ctx, f, line, nodes).Ok?
    ensures FrameOk(ctx, line0, text + TextList(nodes), Fold(ctx, f, line, nodes).value.0, Fold(ctx, f, line, nodes).value.1)
    decreases SizeList(nodes), 1
  {
    if nodes == [] {
      assert text + TextList(nodes) == text;
    } else {
      StepOk(ctx, line0, text, f, line, nodes[0]);
      var (f1, line1) := Step(ctx, f, line, nodes[0]).value;
      FoldOk(ctx, line0, text + TextIn(nodes[0]), f1, line1, nodes[1..]);
      TextListStep(text, nodes);
    }
  }

  lemma {:induction false} ProcessListOk(ctx: Ctx, nodes: seq<Node>, line: nat)
    requires ProcessList(ctx, nodes, line).Ok?
    ensures var (k, line') := ProcessList(ctx, nodes, line).value;
      && KidsKeyed(k)
      && PiecesText(KidsPieces(k)) == TextList(nodes)
      && line' == line + Newlines(TextList(nodes))
      && LinesFrom(KidsPieces(k), line)
      && AllGoodFrom(ctx, KidsPieces(k))
    decreases SizeList(nodes), 2
  {
    assert FrameOk(ctx, line, "", Fresh, line);
    FoldOk(ctx, line, "", Fresh, line, nodes);
    var (f, line1) := Fold(ctx, Fresh, line, nodes).value;
    FinishOk(ctx, line, TextList(nodes), f, line1);
  }

  /** The invariant the recursion carries, with lines counted piece by piece. */
  lemma {:induction false} ProcessOk(ctx: Ctx, children: Node, line: nat)
    requires Process(ctx, children, line).Ok?
    ensures var (k, line') := Process(ctx, children, line).value;
      && KidsKeyed(k)
      && PiecesText(KidsPieces(k)) == TextIn(children)
      && line' == line + Newlines(TextIn(children))
      && LinesFrom(KidsPieces(k), line)
      && AllGoodFrom(ctx, KidsPieces(k))
    decreases Size(children), 3
  {
    if children.Arr? {
      ProcessListOk(ctx, children.items, line);
    } else if IsFalsy(children) {
    } else {
      SizeListOne(children);
      ProcessListOk(ctx, [children], line);
      assert TextList([children]) == TextIn(children) + TextList([]);
    }
  }

  /** The pass keeps the text and counts the lines: read leaf by leaf, the
      rendered pieces show exactly the text of the input; the shared line
      number moves on by the line feeds in it; each piece's `data-line` is the
      starting line plus the line feeds up to and including that piece; each
      piece is blurred exactly when its line is out of focus and is a link
      exactly when its text is an identifier the links table links, to that
      entry's value; and every key is the index of its child. */
  lemma ProcessIsFaithful(ctx: Ctx, children: Node, line: nat)
    requires Process(ctx, children, line).Ok?
    ensures var (k, line') := Process(ctx, children, line).value;
      && KidsKeyed(k)
      && PiecesText(KidsPieces(k)) == TextIn(children)
      && line' == line + Newlines(TextIn(children))
      && LinesCounted(KidsPieces(k), line)
      && AllGood(ctx, KidsPieces(k))
  {
    ProcessOk(ctx, children, line);
    LinesFromCounted(KidsPieces(Process(ctx, children, line).value.0), line);
    AllGoodFromAll(ctx, KidsPieces(Process(ctx, children, line).value.0));
  }
}
