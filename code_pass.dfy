/** The pass as the component runs it: an object holding the line number that
    every recursive call of `processChildrenArray` shares, with loops over the
    children, the tokens and the line parts. Each method is proved to compute
    what the functions of `Linkify` say, so everything proved about those
    functions holds of it. */
module CodeBlock {
  import opened Strings
  import opened Identifiers
  import opened Markup
  import opened Linkify
  import LinkifyText
  import LinkifyShape
  import LinkifyStructure

  class CodePass {
    /** The links table and the focus lines the component read from its contexts. */
    const ctx: Ctx
    /** `lineNumber`: the line being rendered, shared by all recursive calls. */
    var lineNumber: nat

    constructor(links: map<string, string>, focusLines: Option<seq<int>>)
      ensures ctx == Ctx(links, focusLines)
      ensures lineNumber == 1
    {
      ctx := Ctx(links, focusLines);
      lineNumber := 1;
    }

    /** `pushToken`: an identifier extends the open identifier; any other
        token finishes it and is pushed one line part at a time, the line
        number moving on before every part after the first. */
    method PushToken(f: Frame, token: string) returns (f': Frame)
      modifies this
      ensures (f', lineNumber) == Linkify.PushToken(ctx, f, old(lineNumber), token)
    {
      if IsIdentifier(token) {
        f' := f.(current := f.current + token);
        return;
      }
      f' := FinishCurrentIdentifier(ctx, f, lineNumber);
      var f0, line0 := f', lineNumber;
      var lineParts := SplitLines(token);
      var i := 0;
      while i < |lineParts|
        invariant 0 <= i <= |lineParts|
        invariant PushLineParts(ctx, f', lineNumber, lineParts, i) == PushLineParts(ctx, f0, line0, lineParts, 0)
        decreases |lineParts| - i
      {
        var part := lineParts[i];
        if i > 0 {
          lineNumber := lineNumber + 1;
          part := "\n" + part;
        }
        f' := PushInCurrentSpan(ctx, f', lineNumber, Plain(part));
        i := i + 1;
      }
    }

    /** The loop over the tokens of one string. */
    method PushAll(f: Frame, tokens: seq<string>) returns (f': Frame)
      modifies this
      ensures (f', lineNumber) == PushTokens(ctx, f, old(lineNumber), tokens)
    {
      f' := f;
      var j := 0;
      while j < |tokens|
        invariant 0 <= j <= |tokens|
        invariant PushTokens(ctx, f', lineNumber, tokens[j..]) == PushTokens(ctx, f, old(lineNumber), tokens)
        decreases |tokens| - j
      {
        assert tokens[j..][1..] == tokens[j + 1..];
        f' := PushToken(f', tokens[j]);
        j := j + 1;
      }
    }

    /** The body of `processChildrenArray` once `children` is an array: the
        loop over the children, then the identifier left open. */
    method ProcessArray(nodes: seq<Node>) returns (r: Result<Kids>)
      modifies this
      ensures match ProcessList(ctx, nodes, old(lineNumber))
        case Ok((k, line)) => r == Ok(k) && lineNumber == line
        case Err(e) => r == Err(e)
      decreases SizeList(nodes), 1
    {
      var f := Fresh;
      var i := 0;
      ghost var line0 := lineNumber;
      while i < |nodes|
        invariant 0 <= i <= |nodes|
        invariant Fold(ctx, f, lineNumber, nodes[i..]) == Fold(ctx, Fresh, line0, nodes)
        decreases |nodes| - i
      {
        var child := nodes[i];
        assert nodes[i..][1..] == nodes[i + 1..];
        SizeListElem(nodes, i);
        match child {
          case Str(s) =>
            var tokens := Tokenize(s);
            f := PushAll(f, tokens);
          case Elem(tag, props, kids) =>
            if IsHighlightSpan(child) {
              f := StartSpan(f, props);
              var tokens := Tokenize(kids.s);
              f := PushAll(f, tokens);
              f := CloseSpan(f);
            } else {
              f := FinishCurrentIdentifier(ctx, f, lineNumber);
              var k := ProcessChildrenArray(kids);
              if k.Err? {
                return Err(k.child);
              }
              f := f.(out := f.out + [Clone(|f.out|, tag, props, k.value)]);
            }
          case _ =>
            return Err(child);
        }
        i := i + 1;
      }
      f := FinishCurrentIdentifier(ctx, f, lineNumber);
      return Ok(New(f.out));
    }

    /** `processChildrenArray`: a falsy value that is not an array is given
        back as it is; any other value that is not an array is processed as
        an array of one. */
    method ProcessChildrenArray(children: Node) returns (r: Result<Kids>)
      modifies this
      ensures match Process(ctx, children, old(lineNumber))
        case Ok((k, line)) => r == Ok(k) && lineNumber == line
        case Err(e) => r == Err(e)
      decreases Size(children), 2
    {
      if !children.Arr? {
        if IsFalsy(children) {
          return Ok(Same(children));
        }
        SizeListOne(children);
        r := ProcessArray([children]);
        return;
      }
      r := ProcessArray(children.items);
    }
  }

  lemma {:induction false} SizeListElem(ns: seq<Node>, i: nat)
    requires i < |ns|
    ensures Size(ns[i]) <= SizeList(ns)
  {
    if i > 0 {
      SizeListElem(ns[1..], i - 1);
    }
  }

  /** The pass over a code block's children, the line number starting at 1.
      It succeeds exactly on acceptable children and otherwise names a child
      it met in the input that is neither a string nor an element; falsy
      children that are not an array come back untouched. Every element that
      is not a highlight span is copied in its place among the text, holding
      its own children processed from the line the pass had reached. On success the pieces show the
      input's text in order, each tagged with the line it is on (counting from
      1) and blurred exactly when that line is out of focus; identifiers are
      merged and cut as `Render` says and link exactly when the table has a
      non-empty entry for them; and every key is its index. */
  function LinkifiedChildren(links: map<string, string>, focusLines: Option<seq<int>>, children: Node): (r: Result<Kids>)
    ensures r.Ok? <==> LinkifyStructure.ValidKids(children)
    ensures r.Err? ==> LinkifyStructure.BadChild(r.child) && LinkifyStructure.MetIn(r.child, children)
    ensures !children.Arr? && IsFalsy(children) ==> r == Ok(Same(children))
    ensures r.Ok? && (children.Arr? || !IsFalsy(children)) ==>
      && r.value.New?
      && LinkifyStructure.OutLayout(r.value.items)
         == LinkifyStructure.InLayout(Ctx(links, focusLines), LinkifyStructure.NoLayout, 1, LinkifyStructure.Items(children))
    ensures r.Ok? ==>
      && KidsKeyed(r.value)
      && PiecesText(KidsPieces(r.value)) == TextIn(children)
      && LinkifyText.LinesCounted(KidsPieces(r.value), 1)
      && LinkifyText.AllGood(Ctx(links, focusLines), KidsPieces(r.value))
      && LinkifyShape.Shapes(KidsPieces(r.value)) == LinkifyShape.Render(LinkifyShape.KidsStream(children), "")
  {
    var ctx := Ctx(links, focusLines);
    LinkifyStructure.ProcessValid(ctx, children, 1);
    match Process(ctx, children, 1)
    case Ok((k, _)) =>
      LinkifyStructure.ProcessLayout(ctx, children, 1);
      LinkifyText.ProcessIsFaithful(ctx, children, 1);
      LinkifyShape.ProcessShape(ctx, children, 1);
      Ok(k)
    case Err(e) => Err(e)
  }

  /** `newChildren`, the memoised result the `Code` component renders inside
      its `code` element. */
  method RenderCode(links: map<string, string>, focusLines: Option<seq<int>>, children: Node) returns (r: Result<Kids>)
    ensures r == LinkifiedChildren(links, focusLines, children)
  {
    var pass := new CodePass(links, focusLines);
    r := pass.ProcessChildrenArray(children);
  }
}
