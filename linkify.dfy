/** The linkifying and line-tagging pass of the `Code` component
    (apps/docs/components/content/code.tsx), as functions that thread the
    pass's state: the frame of one call of `processChildrenArray` and the
    line number that all calls share. */
module Linkify {
  import opened Strings
  import opened Identifiers
  import opened Markup

  /** What the pass reads from its React contexts: the links table and the
      focus lines (`null` when no `FocusLines` provider is above). */
  datatype Ctx = Ctx(links: map<string, string>, focusLines: Option<seq<int>>)

  /** The outcome of the pass: the new children, or the child that made it
      throw `Invalid code child`. */
  datatype Result<T> = Ok(value: T) | Err(child: Node)

  /** `getOwnProperty(codeLinks, name)` gives a truthy value: the table maps
      the name to a non-empty string. */
  predicate HasLink(links: map<string, string>, name: string)
  {
    name in links && links[name] != ""
  }

  /** A line is blurred when there are focus lines and it is not one of them;
      an empty list of focus lines is still a list, so it blurs every line. */
  predicate IsBlurred(focusLines: Option<seq<int>>, line: nat)
  {
    focusLines.Some? && line !in focusLines.value
  }

  /** What a finished identifier becomes: a link when the table has one for it. */
  function IdentContent(ctx: Ctx, name: string): Content
  {
    if HasLink(ctx.links, name) then Link(ctx.links[name], name) else Plain(name)
  }

  /** The local state of one call of `processChildrenArray`: the children
      built so far, `lastSeenHighlightSpan` (its props), `currentIdentifier`
      (`""` standing for `null`; an identifier is never empty) and
      `isCurrentSpanClosed`. */
  datatype Frame = Frame(out: seq<Out>, lastSpan: Option<Props>, current: string, spanClosed: bool)

  const Fresh: Frame := Frame([], None, "", false)

  /** `startSpan`. */
  function StartSpan(f: Frame, props: Props): Frame
  {
    f.(lastSpan := Some(props), spanClosed := false)
  }

  /** `closeSpan`: the span is forgotten at once unless an identifier is still open. */
  function CloseSpan(f: Frame): Frame
  {
    f.(spanClosed := true, lastSpan := if f.current == "" then None else f.lastSpan)
  }

  /** `pushInCurrentSpan`: one more piece, tagged with the current line. */
  function PushInCurrentSpan(ctx: Ctx, f: Frame, line: nat, c: Content): Frame
  {
    f.(out := f.out + [Piece(|f.out|, f.lastSpan, line, IsBlurred(ctx.focusLines, line), c)])
  }

  /** `finishCurrentIdentifier`: emits the identifier built up so far, if any,
      and forgets a span that has already closed. */
  function FinishCurrentIdentifier(ctx: Ctx, f: Frame, line: nat): Frame
  {
    var f1 := if f.current != "" then PushInCurrentSpan(ctx, f, line, IdentContent(ctx, f.current)).(current := "") else f;
    if f1.spanClosed then f1.(lastSpan := None) else f1
  }

  /** The text the `i`-th line part is pushed with: every part after the first
      gets back the line feed the split removed. */
  function LinePart(parts: seq<string>, i: nat): string
    requires i < |parts|
  {
    if i == 0 then parts[0] else "\n" + parts[i]
  }

  /** The loop over `token.split('\n')` from part `i` on. */
  function PushLineParts(ctx: Ctx, f: Frame, line: nat, parts: seq<string>, i: nat): (Frame, nat)
    requires i <= |parts|
    decreases |parts| - i
  {
    if i == |parts| then (f, line)
    else
      var line' := if i > 0 then line + 1 else line;
      PushLineParts(ctx, PushInCurrentSpan(ctx, f, line', Plain(LinePart(parts, i))), line', parts, i + 1)
  }

  /** `pushToken`: an identifier is appended to the current identifier; any
      other token finishes it and is pushed line by line. */
  function PushToken(ctx: Ctx, f: Frame, line: nat, token: string): (Frame, nat)
  {
    if IsIdentifier(token) then (f.(current := f.current + token), line)
    else PushLineParts(ctx, FinishCurrentIdentifier(ctx, f, line), line, SplitLines(token), 0)
  }

  function PushTokens(ctx: Ctx, f: Frame, line: nat, toks: seq<string>): (Frame, nat)
    decreases |toks|
  {
    if toks == [] then (f, line)
    else
      var (f1, line1) := PushToken(ctx, f, line, toks[0]);
      PushTokens(ctx, f1, line1, toks[1..])
  }

  /** One pass of the loop over the children. */
  function Step(ctx: Ctx, f: Frame, line: nat, child: Node): Result<(Frame, nat)>
    decreases Size(child), 0
  {
    match child
    case Str(s) => Ok(PushTokens(ctx, f, line, Tokens(s)))
    case Elem(tag, props, kids) =>
      if IsHighlightSpan(child) then
        var (f1, line1) := PushTokens(ctx, StartSpan(f, props), line, Tokens(kids.s));
        Ok((CloseSpan(f1), line1))
      else
        var f1 := FinishCurrentIdentifier(ctx, f, line);
        (match Process(ctx, kids, line)
         case Err(e) => Err(e)
         case Ok((k, line1)) => Ok((f1.(out := f1.out + [Clone(|f1.out|, tag, props, k)]), line1)))
    case _ => Err(child)
  }

  function Fold(ctx: Ctx, f: Frame, line: nat, nodes: seq<Node>): Result<(Frame, nat)>
    decreases SizeList(nodes), 1
  {
    if nodes == [] then Ok((f, line))
    else
      match Step(ctx, f, line, nodes[0])
      case Err(e) => Err(e)
      case Ok((f1, line1)) => Fold(ctx, f1, line1, nodes[1..])
  }

  /** `processChildrenArray` on an array: a fresh frame, the loop, and the
      identifier left open at the end. */
  function ProcessList(ctx: Ctx, nodes: seq<Node>, line: nat): Result<(Kids, nat)>
    decreases SizeList(nodes), 2
  {
    match Fold(ctx, Fresh, line, nodes)
    case Err(e) => Err(e)
    case Ok((f, line1)) => Ok((New(FinishCurrentIdentifier(ctx, f, line1).out), line1))
  }

  /** `processChildrenArray`: a falsy value that is not an array comes back
      as it is; any other single child is treated as an array of one. */
  function Process(ctx: Ctx, children: Node, line: nat): Result<(Kids, nat)>
    decreases Size(children), 3
  {
    if children.Arr? then ProcessList(ctx, children.items, line)
    else if IsFalsy(children) then Ok((Same(children), line))
    else
      SizeListOne(children);
      ProcessList(ctx, [children], line)
  }
}
