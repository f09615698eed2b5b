/** The trees the code block works on: the children Highlight.js produced
    (the input) and the children the block renders (the output), with the text
    each of them shows. */
module Markup {

  datatype Option<T> = None | Some(value: T)

  /** The props of an element other than `children` and `key` (its
      `className` among them). The pass copies them and never looks inside. */
  type Props = map<string, string>

  /** A React node as the pass sees it. */
  datatype Node =
      /** A string child. */
    | Str(s: string)
      /** A valid React element; `tag` is its type and `children` its `props.children`. */
    | Elem(tag: string, props: Props, children: Node)
      /** An array of children. */
    | Arr(items: seq<Node>)
      /** `null`, `undefined`, `false`, `0` or `NaN`. */
    | Falsy
      /** Any other value: `true`, a non-zero number, an object that is not an element. */
    | Other

  /** The values JavaScript treats as false; the empty string is one of them. */
  predicate IsFalsy(n: Node)
  {
    n.Falsy? || n == Str("")
  }

  /** A highlight span: a `span` element whose children is a single string. */
  predicate IsHighlightSpan(n: Node)
  {
    n.Elem? && n.tag == "span" && n.children.Str?
  }

  /** What a rendered piece holds: plain text, or a `CodeLink` to `href`
      around the text (the link icon it also draws shows no text). */
  datatype Content = Plain(text: string) | Link(href: string, text: string)

  /** A child of the rendered output. */
  datatype Out =
      /** A `span` holding one piece of text: a copy of the highlight span
          `span` when there is one, a fresh `span` otherwise; `line` is its
          `data-line` and `blurred` says whether the blurred-line class was
          added to its class name. */
    | Piece(key: nat, span: Option<Props>, line: nat, blurred: bool, content: Content)
      /** A copy of an element that is not a highlight span, with new children. */
    | Clone(key: nat, tag: string, props: Props, children: Kids)

  /** The `children` the pass gives back: the input itself when it was falsy
      and not an array, or a new array. */
  datatype Kids = Same(n: Node) | New(items: seq<Out>)

  /** A measure of a node that shrinks from a node to anything it holds. */
  function Size(n: Node): (r: nat)
    ensures r >= 1
  {
    match n
    case Elem(_, _, c) => 1 + Size(c)
    case Arr(ns) => 1 + SizeList(ns)
    case _ => 1
  }

  function SizeList(ns: seq<Node>): nat
  {
    if ns == [] then 0 else Size(ns[0]) + SizeList(ns[1..])
  }

  lemma SizeListOne(n: Node)
    ensures SizeList([n]) == Size(n)
  {
    assert [n][1..] == [];
  }

  /** The text a node shows, read leaf by leaf in order. */
  function TextIn(n: Node): string
  {
    match n
    case Str(s) => s
    case Elem(_, _, c) => TextIn(c)
    case Arr(ns) => TextList(ns)
    case _ => ""
  }

  function TextList(ns: seq<Node>): string
  {
    if ns == [] then "" else TextIn(ns[0]) + TextList(ns[1..])
  }

  function ContentText(c: Content): string
  {
    c.text
  }

  /** The pieces of the output in reading order, looking through copied elements. */
  function PiecesOf(o: Out): seq<Out>
  {
    match o
    case Piece(_, _, _, _, _) => [o]
    case Clone(_, _, _, New(items)) => Pieces(items)
    case Clone(_, _, _, Same(_)) => []
  }

  function Pieces(outs: seq<Out>): seq<Out>
  {
    if outs == [] then [] else PiecesOf(outs[0]) + Pieces(outs[1..])
  }

  function KidsPieces(k: Kids): seq<Out>
  {
    if k.New? then Pieces(k.items) else []
  }

  /** The text of a run of pieces, one after another. */
  function PiecesText(ps: seq<Out>): string
  {
    if ps == [] then ""
    else (if ps[0].Piece? then ContentText(ps[0].content) else "") + PiecesText(ps[1..])
  }

  lemma {:induction false} PiecesAppend(a: seq<Out>, b: seq<Out>)
    ensures Pieces(a + b) == Pieces(a) + Pieces(b)
  {
    if a == [] {
      assert a + b == b;
    } else {
      assert (a + b)[1..] == a[1..] + b;
      PiecesAppend(a[1..], b);
    }
  }

  lemma {:induction false} PiecesTextAppend(a: seq<Out>, b: seq<Out>)
    ensures PiecesText(a + b) == PiecesText(a) + PiecesText(b)
  {
    if a == [] {
      assert a + b == b;
    } else {
      assert (a + b)[1..] == a[1..] + b;
      PiecesTextAppend(a[1..], b);
    }
  }

  /** Every output child's `key` is its index in its array, at every depth. */
  predicate WellKeyed(outs: seq<Out>)
  {
    forall i :: 0 <= i < |outs| ==> outs[i].key == i && KeyedBelow(outs[i])
  }

  predicate KeyedBelow(o: Out)
  {
    o.Clone? && o.children.New? ==> WellKeyed(o.children.items)
  }

  predicate KidsKeyed(k: Kids)
  {
    k.New? ==> WellKeyed(k.items)
  }
}
