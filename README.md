# Linkified code blocks, in Dafny

This project models the pass that the documentation site's `Code` component
(`apps/docs/components/content/code.tsx`) runs over already-highlighted code
before it renders it. The pass:

- cuts each string into JavaScript-style identifiers and the gaps between them
  (`isIdentifier`, `tokenize`);
- merges identifier fragments that the highlighter split across adjacent
  tokens or highlight spans;
- wraps a merged identifier in a link when the links table has an entry for it;
- splits gap text at line feeds, keeping one line number that is shared by
  every recursive call;
- tags every piece it emits with that line, blurring it when the line is not
  a focus line;
- copies every element that is not a highlight span, with its own children
  processed the same way, and throws on any other child
  (`processChildrenArray` and its helpers `startSpan`, `closeSpan`,
  `pushInCurrentSpan`, `finishCurrentIdentifier`, `pushToken`).

The project has two layers:

- Functions that thread the pass's state explicitly (module `Linkify`). The
  frame holds the children built so far, the last highlight span, the open
  identifier and the span-closed flag; the line number travels beside it.
- A class `CodeBlock.CodePass` whose field `lineNumber` is the shared counter
  and whose methods run the source's loops. Each method is proved to compute
  exactly what the functions compute, so what is proved about the functions
  holds of it.

Modules:

- `Strings`: joining strings, counting line feeds, `split('\n')`.
- `Identifiers`: the identifier pattern, the tokenizer, and the proof that its
  output is the unique split into maximal identifiers and gaps.
- `Markup`: children trees and rendered output.
- `Linkify`: the pass as functions.
- `LinkifyText`: the text is preserved, lines are counted, and blur and links
  are set correctly; keys are indices.
- `LinkifyShape`: how the text is cut into pieces, stated against an
  independent reference, `Render`, over a token stream.
- `LinkifyStructure`: which inputs throw and which child the throw names, and
  where elements that are not highlight spans end up. Each copy holds its own
  element's children, processed from the line the pass had reached, and sits
  among the input's text where the element stood.
- `CodeBlock`: the imperative pass and its top-level call.

Characters are Unicode scalar values. The pattern's class `\xA0-\uFFFF` becomes
"code point at least U+00A0": a character outside the Basic Multilingual Plane
is a surrogate pair in JavaScript, and both of its halves lie in that range.

A link is made only when the table maps the name to a non-empty string. The
source tests the looked-up value for truthiness, so an entry holding `""` gives
plain text. The model follows that test rather than "the table has the name".

## Model

| member | source | states |
|---|---|---|
| Identifiers.IsIdentifier | apps/docs/components/content/code.tsx:79-81 | A token is an identifier exactly when it is non-empty, begins with `_`, `$`, an ASCII letter or a code point from U+00A0 on, and continues with such characters or digits. |
| Identifiers.NextMatch | apps/docs/components/content/code.tsx:85-91 | The global match search resumes at the leftmost identifier-start character at or after the search position, and finds nothing when there is none. |
| Identifiers.MatchEnd | apps/docs/components/content/code.tsx:85-96 | A match is greedy: it runs over every following continue character and stops at the first character that cannot continue it. |
| Identifiers.Tokenize | apps/docs/components/content/code.tsx:84-103 | The loop returns `Tokens(code)`. Its tokens join back to the input, none is empty, each is an identifier or a gap without identifier-start characters, identifiers and gaps alternate, and no identifier could be extended into the next token. |
| Identifiers.TokensAreSplit | apps/docs/components/content/code.tsx:84-103 | For every input, the tokens form a split into maximal identifiers and gaps. |
| Identifiers.TokensUnique | apps/docs/components/content/code.tsx:84-103 | Any split of the input into maximal identifiers and gaps equals the tokenizer's output, so the split characterises the tokenizer completely. |
| Strings.SplitLines | apps/docs/components/content/code.tsx:192 | `split('\n')` gives one more part than there are line feeds; no part holds a line feed; joining the parts with line feeds gives the input back; and every character of a part comes from the input. |
| LinkifyText.PushTokenOk | apps/docs/components/content/code.tsx:182-202 | For any identifier or gap token, `pushToken` keeps the pass invariant. The built pieces plus the open identifier spell the text read so far, followed by the token. The line number counts every line feed read. Pieces are keyed by index, their lines are counted, and their blur and link flags are correct. |
| LinkifyText.PushLinePartsOk | apps/docs/components/content/code.tsx:192-200 | Pushing the lines of a gap one by one adds the whole gap to the text read, and each line after the first moves the line number on by one. |
| LinkifyText.FinishOk | apps/docs/components/content/code.tsx:167-180 | `finishCurrentIdentifier` leaves no identifier open and keeps the invariant. The piece it adds has the identifier's text, and it is a link exactly when the table links that name. |
| LinkifyText.StepOk | apps/docs/components/content/code.tsx:204-228 | One pass of the loop over the children keeps the invariant and reads the child's whole text, for strings, highlight spans and copied elements alike. |
| LinkifyText.ProcessIsFaithful | apps/docs/components/content/code.tsx:109-233 | On success, the rendered pieces read in order show exactly the input's text, and the line number advances by its line feeds. Each piece's `data-line` is the first line plus the line feeds up to and including it. A piece is blurred exactly when its line is out of focus. A piece is a link exactly when its text is an identifier that the table links, and the href is that entry. Every key is the child's index. |
| LinkifyShape.PushTokenShape | apps/docs/components/content/code.tsx:182-202 | An identifier token is appended to the open identifier. A gap token first emits the open identifier, then one piece per line of the gap in the current span. Either way the frame stays in the span it was in. |
| LinkifyShape.StepShape | apps/docs/components/content/code.tsx:204-228 | Each kind of child contributes exactly what `Render` makes of its part of the token stream. Highlight spans do not finish the open identifier. A copied element finishes it before the copy. |
| LinkifyShape.ProcessShape | apps/docs/components/content/code.tsx:109-233 | The shapes of the rendered pieces equal `Render` of the input's token stream. Each maximal run of identifier tokens is one identifier piece with the merged name, including runs that cross highlight spans. A run is cut only by a gap, an element or the end of an array. Every gap line is one piece, drawn in the span the gap came from or in no span. |
| LinkifyShape.IdentifierTakesNextSpan | apps/docs/components/content/code.tsx:128-180 | On `<span>foo</span><span>()</span>`, `foo` is drawn with the second span's props, because the second span is started before its first token finishes `foo`. |
| LinkifyStructure.ProcessValid | apps/docs/components/content/code.tsx:109-228 | The pass succeeds exactly on acceptable children: strings, highlight spans, and other elements with acceptable children, inside an array or alone, or a falsy value. When it throws, the child it names is neither a string nor an element, and it is a child the loop met: one of the input's children, or a child of an element the pass recursed into. |
| LinkifyStructure.StepLayout | apps/docs/components/content/code.tsx:204-228 | One acceptable child never throws and moves the line on by the line feeds in its text. A string or a highlight span adds its text after the text read so far. Any other element adds one copy at that point, with the element's type and props and its own children processed from the line reached. |
| LinkifyStructure.ProcessListLayout | apps/docs/components/content/code.tsx:115-232 | For an array of acceptable children, the output is the input read child by child: the copies of the elements that are not highlight spans, in input order, each holding its own element's processed children, with exactly the input's text between consecutive copies and after the last one. |
| LinkifyStructure.ProcessLayout | apps/docs/components/content/code.tsx:109-113 | For acceptable children, a falsy value that is not an array comes back unchanged, and any other value is laid out as `ProcessListLayout` says for the array the pass loops over. |
| CodeBlock.CodePass.constructor | apps/docs/components/content/code.tsx:106 | A pass starts on line 1 with the links table and focus lines it is given. |
| CodeBlock.CodePass.PushToken | apps/docs/components/content/code.tsx:182-202 | The method's loop over the line parts updates the frame and the shared `lineNumber` exactly as `Linkify.PushToken` says. |
| CodeBlock.CodePass.PushAll | apps/docs/components/content/code.tsx:206-208 | The loop over a string's tokens computes `Linkify.PushTokens`. |
| CodeBlock.CodePass.ProcessArray | apps/docs/components/content/code.tsx:115-232 | The loop over the children returns what `Linkify.ProcessList` returns. On success it leaves `lineNumber` where the function's line ends, and on a bad child it returns the same error. |
| CodeBlock.CodePass.ProcessChildrenArray | apps/docs/components/content/code.tsx:109-113 | A falsy value that is not an array comes back unchanged. Any other value that is not an array is processed as an array of one. The result and the new `lineNumber` are those of `Linkify.Process`. |
| CodeBlock.LinkifiedChildren | apps/docs/components/content/code.tsx:109-235 | The pass from line 1 succeeds exactly on acceptable children, and a falsy non-array is returned as it is. A failure names a child the loop met that is neither a string nor an element. On success the text is preserved, lines are counted, blur and links are exact, keys are indices, and pieces are cut as `Render` says. Every element that is not a highlight span is copied where it stood, holding its own children processed from the line reached. |
| CodeBlock.RenderCode | apps/docs/components/content/code.tsx:235 | The imperative pass, started fresh on line 1, returns `LinkifiedChildren`, so it has all of that function's guarantees. |

## Left out

- React machinery is not modelled: contexts and providers, `useMemo`, `cloneElement`, `isValidElement` and the `<code>` wrapper (code.tsx:17-43 and 238). An element is a value with a tag, props and children. A copied element is a record of its key, tag, props and processed children.
- `CodeLink` and `LinkIcon` rendering is not modelled. A link is a value holding the href and the text.
- `cn` class merging is not modelled. A piece keeps the props of its highlight span and a separate `blurred` flag instead of a merged `className`.
- The error message is not modelled. A throw is `Err` carrying the offending child, because `JSON.stringify` of a React child is not modelled.
- The table lookup goes through a `map`. The own-property checks of `getOwnProperty` are not modelled.
- Pattern matching is on Unicode scalar values, not UTF-16 code units. Both give the same identifiers, because both halves of a surrogate pair are in the start class.
- `packages/tldraw/src/components/TopPanel/LanguageMenu/LanguageMenu.tsx` is not part of this model. It is a menu with no logic of its own.
- LinkifyShape.ProcessShape: does not state which span an identifier piece is drawn in. Only the concrete case `LinkifyShape.IdentifierTakesNextSpan` pins it down, because in general it depends on what follows the identifier.
