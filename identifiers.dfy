/** What the code block treats as a JavaScript identifier, and how it cuts a
    string into identifiers and the text between them (`isIdentifier` and
    `tokenize` in apps/docs/components/content/code.tsx).

    Both use the pattern `[_$a-zA-Z\xA0-\uFFFF][_$a-zA-Z0-9\xA0-\uFFFF]*`.
    JavaScript strings are UTF-16, so a character outside the Basic
    Multilingual Plane is a surrogate pair whose two halves both lie in
    `\xA0-\uFFFF`; over Unicode scalar values the class is therefore exactly
    "code point at least U+00A0". */
module Identifiers {
  import opened Strings

  /** A character an identifier may begin with. */
  predicate IsIdentStart(c: char)
  {
    c == '_' || c == '$' || ('a' <= c <= 'z') || ('A' <= c <= 'Z') || c as int >= 0xA0
  }

  /** A character an identifier may continue with: a start character or a digit. */
  predicate IsIdentContinue(c: char)
  {
    IsIdentStart(c) || ('0' <= c <= '9')
  }

  /** Where the global pattern finds its next match when the search resumes at
      `from`: the leftmost identifier-start character at or after `from`, or
      `|code|` when there is none. */
  function NextMatch(code: string, from: nat): (i: nat)
    requires from <= |code|
    ensures from <= i <= |code|
    ensures i < |code| ==> IsIdentStart(code[i])
    ensures forall k :: from <= k < i ==> !IsIdentStart(code[k])
    decreases |code| - from
  {
    if from == |code| || IsIdentStart(code[from]) then from else NextMatch(code, from + 1)
  }

  /** Where a match that begins at `start` ends: the greedy `*` takes every
      continue character that follows. */
  function MatchEnd(code: string, start: nat): (e: nat)
    requires start < |code|
    ensures start < e <= |code|
    ensures forall k :: start < k < e ==> IsIdentContinue(code[k])
    ensures e < |code| ==> !IsIdentContinue(code[e])
    decreases |code| - start
  {
    if start + 1 == |code| || !IsIdentContinue(code[start + 1]) then start + 1
    else MatchEnd(code, start + 1)
  }

  /** `isIdentifier`: the anchored pattern `^...$` matches the whole token. */
  function IsIdentifier(t: string): (b: bool)
    ensures b <==> |t| > 0 && IsIdentStart(t[0]) && forall i :: 1 <= i < |t| ==> IsIdentContinue(t[i])
  {
    |t| > 0 && IsIdentStart(t[0]) && MatchEnd(t, 0) == |t|
  }

  /** Text between identifiers: non-empty, with no identifier-start character. */
  predicate IsGap(t: string)
  {
    t != [] && forall i :: 0 <= i < |t| ==> !IsIdentStart(t[i])
  }

  /** `t` is non-empty and begins with a character an identifier could continue with. */
  predicate BeginsWithContinue(t: string)
  {
    t != [] && IsIdentContinue(t[0])
  }

  /** `toks` cuts `code` into maximal identifiers and the gaps between them:
      the pieces give back `code`, each is an identifier or a gap, identifiers
      and gaps alternate, and no identifier could have been extended into the
      piece after it. */
  predicate IsTokenSplit(code: string, toks: seq<string>)
  {
    && Concat(toks) == code
    && (forall i :: 0 <= i < |toks| ==> IsIdentifier(toks[i]) || IsGap(toks[i]))
    && (forall i :: 0 <= i < |toks| - 1 ==> IsIdentifier(toks[i]) != IsIdentifier(toks[i + 1]))
    && (forall i :: 0 <= i < |toks| - 1 && IsIdentifier(toks[i]) ==> !BeginsWithContinue(toks[i + 1]))
  }

  /** The tokens `tokenize` produces from the search position `cur` on: for
      each match, the gap before it (when there is one) and the match; then
      whatever follows the last match. */
  function TokensFrom(code: string, cur: nat): seq<string>
    requires cur <= |code|
    decreases |code| - cur
  {
    var idx := NextMatch(code, cur);
    if idx < |code| then
      var end := MatchEnd(code, idx);
      (if idx > cur then [code[cur..idx]] else []) + [code[idx..end]] + TokensFrom(code, end)
    else if cur < |code| then [code[cur..]]
    else []
  }

  /** `tokenize(code)`. */
  function Tokens(code: string): seq<string>
  {
    TokensFrom(code, 0)
  }

  /** `tokenize`: walks the matches of the identifier pattern, pushing the gap
      before each match, the match itself, and finally the text after the last
      match. */
  method Tokenize(code: string) returns (tokens: seq<string>)
    ensures tokens == Tokens(code)
    ensures IsTokenSplit(code, tokens)
  {
    var currentIdx := 0;
    tokens := [];
    var idx := NextMatch(code, currentIdx);
    while idx < |code|
      invariant currentIdx <= idx <= |code|
      invariant idx == NextMatch(code, currentIdx)
      invariant tokens + TokensFrom(code, currentIdx) == Tokens(code)
      decreases |code| - currentIdx
    {
      var end := MatchEnd(code, idx);
      var pushed := (if idx > currentIdx then [code[currentIdx..idx]] else []) + [code[idx..end]];
      assert TokensFrom(code, currentIdx) == pushed + TokensFrom(code, end);
      assert (tokens + pushed) + TokensFrom(code, end) == tokens + TokensFrom(code, currentIdx);
      tokens := tokens + pushed;
      currentIdx := end;
      idx := NextMatch(code, currentIdx);
    }
    assert TokensFrom(code, currentIdx) == if currentIdx < |code| then [code[currentIdx..]] else [];
    if currentIdx < |code| {
      tokens := tokens + [code[currentIdx..]];
    }
    TokensAreSplit(code);
  }

  /** A gap is never an identifier. */
  lemma GapIsNotIdentifier(t: string)
    requires IsGap(t)
    ensures !IsIdentifier(t)
  {
    assert !IsIdentStart(t[0]);
  }

  /** One more token in front of a split gives a split of the longer string. */
  lemma {:induction false} SplitCons(t: string, s: string, rest: seq<string>)
    requires IsIdentifier(t) || IsGap(t)
    requires IsTokenSplit(s, rest)
    requires rest != [] ==> IsIdentifier(t) != IsIdentifier(rest[0])
    requires rest != [] && IsIdentifier(t) ==> !BeginsWithContinue(rest[0])
    ensures IsTokenSplit(t + s, [t] + rest)
  {
    var toks := [t] + rest;
    assert toks[1..] == rest;
    assert forall i :: 1 <= i < |toks| ==> toks[i] == rest[i - 1];
  }

  /** A maximal identifier in front of a split of what follows it. */
  lemma IdentThenSplit(code: string, idx: nat, end: nat, rest: seq<string>)
    requires idx < end <= |code| && IsIdentifier(code[idx..end])
    requires end < |code| ==> !IsIdentContinue(code[end])
    requires IsTokenSplit(code[end..], rest)
    requires end == |code| ==> rest == []
    requires end < |code| ==> rest != [] && rest[0] != [] && rest[0][0] == code[end]
    ensures IsTokenSplit(code[idx..], [code[idx..end]] + rest)
  {
    var ident := code[idx..end];
    if end < |code| {
      assert !IsIdentStart(code[end]);
      GapIsNotIdentifierAt(rest[0]);
    }
    assert code[idx..] == ident + code[end..];
    SplitCons(ident, code[end..], rest);
  }

  /** A gap in front of a split that begins with an identifier. */
  lemma GapThenSplit(code: string, cur: nat, idx: nat, toks: seq<string>)
    requires cur < idx < |code|
    requires forall k :: cur <= k < idx ==> !IsIdentStart(code[k])
    requires IsTokenSplit(code[idx..], toks)
    requires toks != [] && IsIdentifier(toks[0])
    ensures IsTokenSplit(code[cur..], [code[cur..idx]] + toks)
  {
    var gap := code[cur..idx];
    assert IsGap(gap);
    GapIsNotIdentifier(gap);
    assert code[cur..] == gap + code[idx..];
    SplitCons(gap, code[idx..], toks);
  }

  /** The tokens from `cur` on split `code[cur..]`; the first of them begins
      at `cur`, and it is an identifier exactly when `code[cur]` can begin one. */
  predicate SplitFrom(code: string, cur: nat)
    requires cur <= |code|
  {
    && IsTokenSplit(code[cur..], TokensFrom(code, cur))
    && (cur < |code| ==>
      && TokensFrom(code, cur) != []
      && TokensFrom(code, cur)[0] != []
      && TokensFrom(code, cur)[0][0] == code[cur]
      && (IsIdentifier(TokensFrom(code, cur)[0]) <==> IsIdentStart(code[cur])))
  }

  /** The step of `TokensFromSplit` when a match lies ahead. */
  lemma MatchSplitFrom(code: string, cur: nat)
    requires cur <= |code| && NextMatch(code, cur) < |code|
    requires SplitFrom(code, MatchEnd(code, NextMatch(code, cur)))
    ensures SplitFrom(code, cur)
  {
    var idx := NextMatch(code, cur);
    var end := MatchEnd(code, idx);
    var rest := TokensFrom(code, end);
    var ident := code[idx..end];
    IdentThenSplit(code, idx, end, rest);
    if idx > cur {
      var gap := code[cur..idx];
      GapThenSplit(code, cur, idx, [ident] + rest);
      assert [gap] + [ident] + rest == [gap] + ([ident] + rest);
      assert TokensFrom(code, cur) == [gap] + ([ident] + rest);
    } else {
      assert [] + [ident] + rest == [ident] + rest;
      assert TokensFrom(code, cur) == [ident] + rest;
    }
  }

  /** The step of `TokensFromSplit` when no match lies ahead. */
  lemma NoMatchSplitFrom(code: string, cur: nat)
    requires cur <= |code| && NextMatch(code, cur) == |code|
    ensures SplitFrom(code, cur)
  {
    if cur < |code| {
      var gap := code[cur..];
      assert IsGap(gap);
      GapIsNotIdentifier(gap);
      assert [gap] == [gap] + [];
    }
  }

  lemma {:induction false} TokensFromSplit(code: string, cur: nat)
    requires cur <= |code|
    ensures SplitFrom(code, cur)
    decreases |code| - cur
  {
    var idx := NextMatch(code, cur);
    if idx < |code| {
      TokensFromSplit(code, MatchEnd(code, idx));
      MatchSplitFrom(code, cur);
    } else {
      NoMatchSplitFrom(code, cur);
    }
  }

  /** A token that does not begin with an identifier-start character is not an identifier. */
  lemma GapIsNotIdentifierAt(t: string)
    requires t != [] && !IsIdentStart(t[0])
    ensures !IsIdentifier(t)
  {
  }

  /** `tokenize` cuts its input into maximal identifiers and gaps: joining the
      tokens gives the input back, none is empty, identifiers and gaps
      alternate, and each identifier is as long as the pattern allows. */
  lemma TokensAreSplit(code: string)
    ensures IsTokenSplit(code, Tokens(code))
  {
    TokensFromSplit(code, 0);
    assert code[0..] == code;
  }

  /** The first token of a split, and what the split says about the rest. */
  lemma SplitTail(code: string, toks: seq<string>)
    requires IsTokenSplit(code, toks) && toks != []
    ensures IsIdentifier(toks[0]) || IsGap(toks[0])
    ensures 0 < |toks[0]| <= |code| && code[..|toks[0]|] == toks[0]
    ensures IsTokenSplit(code[|toks[0]|..], toks[1..])
    ensures |toks[0]| == |code| <==> |toks| == 1
    ensures |toks| > 1 ==> toks[1] != [] && toks[1][0] == code[|toks[0]|]
    ensures |toks| > 1 ==> IsIdentifier(toks[0]) != IsIdentifier(toks[1])
    ensures |toks| > 1 && IsIdentifier(toks[0]) ==> !IsIdentContinue(toks[1][0])
  {
    assert code == toks[0] + Concat(toks[1..]);
    assert code[|toks[0]|..] == Concat(toks[1..]);
    forall i | 0 <= i < |toks[1..]| - 1
      ensures IsIdentifier(toks[1..][i]) != IsIdentifier(toks[1..][i + 1])
    {
      assert toks[1..][i] == toks[i + 1] && toks[1..][i + 1] == toks[i + 2];
    }
    if |toks| > 1 {
      assert toks[1..] == [toks[1]] + toks[2..];
      assert IsIdentifier(toks[1]) || IsGap(toks[1]);
      assert Concat(toks[1..]) == toks[1] + Concat(toks[2..]);
    }
  }

  /** Only one split point satisfies the greedy match's description. */
  lemma MatchEndUnique(code: string, start: nat, e: nat)
    requires start < e <= |code|
    requires forall k :: start < k < e ==> IsIdentContinue(code[k])
    requires e < |code| ==> !IsIdentContinue(code[e])
    ensures MatchEnd(code, start) == e
  {
  }

  /** Only one position satisfies the leftmost search's description. */
  lemma NextMatchUnique(code: string, from: nat, i: nat)
    requires from <= i <= |code|
    requires i < |code| ==> IsIdentStart(code[i])
    requires forall k :: from <= k < i ==> !IsIdentStart(code[k])
    ensures NextMatch(code, from) == i
  {
  }

  /** Any split of `code[cur..]` into maximal identifiers and gaps is the one
      `tokenize` produces from `cur`. */
  lemma {:induction false} TokensFromUnique(code: string, cur: nat, toks: seq<string>)
    requires cur <= |code|
    requires IsTokenSplit(code[cur..], toks)
    ensures toks == TokensFrom(code, cur)
    decreases |code| - cur
  {
    if toks == [] {
      assert |code[cur..]| == 0;
      NextMatchUnique(code, cur, |code|);
    } else {
      var t := toks[0];
      SplitTail(code[cur..], toks);
      var next := cur + |t|;
      assert code[cur..][|t|..] == code[next..];
      assert code[cur..next] == t;
      TokensFromUnique(code, next, toks[1..]);
      if IsIdentifier(t) {
        UniqueAtIdentifier(code, cur, next);
      } else if next < |code| {
        UniqueAtGap(code, cur, next);
      } else {
        assert forall k :: cur <= k < next ==> code[k] == t[k - cur];
        assert IsGap(t);
        assert next == |code|;
        NextMatchUnique(code, cur, |code|);
        assert |toks| == 1;
        assert t == code[cur..];
        assert TokensFrom(code, cur) == [code[cur..]];
        assert toks == [t];
      }
      assert toks == [t] + toks[1..];
    }
  }

  lemma UniqueAtIdentifier(code: string, cur: nat, next: nat)
    requires cur < next <= |code| && IsIdentifier(code[cur..next])
    requires next < |code| ==> !IsIdentContinue(code[next])
    ensures TokensFrom(code, cur) == [code[cur..next]] + TokensFrom(code, next)
  {
    assert forall k :: cur < k < next ==> code[k] == code[cur..next][k - cur];
    NextMatchUnique(code, cur, cur);
    MatchEndUnique(code, cur, next);
  }

  lemma UniqueAtGap(code: string, cur: nat, next: nat)
    requires cur < next < |code| && IsGap(code[cur..next]) && IsIdentStart(code[next])
    ensures TokensFrom(code, cur) == [code[cur..next]] + TokensFrom(code, next)
  {
    assert forall k :: cur <= k < next ==> code[k] == code[cur..next][k - cur];
    NextMatchUnique(code, cur, next);
    NextMatchUnique(code, next, next);
    var end := MatchEnd(code, next);
    assert TokensFrom(code, next) == [code[next..end]] + TokensFrom(code, end);
  }

  /** `tokenize` is characterised by what it promises: a split of the code into
      maximal identifiers and gaps is exactly its output. */
  lemma TokensUnique(code: string, toks: seq<string>)
    requires IsTokenSplit(code, toks)
    ensures toks == Tokens(code)
  {
    assert code[0..] == code;
    TokensFromUnique(code, 0, toks);
  }
}
