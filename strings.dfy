/** String helpers the pass relies on: joining, counting line feeds and
    splitting on line feeds the way `String.prototype.split('\n')` does. */
module Strings {

  /** The number of line feeds in `s`. */
  function Newlines(s: string): nat
  {
    multiset(s)['\n']
  }

  /** `ss.join('')`: the strings one after another. */
  function Concat(ss: seq<string>): string
  {
    if ss == [] then "" else ss[0] + Concat(ss[1..])
  }

  lemma {:induction false} ConcatAppend(a: seq<string>, b: seq<string>)
    ensures Concat(a + b) == Concat(a) + Concat(b)
  {
    if a == [] {
      assert a + b == b;
    } else {
      assert (a + b)[1..] == a[1..] + b;
      ConcatAppend(a[1..], b);
    }
  }

  /** `parts.join('\n')`. */
  function JoinLines(parts: seq<string>): string
  {
    if parts == [] then ""
    else if |parts| == 1 then parts[0]
    else parts[0] + "\n" + JoinLines(parts[1..])
  }

  /** Joining one more part adds a line feed and that part at the end. */
  lemma {:induction false} JoinLinesSnoc(parts: seq<string>, n: nat)
    requires 1 <= n < |parts|
    ensures JoinLines(parts[..n + 1]) == JoinLines(parts[..n]) + "\n" + parts[n]
  {
    if n == 1 {
      assert parts[..2][1..] == [parts[1]];
    } else {
      assert parts[..n + 1][1..] == parts[1..][..n];
      assert parts[..n][1..] == parts[1..][..n - 1];
      JoinLinesSnoc(parts[1..], n - 1);
    }
  }

  /** Concatenation of sequences is associative. */
  lemma Assoc<T>(a: seq<T>, b: seq<T>, c: seq<T>)
    ensures a + b + c == a + (b + c)
  {
  }

  lemma NewlinesAppend(a: string, b: string)
    ensures Newlines(a + b) == Newlines(a) + Newlines(b)
  {
    assert multiset(a + b) == multiset(a) + multiset(b);
  }

  /** `s.split('\n')`: the pieces of `s` between line feeds, at least one, and
      the empty string once more for every line feed at an end or next to another. */
  function SplitLines(s: string): (parts: seq<string>)
    ensures SplitOf(s, parts)
  {
    if s == "" then [""]
    else
      var rest := SplitLines(s[1..]);
      if s[0] == '\n' then
        SplitLinesBreak(s, rest);
        [""] + rest
      else
        SplitLinesExtend(s, rest);
        [[s[0]] + rest[0]] + rest[1..]
  }

  /** `parts` is the split of `s` at its line feeds: one more part than there
      are line feeds, no part holds a line feed, joining the parts with line
      feeds gives `s` back, and every character of a part comes from `s`. */
  predicate SplitOf(s: string, parts: seq<string>)
  {
    && |parts| == Newlines(s) + 1
    && (forall i :: 0 <= i < |parts| ==> '\n' !in parts[i])
    && JoinLines(parts) == s
    && (forall i, c :: 0 <= i < |parts| && c in parts[i] ==> c in s)
  }

  lemma SplitLinesBreak(s: string, rest: seq<string>)
    requires s != "" && s[0] == '\n' && SplitOf(s[1..], rest)
    ensures SplitOf(s, [""] + rest)
  {
    var parts := [""] + rest;
    assert parts[1..] == rest;
    assert s == [s[0]] + s[1..];
    NewlinesAppend([s[0]], s[1..]);
    assert forall i :: 1 <= i < |parts| ==> parts[i] == rest[i - 1];
  }

  lemma SplitLinesExtend(s: string, rest: seq<string>)
    requires s != "" && s[0] != '\n' && SplitOf(s[1..], rest)
    ensures SplitOf(s, [[s[0]] + rest[0]] + rest[1..])
  {
    var parts := [[s[0]] + rest[0]] + rest[1..];
    assert s == [s[0]] + s[1..];
    NewlinesAppend([s[0]], s[1..]);
    if |rest| > 1 {
      assert parts[1..] == rest[1..];
    }
    assert forall i :: 1 <= i < |parts| ==> parts[i] == rest[i];
  }
}
