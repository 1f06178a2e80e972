/** The parts of Python's `str` that the shutdown effect relies on:
    `strip()`, `split()` (on runs of whitespace), `split(sep)` and the
    substring test `pat in s`. */
module PyText {

  /** Python's `str.isspace()` for one character: the characters that
      `strip()` and `split()` treat as whitespace. */
  predicate IsSpace(c: char)
  {
    || c == ' ' || c == '\t' || c == '\n' || c == '\r' || c == '\U{b}' || c == '\U{c}'
    || ('\U{1c}' <= c <= '\U{1f}')
    || c == '\U{85}' || c == '\U{a0}' || c == '\U{1680}'
    || ('\U{2000}' <= c <= '\U{200a}')
    || c == '\U{2028}' || c == '\U{2029}' || c == '\U{202f}' || c == '\U{205f}' || c == '\U{3000}'
  }

  predicate AllSpace(s: string)
  {
    forall i :: 0 <= i < |s| ==> IsSpace(s[i])
  }

  predicate NoSpace(s: string)
  {
    forall i :: 0 <= i < |s| ==> !IsSpace(s[i])
  }

  /** `s.lstrip()` */
  function StripStart(s: string): (r: string)
    ensures |r| <= |s|
  {
    if s != [] && IsSpace(s[0]) then StripStart(s[1..]) else s
  }

  /** `lstrip()` removes a run of whitespace from the front and nothing else. */
  lemma {:induction false} StripStartShape(s: string)
    ensures var r := StripStart(s);
      r == s[|s| - |r|..] && AllSpace(s[..|s| - |r|]) && (r == [] || !IsSpace(r[0]))
  {
    if s != [] && IsSpace(s[0]) {
      StripStartShape(s[1..]);
    }
  }

  /** `s.rstrip()` */
  function StripEnd(s: string): (r: string)
    ensures |r| <= |s|
  {
    if s != [] && IsSpace(s[|s| - 1]) then StripEnd(s[..|s| - 1]) else s
  }

  /** `rstrip()` removes a run of whitespace from the back and nothing else. */
  lemma {:induction false} StripEndShape(s: string)
    ensures var r := StripEnd(s);
      r == s[..|r|] && AllSpace(s[|r|..]) && (r == [] || !IsSpace(r[|r| - 1]))
  {
    if s != [] && IsSpace(s[|s| - 1]) {
      var t := s[..|s| - 1];
      StripEndShape(t);
      var r := StripEnd(t);
      assert s[|r|..] == t[|r|..] + [s[|s| - 1]];
    }
  }

  /** `strip()` keeps the slice of `s` between a leading and a trailing run
      of whitespace. */
  lemma StripIsSlice(s: string)
    ensures var r := StripEnd(StripStart(s));
      exists i, j :: 0 <= i <= j <= |s| && r == s[i..j] && AllSpace(s[..i]) && AllSpace(s[j..])
  {
    StripStartShape(s);
    var t := StripStart(s);
    var i := |s| - |t|;
    StripEndShape(t);
    var r := StripEnd(t);
    var j := i + |r|;
    SuffixSlices(s, i, |r|);
    assert r == s[i..j];
    assert AllSpace(s[j..]);
    assert 0 <= i <= j <= |s| && AllSpace(s[..i]);
  }

  /** The front and the back of a suffix of `s` are slices of `s`. */
  lemma SuffixSlices(s: string, i: nat, n: nat)
    requires i + n <= |s|
    ensures s[i..][..n] == s[i..i + n] && s[i..][n..] == s[i + n..]
  {
  }

  /** `s.strip()`: the slice of `s` left when the whitespace at both ends is
      removed. */
  function Strip(s: string): (r: string)
    ensures r == [] || (!IsSpace(r[0]) && !IsSpace(r[|r| - 1]))
    ensures exists i, j :: 0 <= i <= j <= |s| && r == s[i..j] && AllSpace(s[..i]) && AllSpace(s[j..])
  {
    StripStartShape(s);
    StripEndShape(StripStart(s));
    StripIsSlice(s);
    StripEnd(StripStart(s))
  }

  /** Length of the leading run of non-whitespace characters. */
  function WordLength(s: string): (n: nat)
    ensures n <= |s|
    ensures NoSpace(s[..n])
    ensures n < |s| ==> IsSpace(s[n])
  {
    if s == [] || IsSpace(s[0]) then 0 else 1 + WordLength(s[1..])
  }

  /** `s.split()`: the maximal runs of non-whitespace characters, in order. */
  function Tokens(s: string): (r: seq<string>)
    ensures forall i :: 0 <= i < |r| ==> r[i] != [] && NoSpace(r[i])
    ensures r == [] <==> AllSpace(s)
    ensures s != [] && NoSpace(s) ==> r == [s]
    decreases |s|
  {
    if s == [] then []
    else if IsSpace(s[0]) then
      assert AllSpace(s) <==> AllSpace(s[1..]) by {
        assert forall i :: 0 < i < |s| ==> s[i] == s[1..][i - 1];
      }
      Tokens(s[1..])
    else
      var n := WordLength(s);
      assert NoSpace(s) ==> n == |s| && s[..n] == s && s[n..] == [];
      [s[..n]] + Tokens(s[n..])
  }

  /** Length of the prefix of `s` before the first `c` (all of `s` if none). */
  function PrefixBefore(s: string, c: char): (n: nat)
    ensures n <= |s|
    ensures c !in s[..n]
    ensures n < |s| ==> s[n] == c
  {
    if s == [] || s[0] == c then 0 else 1 + PrefixBefore(s[1..], c)
  }

  /** `s.split(sep)` for a one-character separator: the pieces between
      occurrences of `sep`; there is always at least one piece. */
  function Split(s: string, sep: char): (r: seq<string>)
    ensures |r| >= 1
    ensures forall i :: 0 <= i < |r| ==> sep !in r[i]
    decreases |s|
  {
    var n := PrefixBefore(s, sep);
    if n == |s| then [s] else [s[..n]] + Split(s[n + 1..], sep)
  }

  /** `sep.join(parts)` */
  function JoinWith(parts: seq<string>, sep: char): string
  {
    if parts == [] then []
    else if |parts| == 1 then parts[0]
    else parts[0] + [sep] + JoinWith(parts[1..], sep)
  }

  /** Splitting and joining again on the same separator gives back the
      string: `Split` loses nothing. */
  lemma {:induction false} JoinSplit(s: string, sep: char)
    ensures JoinWith(Split(s, sep), sep) == s
    decreases |s|
  {
    var n := PrefixBefore(s, sep);
    if n < |s| {
      var rest := s[n + 1..];
      JoinSplit(rest, sep);
      var tail := Split(rest, sep);
      assert Split(s, sep) == [s[..n]] + tail;
      assert JoinWith(Split(s, sep), sep) == s[..n] + [sep] + JoinWith(tail, sep);
      assert s == s[..n] + [sep] + rest;
    }
  }

  /** `pat` occurs in `s` starting at index `i`. */
  predicate OccursAt(s: string, pat: string, i: int)
  {
    0 <= i <= |s| - |pat| && s[i..i + |pat|] == pat
  }

  /** `pat in s` for strings. */
  predicate Contains(s: string, pat: string)
    ensures Contains(s, pat) ==> |pat| <= |s|
    ensures pat == [] ==> Contains(s, pat)
  {
    assert pat == [] ==> OccursAt(s, pat, 0);
    exists i | 0 <= i <= |s| - |pat| :: OccursAt(s, pat, i)
  }

  /** A string contains every string that occurs in it, wherever it occurs. */
  lemma ContainsInfix(a: string, pat: string, b: string)
    ensures Contains(a + pat + b, pat)
  {
    var s := a + pat + b;
    assert s[|a|..|a| + |pat|] == pat;
    assert OccursAt(s, pat, |a|);
  }

  /** Leading whitespace does not change `split()`. */
  lemma {:induction false} TokensSkipSpace(w: string, s: string)
    requires AllSpace(w)
    ensures Tokens(w + s) == Tokens(s)
    decreases |w|
  {
    if w != [] {
      assert (w + s)[0] == w[0];
      assert (w + s)[1..] == w[1..] + s;
      TokensSkipSpace(w[1..], s);
    } else {
      assert w + s == s;
    }
  }

  /** A whitespace character separates tokens: `split()` of `a + c + b` is
      `split()` of `a` followed by `split()` of `b`. */
  lemma {:induction false} TokensAround(a: string, c: char, b: string)
    requires IsSpace(c)
    ensures Tokens(a + [c] + b) == Tokens(a) + Tokens(b)
    decreases |a|
  {
    var s := a + [c] + b;
    if a == [] {
      assert s[1..] == b;
    } else if IsSpace(a[0]) {
      assert s[1..] == a[1..] + [c] + b;
      TokensAround(a[1..], c, b);
    } else {
      var n := WordLength(a);
      WordLengthOfPrefix(a, c, b);
      assert s[..n] == a[..n];
      assert s[n..] == a[n..] + [c] + b;
      TokensAround(a[n..], c, b);
    }
  }

  lemma {:induction false} WordLengthOfPrefix(a: string, c: char, b: string)
    requires IsSpace(c)
    ensures WordLength(a + [c] + b) == WordLength(a)
    decreases |a|
  {
    if a != [] && !IsSpace(a[0]) {
      assert (a + [c] + b)[1..] == a[1..] + [c] + b;
      WordLengthOfPrefix(a[1..], c, b);
    }
  }

  /** Trailing whitespace does not change `split()`. */
  lemma {:induction false} TokensDropTrailing(s: string, w: string)
    requires AllSpace(w)
    ensures Tokens(s + w) == Tokens(s)
  {
    if w != [] {
      assert s + w == s + [w[0]] + w[1..];
      TokensAround(s, w[0], w[1..]);
      TokensSkipSpace(w[1..], []);
      assert w[1..] + [] == w[1..];
    } else {
      assert s + w == s;
    }
  }

  /** `s.strip().split() == s.split()`. */
  lemma StripKeepsTokens(s: string)
    ensures Tokens(Strip(s)) == Tokens(s)
  {
    StripStartShape(s);
    var t := StripStart(s);
    StripEndShape(t);
    var lead := s[..|s| - |t|];
    assert s == lead + t;
    TokensSkipSpace(lead, t);
    var u := StripEnd(t);
    var trail := t[|u|..];
    assert t == u + trail;
    TokensDropTrailing(u, trail);
    assert Strip(s) == u;
  }
}
