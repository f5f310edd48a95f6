/**
 * The string operations of Python that the modelled code relies on:
 * `str.lower`, `str.upper`, `sep.join`, `str.split`, the `in` test on
 * strings, `str(n)` on a natural number, and the `\w` and `\d` character
 * classes of Python's regular expressions.
 *
 * Case mapping and the character classes are restricted to ASCII.
 */
module Text {

  /** The `\w` character class (ASCII letters, digits and underscore). */
  predicate IsWordChar(c: char) {
    'a' <= c <= 'z' || 'A' <= c <= 'Z' || '0' <= c <= '9' || c == '_'
  }

  /** A string that `\w+` matches in full. */
  predicate IsWord(s: string) {
    |s| > 0 && forall i :: 0 <= i < |s| ==> IsWordChar(s[i])
  }

  /** A string without `c` stays without `c` when another such string is appended. */
  lemma FreeConcat(a: string, b: string, c: char)
    requires Free(a, c) && Free(b, c)
    ensures Free(a + b, c)
  {
    forall i | 0 <= i < |a + b|
      ensures (a + b)[i] != c
    {
      if i >= |a| {
        assert (a + b)[i] == b[i - |a|];
      }
    }
  }

  /** The `\d` character class. */
  predicate IsDigit(c: char) {
    '0' <= c <= '9'
  }

  predicate Free(s: string, c: char) {
    forall i :: 0 <= i < |s| ==> s[i] != c
  }

  function LowerChar(c: char): (d: char)
    ensures IsWordChar(c) ==> IsWordChar(d)
    ensures !('A' <= d <= 'Z')
  {
    if 'A' <= c <= 'Z' then c - 'A' + 'a' else c
  }

  function UpperChar(c: char): (d: char)
    ensures IsWordChar(c) ==> IsWordChar(d)
    ensures !('a' <= d <= 'z')
  {
    if 'a' <= c <= 'z' then c - 'a' + 'A' else c
  }

  /** `s.lower()`: maps every character on its own and keeps the length. */
  function Lower(s: string): (r: string)
    ensures |r| == |s|
    ensures forall i :: 0 <= i < |s| ==> r[i] == LowerChar(s[i])
  {
    if s == [] then [] else [LowerChar(s[0])] + Lower(s[1..])
  }

  /** `s.upper()`: maps every character on its own and keeps the length. */
  function Upper(s: string): (r: string)
    ensures |r| == |s|
    ensures forall i :: 0 <= i < |s| ==> r[i] == UpperChar(s[i])
  {
    if s == [] then [] else [UpperChar(s[0])] + Upper(s[1..])
  }

  /** Lower-casing twice is lower-casing once. */
  lemma LowerIdempotent(s: string)
    ensures Lower(Lower(s)) == Lower(s)
  {
    assert forall i :: 0 <= i < |s| ==> LowerChar(LowerChar(s[i])) == LowerChar(s[i]);
  }

  /** Lower-casing keeps a `\w+` word a `\w+` word. */
  lemma LowerKeepsWord(s: string)
    requires IsWord(s)
    ensures IsWord(Lower(s))
  {
  }

  /** Upper-casing keeps a `\w+` word a `\w+` word. */
  lemma UpperKeepsWord(s: string)
    requires IsWord(s)
    ensures IsWord(Upper(s))
  {
  }

  /** `sep.join(xs)` */
  function Join(sep: string, xs: seq<string>): (r: string)
  {
    if |xs| == 0 then ""
    else if |xs| == 1 then xs[0]
    else xs[0] + sep + Join(sep, xs[1..])
  }

  /** The length of a join: every piece and one separator between each two. */
  lemma {:induction false} JoinLength(sep: string, xs: seq<string>)
    requires |xs| > 0
    ensures |Join(sep, xs)| == Sum(xs) + (|xs| - 1) * |sep|
  {
    if |xs| > 1 {
      JoinLength(sep, xs[1..]);
    }
  }

  function Sum(xs: seq<string>): nat {
    if xs == [] then 0 else |xs[0]| + Sum(xs[1..])
  }

  /** The number of times `c` occurs in `s`. */
  function Occurrences(s: string, c: char): nat {
    if s == [] then 0 else (if s[0] == c then 1 else 0) + Occurrences(s[1..], c)
  }

  /**
   * `s.split(sep)` for a one-character separator: the pieces between
   * separators, one more than there are separators (`"".split(",") == [""]`),
   * none of them holding the separator.
   */
  function Split(s: string, sep: char): (r: seq<string>)
    ensures |r| == 1 + Occurrences(s, sep)
    ensures forall i :: 0 <= i < |r| ==> Free(r[i], sep)
    decreases |s|
  {
    if |s| == 0 then [""]
    else
      var rest := Split(s[1..], sep);
      if s[0] == sep then [""] + rest
      else [[s[0]] + rest[0]] + rest[1..]
  }

  /** Splitting and joining back with the same separator gives the string back. */
  lemma {:induction false} JoinSplit(s: string, sep: char)
    ensures Join([sep], Split(s, sep)) == s
    decreases |s|
  {
    if |s| > 0 {
      var rest := Split(s[1..], sep);
      JoinSplit(s[1..], sep);
      assert s == [s[0]] + s[1..];
      if s[0] != sep {
        if |rest| > 1 {
          assert Join([sep], rest) == rest[0] + [sep] + Join([sep], rest[1..]);
          assert Join([sep], Split(s, sep)) == ([s[0]] + rest[0]) + [sep] + Join([sep], rest[1..]);
        }
      } else {
        assert Join([sep], Split(s, sep)) == "" + [sep] + Join([sep], rest);
      }
    }
  }

  /** Splitting a string that starts with a separator-free piece. */
  lemma {:induction false} SplitAfterPiece(x: string, t: string, sep: char)
    requires Free(x, sep)
    ensures Split(x + t, sep) == [x + Split(t, sep)[0]] + Split(t, sep)[1..]
    decreases |x|
  {
    if |x| > 0 {
      assert (x + t)[1..] == x[1..] + t;
      SplitAfterPiece(x[1..], t, sep);
      assert [x[0]] + (x[1..] + Split(t, sep)[0]) == x + Split(t, sep)[0];
    } else {
      assert x + t == t;
      assert x + Split(t, sep)[0] == Split(t, sep)[0];
    }
  }

  /**
   * Joining separator-free pieces and splitting again gives the pieces back.
   * An empty list does not come back: its join is `""`, which splits to `[""]`.
   */
  lemma {:induction false} SplitJoin(xs: seq<string>, sep: char)
    requires |xs| >= 1
    requires forall i :: 0 <= i < |xs| ==> Free(xs[i], sep)
    ensures Split(Join([sep], xs), sep) == xs
  {
    if |xs| == 1 {
      SplitAfterPiece(xs[0], "", sep);
      assert xs[0] + "" == xs[0];
    } else {
      var tail := Join([sep], xs[1..]);
      SplitJoin(xs[1..], sep);
      assert Join([sep], xs) == xs[0] + ([sep] + tail);
      SplitAfterPiece(xs[0], [sep] + tail, sep);
      assert ([sep] + tail)[1..] == tail;
      assert Split([sep] + tail, sep) == [""] + xs[1..];
      assert xs[0] + "" == xs[0];
    }
  }

  predicate StartsWith(s: string, p: string) {
    |p| <= |s| && s[..|p|] == p
  }

  /** `p in s` for strings: `p` occurs somewhere in `s`. */
  predicate Contains(s: string, p: string)
    decreases |s|
  {
    StartsWith(s, p) || (|s| > 0 && Contains(s[1..], p))
  }

  /** A string contains whatever stands anywhere inside it. */
  lemma {:induction false} ContainsInside(a: string, p: string, b: string)
    ensures Contains(a + p + b, p)
    decreases |a|
  {
    if |a| == 0 {
      assert a + p + b == p + b;
      assert (p + b)[..|p|] == p;
    } else {
      assert (a + p + b)[1..] == a[1..] + p + b;
      ContainsInside(a[1..], p, b);
    }
  }

  /** An occurrence is a stretch of the string: `Contains` implies a position. */
  lemma {:induction false} ContainsAt(s: string, p: string)
    requires Contains(s, p)
    ensures exists k :: 0 <= k <= |s| && StartsWith(s[k..], p)
    decreases |s|
  {
    if StartsWith(s, p) {
      assert s[0..] == s;
    } else {
      ContainsAt(s[1..], p);
      var k :| 0 <= k <= |s[1..]| && StartsWith(s[1..][k..], p);
      assert s[1..][k..] == s[k + 1..];
    }
  }

  function DigitChar(d: nat): (c: char)
    requires d < 10
    ensures IsDigit(c)
  {
    '0' + d as char
  }

  /** `str(n)` for a natural number: a non-empty run of decimal digits. */
  function DecimalString(n: nat): (r: string)
    ensures |r| > 0
    ensures forall i :: 0 <= i < |r| ==> IsDigit(r[i])
  {
    if n < 10 then [DigitChar(n)] else DecimalString(n / 10) + [DigitChar(n % 10)]
  }

  /** Different numbers print differently, so `str` on numbers can be undone. */
  lemma {:induction false} DecimalStringInjective(m: nat, n: nat)
    requires DecimalString(m) == DecimalString(n)
    ensures m == n
  {
    var a, b := DecimalString(m), DecimalString(n);
    if m < 10 && n < 10 {
      assert a[0] == b[0];
    } else if m >= 10 && n >= 10 {
      assert a[|a| - 1] == b[|b| - 1];
      assert DecimalString(m / 10) == a[..|a| - 1] == b[..|b| - 1] == DecimalString(n / 10);
      DecimalStringInjective(m / 10, n / 10);
    }
  }
}
