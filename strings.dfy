/**
 * The JavaScript string operations the service relies on: `split` on a
 * character, `split` on a literal token followed by `join`, and `String(n)`
 * for integers.
 */
module Strings {

  predicate IsDigit(c: char) {
    '0' <= c <= '9'
  }

  predicate AllDigits(s: string) {
    forall i :: 0 <= i < |s| ==> IsDigit(s[i])
  }

  function DigitChar(d: nat): (c: char)
    requires d < 10
    ensures IsDigit(c)
  {
    ('0' as int + d) as char
  }

  function DigitValue(c: char): (d: nat)
    requires IsDigit(c)
    ensures d < 10 && DigitChar(d) == c
  {
    c as int - '0' as int
  }

  /** The number a string of decimal digits denotes. */
  function DecimalValue(s: string): nat
    requires AllDigits(s)
  {
    if |s| == 0 then 0 else DecimalValue(s[..|s| - 1]) * 10 + DigitValue(s[|s| - 1])
  }

  /** `String(n)` for a non-negative integer. */
  function NatToString(n: nat): (s: string)
    ensures |s| >= 1 && AllDigits(s)
  {
    if n < 10 then [DigitChar(n)] else NatToString(n / 10) + [DigitChar(n % 10)]
  }

  /** `String(n)` for any integer. */
  function IntToString(n: int): string {
    if n < 0 then "-" + NatToString(-n) else NatToString(n)
  }

  /** Printing a natural in decimal and reading it back gives the same number. */
  lemma {:induction false} DecimalRoundTrip(n: nat)
    ensures DecimalValue(NatToString(n)) == n
  {
    var s := NatToString(n);
    if n >= 10 {
      DecimalRoundTrip(n / 10);
      assert s[..|s| - 1] == NatToString(n / 10);
    }
  }

  // ---------------------------------------------------------------------
  // s.split(c) for a one-character separator, and its inverse join

  /** `s.split(sep)`: the pieces between occurrences of `sep`, in order. */
  function Split(s: string, sep: char): (parts: seq<string>)
    ensures |parts| >= 1
    ensures forall i :: 0 <= i < |parts| ==> sep !in parts[i]
    decreases |s|
  {
    if |s| == 0 then [""]
    else
      var rest := Split(s[1..], sep);
      if s[0] == sep then [""] + rest
      else [[s[0]] + rest[0]] + rest[1..]
  }

  /** `parts.join(sep)`. */
  function Join(parts: seq<string>, sep: string): string
    requires |parts| >= 1
  {
    if |parts| == 1 then parts[0] else parts[0] + sep + Join(parts[1..], sep)
  }

  /** Joining the pieces of a split with the separator restores the string. */
  lemma {:induction false} JoinSplit(s: string, sep: char)
    ensures Join(Split(s, sep), [sep]) == s
  {
    if |s| > 0 {
      var rest := Split(s[1..], sep);
      JoinSplit(s[1..], sep);
      if s[0] == sep {
        assert ([""] + rest)[1..] == rest;
      } else {
        var parts := [[s[0]] + rest[0]] + rest[1..];
        if |rest| > 1 {
          assert parts[1..] == rest[1..];
        }
      }
    }
  }

  /** A string without the separator splits into itself alone. */
  lemma {:induction false} SplitWithoutSeparator(s: string, sep: char)
    requires sep !in s
    ensures Split(s, sep) == [s]
  {
    if |s| > 0 {
      SplitWithoutSeparator(s[1..], sep);
      assert [s[0]] + s[1..] == s;
    }
  }

  /** The first separator of `a + [sep] + b` closes the first piece. */
  lemma {:induction false} SplitAtFirst(a: string, sep: char, b: string)
    requires sep !in a
    ensures Split(a + [sep] + b, sep) == [a] + Split(b, sep)
  {
    var s := a + [sep] + b;
    if |a| == 0 {
      assert s[1..] == b;
    } else {
      assert s[1..] == a[1..] + [sep] + b;
      SplitAtFirst(a[1..], sep, b);
      assert [s[0]] + a[1..] == a;
    }
  }

  /** Splitting pieces joined by a separator they do not contain gives the pieces back. */
  lemma {:induction false} SplitJoin(parts: seq<string>, sep: char)
    requires |parts| >= 1
    requires forall i :: 0 <= i < |parts| ==> sep !in parts[i]
    ensures Split(Join(parts, [sep]), sep) == parts
  {
    if |parts| == 1 {
      SplitWithoutSeparator(parts[0], sep);
    } else {
      SplitJoin(parts[1..], sep);
      SplitAtFirst(parts[0], sep, Join(parts[1..], [sep]));
      assert [parts[0]] + parts[1..] == parts;
    }
  }

  /** The first piece is a prefix of the string, ended by the separator or by the end. */
  lemma {:induction false} SplitFirstPiece(s: string, sep: char)
    ensures var p := Split(s, sep)[0];
      |p| <= |s| && s[..|p|] == p && (|p| == |s| || s[|p|] == sep)
  {
    if |s| > 0 && s[0] != sep {
      SplitFirstPiece(s[1..], sep);
      var q := Split(s[1..], sep)[0];
      assert Split(s, sep)[0] == [s[0]] + q;
      assert s[1..][..|q|] == q;
    }
  }

  // ---------------------------------------------------------------------
  // s.split(/token/).join(r): literal, left-to-right, non-overlapping

  /** `t` occurs in `s` starting at index `k`. */
  predicate MatchAt(s: string, t: string, k: nat) {
    k + |t| <= |s| && s[k..k + |t|] == t
  }

  /** `s.split(t)` for a non-empty literal token `t`, scanning left to right. */
  function SplitOn(s: string, t: string): (parts: seq<string>)
    requires |t| > 0
    ensures |parts| >= 1
    ensures |parts[0]| <= |s| && parts[0] == s[..|parts[0]|]
    decreases |s|
  {
    if |s| < |t| then [s]
    else if s[..|t|] == t then [""] + SplitOn(s[|t|..], t)
    else
      var rest := SplitOn(s[1..], t);
      [[s[0]] + rest[0]] + rest[1..]
  }

  /** Every occurrence of `t` in `s` replaced by `r`, as `s.split(t).join(r)` does. */
  function Substitute(s: string, t: string, r: string): string
    requires |t| > 0
  {
    Join(SplitOn(s, t), r)
  }

  /** Splitting on a token loses nothing: joining the pieces with the token gives `s` back. */
  lemma {:induction false} JoinSplitOn(s: string, t: string)
    requires |t| > 0
    ensures Join(SplitOn(s, t), t) == s
    decreases |s|
  {
    if |s| >= |t| {
      if s[..|t|] == t {
        var rest := SplitOn(s[|t|..], t);
        JoinSplitOn(s[|t|..], t);
        assert ([""] + rest)[1..] == rest;
        assert s == t + s[|t|..];
      } else {
        var rest := SplitOn(s[1..], t);
        JoinSplitOn(s[1..], t);
        JoinConsHead(s[0], rest, t);
        assert s == [s[0]] + s[1..];
      }
    }
  }

  /** Prepending a character to the first piece prepends it to the joined string. */
  lemma JoinConsHead(c: char, parts: seq<string>, sep: string)
    requires |parts| >= 1
    ensures Join([[c] + parts[0]] + parts[1..], sep) == [c] + Join(parts, sep)
  {
    var p := [[c] + parts[0]] + parts[1..];
    if |parts| > 1 {
      assert p[1..] == parts[1..];
    }
  }

  /** No piece of a split contains the token: every occurrence was a cut. */
  lemma {:induction false} SplitOnPiecesFree(s: string, t: string, i: nat, k: nat)
    requires |t| > 0
    requires i < |SplitOn(s, t)|
    ensures !MatchAt(SplitOn(s, t)[i], t, k)
    decreases |s|
  {
    if |s| >= |t| {
      if s[..|t|] == t {
        if i > 0 {
          SplitOnPiecesFree(s[|t|..], t, i - 1, k);
        }
      } else {
        var rest := SplitOn(s[1..], t);
        if i > 0 {
          SplitOnPiecesFree(s[1..], t, i, k);
        } else if k == 0 {
          var p := [s[0]] + rest[0];
          if |t| <= |p| {
            assert p[..|t|] == s[..|t|];
          }
        } else {
          SplitOnPiecesFree(s[1..], t, 0, k - 1);
          var p := [s[0]] + rest[0];
          if k + |t| <= |p| {
            assert p[k..k + |t|] == rest[0][k - 1..k - 1 + |t|];
          }
        }
      }
    }
  }

  /** A string in which the token never occurs is one piece. */
  lemma {:induction false} SplitOnAbsent(s: string, t: string)
    requires |t| > 0
    requires forall k: nat :: !MatchAt(s, t, k)
    ensures SplitOn(s, t) == [s]
    decreases |s|
  {
    if |s| >= |t| {
      assert !MatchAt(s, t, 0);
      forall k: nat ensures !MatchAt(s[1..], t, k) {
        assert !MatchAt(s, t, k + 1);
        if k + |t| <= |s[1..]| {
          assert s[1..][k..k + |t|] == s[k + 1..k + 1 + |t|];
        }
      }
      SplitOnAbsent(s[1..], t);
      assert [s[0]] + s[1..] == s;
    }
  }

  /** A string without the token's first character has no occurrence of the token. */
  lemma NoMatchWithoutHead(s: string, t: string)
    requires |t| > 0 && t[0] !in s
    ensures forall k: nat :: !MatchAt(s, t, k)
  {
    forall k: nat ensures !MatchAt(s, t, k) {
      if k + |t| <= |s| {
        assert s[k..k + |t|][0] == s[k];
      }
    }
  }

  /** No occurrence of the token starts inside a prefix that lacks the token's first character. */
  lemma NoMatchInPrefix(a: string, t: string, b: string)
    requires |t| > 0 && t[0] !in a
    ensures forall k: nat :: k < |a| ==> !MatchAt(a + t + b, t, k)
  {
    forall k: nat | k < |a| ensures !MatchAt(a + t + b, t, k) {
      assert (a + t + b)[k] == a[k];
      if k + |t| <= |a + t + b| {
        assert (a + t + b)[k..k + |t|][0] == a[k];
      }
    }
  }

  /**
   * No match of `t` starts inside `x` when `x` holds none and the joint
   * `x + y` cannot be straddled: `y` is empty or starts with a letter
   * `t` has only at its head, or `x` lacks the head of `t`, or `x` ends
   * with a letter `t` lacks.
   */
  lemma NoMatchBefore(x: string, y: string, t: string)
    requires |t| > 0
    requires forall k: nat :: !MatchAt(x, t, k)
    requires |x| == 0 || |y| == 0 || y[0] !in t[1..] || t[0] !in x || x[|x| - 1] !in t
    ensures forall k: nat :: k < |x| ==> !MatchAt(x + y, t, k)
  {
    var s := x + y;
    forall k: nat | k < |x| ensures !MatchAt(s, t, k) {
      if k + |t| <= |x| {
        assert s[k..k + |t|] == x[k..k + |t|];
        assert !MatchAt(x, t, k);
      } else if k + |t| <= |s| {
        var w := s[k..k + |t|];
        if y[0] !in t[1..] {
          assert w[|x| - k] == y[0];
          assert t[|x| - k] == t[1..][|x| - k - 1];
          assert w[|x| - k] != t[|x| - k];
        } else if t[0] !in x {
          assert w[0] == x[k];
          assert w[0] != t[0];
        } else {
          assert w[|x| - 1 - k] == x[|x| - 1];
          assert w[|x| - 1 - k] != t[|x| - 1 - k];
        }
        assert w != t;
      }
    }
  }

  /** Two pieces free of `t` whose joint cannot be straddled make a string free of `t`. */
  lemma NoMatchConcat(x: string, y: string, t: string)
    requires |t| > 0
    requires forall k: nat :: !MatchAt(x, t, k)
    requires forall k: nat :: !MatchAt(y, t, k)
    requires |x| == 0 || |y| == 0 || y[0] !in t[1..] || t[0] !in x || x[|x| - 1] !in t
    ensures forall k: nat :: !MatchAt(x + y, t, k)
  {
    NoMatchBefore(x, y, t);
    var s := x + y;
    forall k: nat | |x| <= k ensures !MatchAt(s, t, k) {
      if k + |t| <= |s| {
        assert s[k..k + |t|] == y[k - |x|..k - |x| + |t|];
        assert !MatchAt(y, t, k - |x|);
      }
    }
  }

  /** Substitution leaves a string without the token unchanged. */
  lemma SubstituteAbsent(s: string, t: string, r: string)
    requires |t| > 0
    requires forall k: nat :: !MatchAt(s, t, k)
    ensures Substitute(s, t, r) == s
  {
    SplitOnAbsent(s, t);
  }

  /**
   * The first occurrence of the token is cut wherever it stands, mid-segment
   * included, provided no earlier occurrence starts inside `a`.
   */
  lemma {:induction false} SplitOnFirst(a: string, t: string, b: string)
    requires |t| > 0
    requires forall k: nat :: k < |a| ==> !MatchAt(a + t + b, t, k)
    ensures SplitOn(a + t + b, t) == [a] + SplitOn(b, t)
    decreases |a|
  {
    var s := a + t + b;
    if |a| == 0 {
      assert s[..|t|] == t;
      assert s[|t|..] == b;
    } else {
      assert !MatchAt(s, t, 0);
      assert s[1..] == a[1..] + t + b;
      forall k: nat | k < |a[1..]| ensures !MatchAt(a[1..] + t + b, t, k) {
        assert !MatchAt(s, t, k + 1);
        if k + |t| <= |s[1..]| {
          assert s[1..][k..k + |t|] == s[k + 1..k + 1 + |t|];
        }
      }
      SplitOnFirst(a[1..], t, b);
      assert [s[0]] + a[1..] == a;
    }
  }

  /** Substituting in `a + t + b` replaces that occurrence and continues in `b`. */
  lemma SubstituteFirst(a: string, t: string, r: string, b: string)
    requires |t| > 0
    requires forall k: nat :: k < |a| ==> !MatchAt(a + t + b, t, k)
    ensures Substitute(a + t + b, t, r) == a + r + Substitute(b, t, r)
  {
    SplitOnFirst(a, t, b);
    assert ([a] + SplitOn(b, t))[1..] == SplitOn(b, t);
  }
}
