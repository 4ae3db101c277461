/**
 * Decimal rendering of integers, as JavaScript template literals print them
 * (`${n}` for an integer-valued number), and the facts needed to see that the
 * strings the editor builds from numbers can be read back unambiguously.
 */
module Strings {

  /** The character for one decimal digit. */
  function DigitChar(d: nat): (c: char)
    requires d < 10
    ensures '0' <= c <= '9'
    ensures c as int - '0' as int == d
  {
    ('0' as int + d) as char
  }

  /** A non-empty run of decimal digits. */
  predicate IsDigits(s: string) {
    |s| > 0 && forall i :: 0 <= i < |s| ==> '0' <= s[i] <= '9'
  }

  /** Decimal notation of a natural number, without leading zeros. */
  function NatToString(n: nat): (s: string)
    ensures |s| > 0
    decreases n
  {
    if n < 10 then [DigitChar(n)] else NatToString(n / 10) + [DigitChar(n % 10)]
  }

  /** The rendering of a natural number is made of digits only. */
  lemma {:induction false} NatToStringDigits(n: nat)
    ensures IsDigits(NatToString(n))
    decreases n
  {
    if n >= 10 {
      NatToStringDigits(n / 10);
    }
  }

  /** Decimal notation of an integer, with a leading '-' when negative. */
  function IntToString(i: int): (s: string)
    ensures |s| > 0
  {
    if i < 0 then "-" + NatToString(-i) else NatToString(i)
  }

  /** A rendered integer is a run of digits, after a '-' exactly when it is negative. */
  lemma IntToStringShape(i: int)
    ensures var s := IntToString(i);
            (i < 0 ==> s[0] == '-' && IsDigits(s[1..])) && (i >= 0 ==> IsDigits(s))
  {
    if i < 0 {
      NatToStringDigits(-i);
      assert IntToString(i)[1..] == NatToString(-i);
    } else {
      NatToStringDigits(i);
    }
  }

  /** The value of a run of decimal digits. */
  function ParseNat(s: string): nat
    requires IsDigits(s)
    decreases |s|
  {
    var last := s[|s| - 1] as int - '0' as int;
    if |s| == 1 then last else ParseNat(s[..|s| - 1]) * 10 + last
  }

  /** Reading back a rendered natural number gives the number. */
  lemma {:induction false} ParseNatToString(n: nat)
    ensures IsDigits(NatToString(n)) && ParseNat(NatToString(n)) == n
    decreases n
  {
    NatToStringDigits(n);
    if n >= 10 {
      var s := NatToString(n);
      assert s[..|s| - 1] == NatToString(n / 10);
      ParseNatToString(n / 10);
    }
  }

  /** Distinct natural numbers render to distinct strings. */
  lemma {:induction false} NatToStringInjective(a: nat, b: nat)
    requires NatToString(a) == NatToString(b)
    ensures a == b
  {
    ParseNatToString(a);
    ParseNatToString(b);
  }

  /** Distinct integers render to distinct strings. */
  lemma {:induction false} IntToStringInjective(a: int, b: int)
    requires IntToString(a) == IntToString(b)
    ensures a == b
  {
    var s := IntToString(a);
    IntToStringShape(a);
    IntToStringShape(b);
    if a < 0 && b < 0 {
      assert s[1..] == NatToString(-a) == NatToString(-b);
      NatToStringInjective(-a, -b);
    } else if a >= 0 && b >= 0 {
      NatToStringInjective(a, b);
    }
  }

  /** The rendering of a number never contains a character that is neither a digit nor '-'. */
  lemma {:induction false} IntToStringAvoids(i: int, c: char)
    requires !('0' <= c <= '9') && c != '-'
    ensures c !in IntToString(i)
  {
    var s := IntToString(i);
    IntToStringShape(i);
    if i < 0 {
      assert s == "-" + s[1..];
    }
  }

  /** Position `i` of a prefix `p` of `s`, when there is one, holds a character of `p`. */
  lemma Occurs(s: string, p: string, i: int)
    ensures p <= s && 0 <= i < |p| ==> s[i] in p
  {
  }

  /**
   * Splitting at the first occurrence of a separator character: when neither
   * left part contains `c`, `a + [c] + x == b + [c] + y` forces `a == b` and
   * `x == y`.
   */
  lemma {:induction false} SplitAtSeparator(a: string, x: string, b: string, y: string, c: char)
    requires c !in a && c !in b
    requires a + [c] + x == b + [c] + y
    ensures a == b && x == y
  {
    var s := a + [c] + x;
    Occurs(s, b, |a|);
    Occurs(s, a, |b|);
    assert a == s[..|a|] == b;
    assert x == s[|a| + 1..] == y;
  }

  /**
   * Two numbers written between a fixed prefix and suffix and separated by a
   * non-digit can be read back: equal texts mean equal numbers.
   */
  lemma {:induction false} NumberPairInjective(p: string, c: char, q: string, a1: nat, b1: nat, a2: nat, b2: nat)
    requires !('0' <= c <= '9')
    requires p + NatToString(a1) + [c] + NatToString(b1) + q == p + NatToString(a2) + [c] + NatToString(b2) + q
    ensures a1 == a2 && b1 == b2
  {
    var x1, x2 := NatToString(a1), NatToString(a2);
    var z1, z2 := NatToString(b1), NatToString(b2);
    assert p + x1 + [c] + z1 + q == p + (x1 + [c] + (z1 + q));
    assert p + x2 + [c] + z2 + q == p + (x2 + [c] + (z2 + q));
    SamePrefix(p, x1 + [c] + (z1 + q), x2 + [c] + (z2 + q));
    NatToStringDigits(a1);
    NatToStringDigits(a2);
    SplitAtSeparator(x1, z1 + q, x2, z2 + q, c);
    SameSuffix(z1, z2, q);
    NatToStringInjective(a1, a2);
    NatToStringInjective(b1, b2);
  }

  /** A common prefix can be cancelled. */
  lemma SamePrefix(p: string, u: string, v: string)
    requires p + u == p + v
    ensures u == v
  {
    assert u == (p + u)[|p|..];
    assert v == (p + v)[|p|..];
  }

  /** A common suffix can be cancelled. */
  lemma SameSuffix(u: string, v: string, q: string)
    requires u + q == v + q
    ensures u == v
  {
    assert u == (u + q)[..|u|];
    assert v == (v + q)[..|v|];
  }
}
