/**
 * Text helpers shared by the model: the ordering Python uses for `str`
 * (lexicographic on code points) and the decimal text Python's `format`
 * produces for an `int`.
 */
module Text {

  import opened Wrappers

  /** Python's `s < t` on strings: lexicographic by code point, a proper prefix is smaller. */
  predicate Less(s: string, t: string)
    ensures Less(s, t) ==> s != t
    ensures |s| < |t| && s == t[..|s|] ==> Less(s, t)
  {
    |t| > 0 && (|s| == 0 || s[0] < t[0] || (s[0] == t[0] && Less(s[1..], t[1..])))
  }

  /** Python's `s >= t` on strings, written out by its own recursion; the complement of `<`. */
  predicate AtLeast(s: string, t: string)
    ensures AtLeast(s, t) <==> !Less(s, t)
  {
    |t| == 0 || (|s| > 0 && (s[0] > t[0] || (s[0] == t[0] && AtLeast(s[1..], t[1..]))))
  }

  predicate LessEq(s: string, t: string)
  {
    Less(s, t) || s == t
  }

  lemma {:induction false} LessTransitive(s: string, t: string, u: string)
    requires Less(s, t) && Less(t, u)
    ensures Less(s, u)
  {
    if |s| > 0 && s[0] == t[0] && t[0] == u[0] {
      LessTransitive(s[1..], t[1..], u[1..]);
    }
  }

  /** Exactly one of `s < t`, `s == t`, `t < s` holds. */
  lemma {:induction false} LessTrichotomy(s: string, t: string)
    ensures Less(s, t) || s == t || Less(t, s)
    ensures !(Less(s, t) && Less(t, s))
    ensures s == t ==> !Less(s, t)
  {
    if |s| > 0 && |t| > 0 && s[0] == t[0] {
      LessTrichotomy(s[1..], t[1..]);
      if s[1..] == t[1..] {
        assert s == [s[0]] + s[1..] && t == [t[0]] + t[1..];
      }
    }
  }

  lemma LessEqTransitive(s: string, t: string, u: string)
    requires LessEq(s, t) && LessEq(t, u)
    ensures LessEq(s, u)
  {
    if s != t && t != u {
      LessTransitive(s, t, u);
    }
  }

  lemma LessEqAntisymmetric(s: string, t: string)
    requires LessEq(s, t) && LessEq(t, s)
    ensures s == t
  {
    LessTrichotomy(s, t);
  }

  /** Comparing two strings with a common prefix compares what follows it. */
  lemma {:induction false} LessCommonPrefix(p: string, s: string, t: string)
    ensures Less(p + s, p + t) <==> Less(s, t)
  {
    if |p| > 0 {
      assert (p + s)[1..] == p[1..] + s && (p + t)[1..] == p[1..] + t;
      LessCommonPrefix(p[1..], s, t);
    } else {
      assert p + s == s && p + t == t;
    }
  }

  // ---------------------------------------------------------------------
  // Decimal text of integers, as `"{}".format(n)` writes an int

  function DigitChar(d: nat): (c: char)
    requires d < 10
    ensures '0' <= c <= '9' && c as int - '0' as int == d
  {
    (d + '0' as int) as char
  }

  predicate IsDigit(c: char)
  {
    '0' <= c <= '9'
  }

  /** Decimal digits of a natural number, most significant first, no leading zero. */
  function NatText(n: nat): (s: string)
    ensures |s| > 0
    ensures forall i :: 0 <= i < |s| ==> IsDigit(s[i])
    ensures |s| > 1 ==> s[0] != '0'
  {
    if n < 10 then [DigitChar(n)] else NatText(n / 10) + [DigitChar(n % 10)]
  }

  /**
   * Decimal text of an integer: a minus sign exactly for negatives, then the
   * digits with no leading zero. It reads back as `i`.
   */
  function IntText(i: int): (s: string)
    ensures |s| > 0
    ensures ParseInt(s) == Some(i)
    ensures s[0] == '-' <==> i < 0
    ensures var digits := if i < 0 then s[1..] else s;
      |digits| > 0 && (|digits| > 1 ==> digits[0] != '0')
  {
    if i < 0 then
      NegativeTextRoundTrip(-i);
      assert ("-" + NatText(-i))[1..] == NatText(-i);
      "-" + NatText(-i)
    else
      NatTextRoundTrip(i);
      assert IsDigit(NatText(i)[0]);
      NatText(i)
  }

  /** Value of a string of decimal digits. */
  function DigitsValue(s: string): nat
    requires forall i :: 0 <= i < |s| ==> IsDigit(s[i])
  {
    if |s| == 0 then 0
    else
      assert IsDigit(s[|s| - 1]);
      DigitsValue(s[..|s| - 1]) * 10 + (s[|s| - 1] as int - '0' as int)
  }

  /** Reads back the decimal text of an integer. */
  function ParseInt(s: string): (r: Option<int>)
  {
    if |s| > 0 && s[0] == '-' then
      if |s| > 1 && forall i :: 1 <= i < |s| ==> IsDigit(s[i]) then Some(0 - DigitsValue(s[1..]) as int) else None
    else if |s| > 0 && forall i :: 0 <= i < |s| ==> IsDigit(s[i]) then Some(DigitsValue(s))
    else None
  }

  lemma {:induction false} NatTextRoundTrip(n: nat)
    ensures DigitsValue(NatText(n)) == n
  {
    if n >= 10 {
      NatTextRoundTrip(n / 10);
      var s := NatText(n);
      assert s[..|s| - 1] == NatText(n / 10);
    }
  }

  lemma NegativeTextRoundTrip(n: nat)
    ensures ParseInt("-" + NatText(n)) == Some(0 - n)
  {
    var d := NatText(n);
    var s := "-" + d;
    assert s[1..] == d;
    NatTextRoundTrip(n);
    forall i | 1 <= i < |s|
      ensures IsDigit(s[i])
    {
      assert s[i] == d[i - 1];
    }
  }
}
