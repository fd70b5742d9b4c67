/**
 * The few pieces of Ruby string behaviour the middleware relies on:
 * matching against a regular expression made of plain letters (`s =~ /p/`),
 * `Integer#to_s` (string interpolation of a count) and `String#to_i`
 * (how a broker statistic is turned into a number).
 */
module Text {

  /** `p` occurs in `s` starting at index `i`. */
  predicate OccursAt(s: string, p: string, i: int)
  {
    0 <= i && i + |p| <= |s| && s[i..i + |p|] == p
  }

  /**
   * `s =~ /p/` for a pattern without metacharacters: truthy exactly when
   * `p` occurs somewhere in `s`. Scans from the left as the regex engine does.
   */
  predicate Contains(s: string, p: string)
    decreases |s|
  {
    (|p| <= |s| && s[..|p|] == p) || (|s| > 0 && Contains(s[1..], p))
  }

  lemma OccursAtStart(s: string, p: string)
    ensures OccursAt(s, p, 0) <==> |p| <= |s| && s[..|p|] == p
  {
  }

  lemma OccursAtShift(s: string, p: string, i: int)
    requires |s| > 0 && i > 0
    ensures OccursAt(s, p, i) <==> OccursAt(s[1..], p, i - 1)
  {
  }

  /** The scanning definition agrees with "there is a position where p occurs". */
  lemma {:induction false} ContainsIffOccurs(s: string, p: string)
    ensures Contains(s, p) <==> exists i :: OccursAt(s, p, i)
    decreases |s|
  {
    OccursAtStart(s, p);
    if |s| > 0 {
      ContainsIffOccurs(s[1..], p);
      if Contains(s[1..], p) {
        var j :| OccursAt(s[1..], p, j);
        OccursAtShift(s, p, j + 1);
      }
    }
    forall i | OccursAt(s, p, i)
      ensures Contains(s, p)
    {
      if i > 0 {
        OccursAtShift(s, p, i);
      }
    }
  }

  predicate IsDigit(c: char)
  {
    '0' <= c <= '9'
  }

  /** The characters Ruby skips before a number: space, and tab to carriage return. */
  predicate IsSpace(c: char)
  {
    c == ' ' || 9 <= c as int <= 13
  }

  function DigitChar(d: nat): (c: char)
    requires d < 10
    ensures IsDigit(c) && DigitValue(c) == d
  {
    ('0' as int + d) as char
  }

  function DigitValue(c: char): nat
    requires IsDigit(c)
  {
    c as int - '0' as int
  }

  predicate AllDigits(s: string)
  {
    forall i :: 0 <= i < |s| ==> IsDigit(s[i])
  }

  /** Decimal rendering of a natural number, most significant digit first, no leading zeros. */
  function NatToString(n: nat): (s: string)
    ensures |s| > 0 && AllDigits(s)
    ensures s[0] == '0' ==> n == 0
    decreases n
  {
    if n < 10 then [DigitChar(n)] else NatToString(n / 10) + [DigitChar(n % 10)]
  }

  /** `Integer#to_s`: a minus sign before the digits of a negative number. */
  function IntToString(n: int): (s: string)
    ensures |s| > 0 && (s[0] == '-' || IsDigit(s[0]))
  {
    if n < 0 then "-" + NatToString(-n) else NatToString(n)
  }

  /** The value of a run of decimal digits. */
  function DigitsValue(s: string): nat
    requires AllDigits(s)
    decreases |s|
  {
    if s == [] then 0 else DigitsValue(s[..|s| - 1]) * 10 + DigitValue(s[|s| - 1])
  }

  /** The longest prefix of `s` made of digits. */
  function LeadingDigits(s: string): (d: string)
    ensures AllDigits(d) && |d| <= |s| && d == s[..|d|]
    ensures |d| < |s| ==> !IsDigit(s[|d|])
    decreases |s|
  {
    if |s| > 0 && IsDigit(s[0]) then [s[0]] + LeadingDigits(s[1..]) else []
  }

  function TrimLeadingSpace(s: string): (t: string)
    ensures |t| <= |s| && t == s[|s| - |t|..]
    ensures |t| > 0 ==> !IsSpace(t[0])
    decreases |s|
  {
    if |s| > 0 && IsSpace(s[0]) then TrimLeadingSpace(s[1..]) else s
  }

  /** The decimal radix prefix `0d` / `0D` that `String#to_i` skips after the sign. */
  function SkipDecimalPrefix(u: string): (v: string)
    ensures v == u || (|u| >= 2 && u[0] == '0' && (u[1] == 'd' || u[1] == 'D') && v == u[2..])
    ensures |u| >= 2 && IsDigit(u[1]) ==> v == u
  {
    if |u| >= 2 && u[0] == '0' && (u[1] == 'd' || u[1] == 'D') then u[2..] else u
  }

  /** The unsigned part of `String#to_i`: an optional `0d` prefix, then the leading digits. */
  function ReadUnsigned(u: string): (n: nat)
    ensures AllDigits(u) ==> n == DigitsValue(u)
    ensures |u| > 0 && !IsDigit(u[0]) ==> n == 0
  {
    assert AllDigits(u) ==> SkipDecimalPrefix(u) == u && LeadingDigits(u) == u by {
      if AllDigits(u) {
        assert |u| >= 2 ==> IsDigit(u[1]);
        LeadingDigitsOfDigits(u);
      }
    }
    DigitsValue(LeadingDigits(SkipDecimalPrefix(u)))
  }

  /**
   * `String#to_i`: skip leading white space, read an optional sign, an
   * optional `0d` prefix and the digits that follow; anything that is not a
   * number reads as 0.
   */
  function StringToInt(s: string): (r: int)
    ensures AllDigits(s) ==> r == DigitsValue(s)
    ensures s == [] ==> r == 0
    ensures |s| > 0 && !IsSpace(s[0]) && !IsDigit(s[0]) && s[0] != '-' && s[0] != '+' ==> r == 0
  {
    var t := TrimLeadingSpace(s);
    assert |s| > 0 && !IsSpace(s[0]) ==> t == s;
    assert AllDigits(s) ==> t == s && (|s| == 0 || IsDigit(s[0])) by {
      if AllDigits(s) && |s| > 0 {
        assert IsDigit(s[0]);
      }
    }
    if |t| > 0 && t[0] == '-' then 0 - ReadUnsigned(t[1..]) as int
    else if |t| > 0 && t[0] == '+' then ReadUnsigned(t[1..])
    else ReadUnsigned(t)
  }

  lemma {:induction false} DigitsValueOfNatToString(n: nat)
    ensures DigitsValue(NatToString(n)) == n
    decreases n
  {
    if n >= 10 {
      var s := NatToString(n);
      assert s[..|s| - 1] == NatToString(n / 10);
      DigitsValueOfNatToString(n / 10);
    }
  }

  lemma LeadingDigitsOfDigits(s: string)
    requires AllDigits(s)
    ensures LeadingDigits(s) == s
  {
  }

  /** The digits after a `0d` prefix are read in base 10, with or without a minus sign. */
  lemma DecimalPrefixIsSkipped(d: string)
    requires AllDigits(d)
    ensures StringToInt("0d" + d) == DigitsValue(d)
    ensures StringToInt("-0d" + d) == 0 - DigitsValue(d) as int
  {
    LeadingDigitsOfDigits(d);
    var s, n := "0d" + d, "-0d" + d;
    assert TrimLeadingSpace(s) == s && TrimLeadingSpace(n) == n;
    assert SkipDecimalPrefix(s) == d;
    assert n[1..] == s;
  }

  /** A one-digit string reads as that digit. */
  lemma DigitStringValue(s: string)
    requires |s| == 1 && IsDigit(s[0])
    ensures StringToInt(s) == DigitValue(s[0])
  {
    assert AllDigits(s) && s[..0] == [];
    assert DigitsValue(s) == DigitsValue(s[..0]) * 10 + DigitValue(s[0]);
  }

  /** Reading back the rendering of any integer gives that integer. */
  lemma IntToStringRoundTrip(n: int)
    ensures StringToInt(IntToString(n)) == n
  {
    var s := IntToString(n);
    assert TrimLeadingSpace(s) == s;
    if n < 0 {
      assert s[1..] == NatToString(-n);
      LeadingDigitsOfDigits(NatToString(-n));
      DigitsValueOfNatToString(-n);
    } else {
      LeadingDigitsOfDigits(s);
      DigitsValueOfNatToString(n);
    }
  }

  /** Distinct integers render differently. */
  lemma IntToStringInjective(a: int, b: int)
    requires IntToString(a) == IntToString(b)
    ensures a == b
  {
    IntToStringRoundTrip(a);
    IntToStringRoundTrip(b);
  }
}
