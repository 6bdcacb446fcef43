/** Decimal numerals: the `%d` conversion and the `int()` constructor applied to a string. */
module Decimal {
  import opened Outcomes

  predicate IsDigit(c: char) { '0' <= c <= '9' }

  predicate AllDigits(s: string) { forall i :: 0 <= i < |s| ==> IsDigit(s[i]) }

  function DigitValue(c: char): nat
    requires IsDigit(c)
  {
    c as int - '0' as int
  }

  function DigitChar(d: nat): (c: char)
    requires d < 10
    ensures IsDigit(c) && DigitValue(c) == d
  {
    ('0' as int + d) as char
  }

  /** The value of a run of ASCII digits read in base 10 (leading zeros allowed). */
  function DigitsValue(s: string): nat
    requires AllDigits(s)
  {
    if s == [] then 0 else DigitsValue(s[..|s| - 1]) * 10 + DigitValue(s[|s| - 1])
  }

  /** The shortest decimal numeral of n. */
  function NatToString(n: nat): (s: string)
    ensures 1 <= |s|
    decreases n
  {
    if n < 10 then [DigitChar(n)] else NatToString(n / 10) + [DigitChar(n % 10)]
  }

  /** The numeral of n is all digits, reads back as n and has no leading zero. */
  lemma {:induction false} NatToStringDigits(n: nat)
    ensures AllDigits(NatToString(n)) && DigitsValue(NatToString(n)) == n
    ensures |NatToString(n)| > 1 ==> NatToString(n)[0] != '0'
    decreases n
  {
    if n >= 10 {
      NatToStringDigits(n / 10);
      var prefix := NatToString(n / 10);
      var s := NatToString(n);
      assert s == prefix + [DigitChar(n % 10)];
      assert s[..|s| - 1] == prefix;
    }
  }

  /** `'%d' % n`: a minus sign in front of the digits of a negative number. */
  function IntToString(n: int): (s: string)
    ensures 1 <= |s|
  {
    if n < 0 then "-" + NatToString(-n) else NatToString(n)
  }

  /** The rendering of a negative number is a minus sign and the digits of its magnitude; that
      of any other number is its digits, which read back as the number. */
  lemma IntToStringDigits(n: int)
    ensures n < 0 ==> IntToString(n)[0] == '-' && AllDigits(IntToString(n)[1..])
                      && DigitsValue(IntToString(n)[1..]) == -n
    ensures n >= 0 ==> AllDigits(IntToString(n)) && DigitsValue(IntToString(n)) == n
  {
    if n < 0 {
      NatToStringDigits(-n);
      assert IntToString(n)[1..] == NatToString(-n);
    } else {
      NatToStringDigits(n);
    }
  }

  /** Distinct integers have distinct `%d` renderings. */
  lemma {:induction false} IntToStringInjective(a: int, b: int)
    requires IntToString(a) == IntToString(b)
    ensures a == b
  {
    IntToStringDigits(a);
    IntToStringDigits(b);
    var s := IntToString(a);
    if a < 0 {
      assert s[0] == '-';
      assert b < 0;
      assert DigitsValue(s[1..]) == -a == -b;
    } else {
      assert IsDigit(s[0]);
      assert b >= 0;
      assert DigitsValue(s) == a == b;
    }
  }

  /** The whitespace `int()` ignores around its argument (the ASCII part of it): space and
      \t, \n, \v, \f, \r. */
  predicate IsSpace(c: char) { c == ' ' || 9 <= c as int <= 13 }

  /** Drops leading whitespace. */
  function TrimStart(s: string): (r: string)
    ensures |r| <= |s|
    ensures r != [] ==> !IsSpace(r[0])
  {
    if s != [] && IsSpace(s[0]) then TrimStart(s[1..]) else s
  }

  /** Drops trailing whitespace. */
  function TrimEnd(s: string): (r: string)
    ensures |r| <= |s|
    ensures r != [] ==> !IsSpace(r[|r| - 1])
  {
    if s != [] && IsSpace(s[|s| - 1]) then TrimEnd(s[..|s| - 1]) else s
  }

  /** `str.strip()` restricted to space and \t, \n, \v, \f, \r. */
  function Strip(s: string): string
  {
    TrimEnd(TrimStart(s))
  }

  /** `int(s)` for a string: optional surrounding whitespace, an optional sign, then one or more
      decimal digits; anything else raises ValueError, modelled as InvalidNumber. */
  function ParseInt(s: string): (r: Result<int>)
    ensures r.Err? ==> r.error == InvalidNumber
  {
    ParseNumeral(Strip(s))
  }

  /** A stripped numeral: an optional sign followed by at least one digit. */
  function ParseNumeral(t: string): (r: Result<int>)
    ensures r.Err? ==> r.error == InvalidNumber
  {
    if t == [] then Err(InvalidNumber)
    else
      var negative := t[0] == '-';
      var digits := if t[0] == '-' || t[0] == '+' then t[1..] else t;
      if digits != [] && AllDigits(digits) then
        var magnitude: int := DigitsValue(digits);
        Ok(if negative then -magnitude else magnitude)
      else Err(InvalidNumber)
  }

  /** `int()` reads back what `%d` writes. */
  lemma ParseIntOfIntToString(n: int)
    ensures ParseInt(IntToString(n)) == Ok(n)
  {
    IntToStringDigits(n);
    var s := IntToString(n);
    if n < 0 {
      assert s[0] == '-' && IsDigit(s[1..][|s| - 2]);
    } else {
      assert IsDigit(s[0]);
    }
    assert !IsSpace(s[0]) && !IsSpace(s[|s| - 1]);
    assert Strip(s) == s;
  }

  /** `int()` also reads a non-negative numeral after a plus sign. */
  lemma ParseIntOfPlusSign(n: int)
    requires n >= 0
    ensures ParseInt("+" + IntToString(n)) == Ok(n)
  {
    IntToStringDigits(n);
    var d := IntToString(n);
    var p := "+" + d;
    assert p[1..] == d && p[|p| - 1] == d[|d| - 1];
    assert !IsSpace(p[0]) && !IsSpace(p[|p| - 1]);
    assert Strip(p) == p;
  }

  /** z zero characters. */
  function Zeros(z: nat): (s: string)
    ensures |s| == z
  {
    if z == 0 then "" else Zeros(z - 1) + "0"
  }

  /** Leading zeros do not change the value of a run of digits. */
  lemma {:induction false} DigitsValueZeroPrefix(z: nat, d: string)
    requires AllDigits(d)
    ensures AllDigits(Zeros(z) + d) && DigitsValue(Zeros(z) + d) == DigitsValue(d)
    decreases |d|
  {
    var s := Zeros(z) + d;
    if d == [] {
      assert s == Zeros(z);
      ZerosValue(z);
    } else {
      var e := d[..|d| - 1];
      assert s[..|s| - 1] == Zeros(z) + e;
      assert s[|s| - 1] == d[|d| - 1];
      DigitsValueZeroPrefix(z, e);
    }
  }

  lemma {:induction false} ZerosValue(z: nat)
    ensures AllDigits(Zeros(z)) && DigitsValue(Zeros(z)) == 0
    decreases z
  {
    if z > 0 {
      ZerosValue(z - 1);
      var s := Zeros(z);
      assert s[..|s| - 1] == Zeros(z - 1);
    }
  }

  /** `int()` reads a numeral with leading zeros, unsigned or after either sign, as the value of
      its digits: "007" and "+007" are 7, "-0" is 0. */
  lemma ParseIntOfZeroPadded(z: nat, n: nat)
    ensures ParseInt(Zeros(z) + NatToString(n)) == Ok(n)
    ensures ParseInt("+" + (Zeros(z) + NatToString(n))) == Ok(n)
    ensures ParseInt("-" + (Zeros(z) + NatToString(n))) == Ok(-(n as int))
  {
    var d := NatToString(n);
    var t := Zeros(z) + d;
    NatToStringDigits(n);
    DigitsValueZeroPrefix(z, d);
    assert t != [] && AllDigits(t) && DigitsValue(t) == n;
    ParseIntOfDigits(t, n);
  }

  /** `int()` of a run of digits, bare or after a sign, is its value. */
  lemma ParseIntOfDigits(t: string, v: nat)
    requires t != [] && AllDigits(t) && DigitsValue(t) == v
    ensures ParseInt(t) == Ok(v)
    ensures ParseInt("+" + t) == Ok(v)
    ensures ParseInt("-" + t) == Ok(-(v as int))
  {
    assert IsDigit(t[0]) && IsDigit(t[|t| - 1]);
    StripUnpadded(t);
    StripUnpadded("+" + t);
    StripUnpadded("-" + t);
    ParseNumeralOfDigits(t);
  }

  /** A run of digits, bare or after a sign, is read as its value. */
  lemma ParseNumeralOfDigits(t: string)
    requires t != [] && AllDigits(t)
    ensures ParseNumeral(t) == Ok(DigitsValue(t))
    ensures ParseNumeral("+" + t) == Ok(DigitsValue(t))
    ensures ParseNumeral("-" + t) == Ok(-(DigitsValue(t) as int))
  {
    assert ("+" + t)[1..] == t && ("-" + t)[1..] == t;
  }

  /** A string that neither starts nor ends with whitespace is left as it is by stripping. */
  lemma StripUnpadded(s: string)
    requires s != [] && !IsSpace(s[0]) && !IsSpace(s[|s| - 1])
    ensures Strip(s) == s
  {
  }

  /** A string `int()` reads as a number once stripped: one or more digits, possibly after a
      single sign. */
  predicate IsNumeral(t: string) {
    || (t != [] && AllDigits(t))
    || (|t| >= 2 && (t[0] == '+' || t[0] == '-') && AllDigits(t[1..]))
  }

  /** `int()` raises ValueError exactly on the strings whose stripped form is not a numeral. */
  lemma ParseIntAccepts(s: string)
    ensures ParseInt(s).Ok? <==> IsNumeral(Strip(s))
  {
  }

  /** A run of whitespace only. */
  predicate AllSpace(s: string) { forall i :: 0 <= i < |s| ==> IsSpace(s[i]) }

  lemma {:induction false} TrimStartSpacePrefix(a: string, t: string)
    requires AllSpace(a)
    ensures TrimStart(a + t) == TrimStart(t)
    decreases |a|
  {
    if a != [] {
      assert (a + t)[0] == a[0] && (a + t)[1..] == a[1..] + t;
      TrimStartSpacePrefix(a[1..], t);
    } else {
      assert a + t == t;
    }
  }

  lemma {:induction false} TrimEndSpaceSuffix(t: string, b: string)
    requires AllSpace(b)
    ensures TrimEnd(t + b) == TrimEnd(t)
    decreases |b|
  {
    if b != [] {
      var c := b[..|b| - 1];
      assert (t + b)[|t + b| - 1] == b[|b| - 1] && (t + b)[..|t + b| - 1] == t + c;
      TrimEndSpaceSuffix(t, c);
    } else {
      assert t + b == t;
    }
  }

  lemma {:induction false} TrimStartAppendSpaces(s: string, b: string)
    requires AllSpace(b)
    ensures TrimStart(s + b) == if TrimStart(s) == [] then [] else TrimStart(s) + b
    decreases |s|
  {
    if s != [] && IsSpace(s[0]) {
      assert (s + b)[0] == s[0] && (s + b)[1..] == s[1..] + b;
      TrimStartAppendSpaces(s[1..], b);
    } else if s == [] {
      assert s + b == b;
      TrimStartSpacePrefix(b, []);
      assert b + [] == b;
    } else {
      assert (s + b)[0] == s[0];
    }
  }

  /** Whitespace around a string does not survive stripping. */
  lemma StripIgnoresSpace(a: string, s: string, b: string)
    requires AllSpace(a) && AllSpace(b)
    ensures Strip(a + s + b) == Strip(s)
  {
    assert a + s + b == a + (s + b);
    TrimStartSpacePrefix(a, s + b);
    TrimStartAppendSpaces(s, b);
    var t := TrimStart(s);
    if t != [] {
      TrimEndSpaceSuffix(t, b);
    }
  }

  /** int() ignores any whitespace around the numeral. */
  lemma ParseIntIgnoresSpace(a: string, s: string, b: string)
    requires AllSpace(a) && AllSpace(b)
    ensures ParseInt(a + s + b) == ParseInt(s)
  {
    StripIgnoresSpace(a, s, b);
  }
}
