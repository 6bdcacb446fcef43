/** The timestamp layout '%Y-%m-%d %H:%M:%S': `strftime` writes it for every billing-period
    bound, `datetime.strptime` reads it from the -y and -z arguments. */
module TimestampFormat {
  import opened Outcomes
  import opened Decimal
  import opened Calendar

  /** A number below 100 as two digits, zero-padded (`%m`, `%d`, `%H`, `%M`, `%S`). */
  function Pad2(n: nat): (s: string)
    requires n < 100
    ensures |s| == 2
  {
    [DigitChar(n / 10), DigitChar(n % 10)]
  }

  /** A year below 10000 as four digits, zero-padded (`%Y`). */
  function Pad4(n: nat): (s: string)
    requires n < 10000
    ensures |s| == 4
  {
    Pad2(n / 100) + Pad2(n % 100)
  }

  /** The two padded digits read back as the number. */
  lemma Pad2Digits(n: nat)
    requires n < 100
    ensures AllDigits(Pad2(n)) && Value2(Pad2(n), 0) == n
  {
  }

  /** The four padded digits read back as the year. */
  lemma Pad4Digits(n: nat)
    requires n < 10000
    ensures AllDigits(Pad4(n)) && Value4(Pad4(n), 0) == n
  {
    Pad2Digits(n / 100);
    Pad2Digits(n % 100);
    var s := Pad4(n);
    assert s[..2] == Pad2(n / 100) && s[2..] == Pad2(n % 100);
    assert Value2(s, 0) == Value2(Pad2(n / 100), 0);
    assert Value2(s, 2) == Value2(Pad2(n % 100), 0);
  }

  /** The value of the two digits at s[i], s[i + 1]. */
  function Value2(s: string, i: nat): nat
    requires i + 2 <= |s| && IsDigit(s[i]) && IsDigit(s[i + 1])
  {
    DigitValue(s[i]) * 10 + DigitValue(s[i + 1])
  }

  /** The value of the four digits from s[i]. */
  function Value4(s: string, i: nat): nat
    requires i + 4 <= |s| && forall j :: i <= j < i + 4 ==> IsDigit(s[j])
  {
    Value2(s, i) * 100 + Value2(s, i + 2)
  }

  /** `t.strftime('%Y-%m-%d %H:%M:%S')`: each field zero-padded, microseconds dropped. */
  function Format(t: DateTime): (s: string)
    requires Valid(t)
    ensures |s| == 19
  {
    Pad4(t.year) + "-" + Pad2(t.month) + "-" + Pad2(t.day) + " "
      + Pad2(t.hour) + ":" + Pad2(t.minute) + ":" + Pad2(t.second)
  }

  /** The positions of the separators and digits of the layout. */
  predicate Layout(s: string) {
    && |s| == 19
    && s[4] == '-' && s[7] == '-' && s[10] == ' ' && s[13] == ':' && s[16] == ':'
    && forall j :: 0 <= j < 19 && j != 4 && j != 7 && j != 10 && j != 13 && j != 16 ==> IsDigit(s[j])
  }

  /** `datetime.strptime(s, '%Y-%m-%d %H:%M:%S')` on the zero-padded layout: it succeeds
      exactly when the fields form a valid datetime (a month of 13, a 30 February or a second of 60 raise ValueError,
      modelled as None); the result has no microseconds. */
  function Parse(s: string): (r: Option<DateTime>)
    ensures r.Some? ==> Layout(s) && Valid(r.value) && r.value.microsecond == 0
    ensures r.Some? ==> r.value.year == Value4(s, 0) && r.value.month == Value2(s, 5)
                        && r.value.day == Value2(s, 8) && r.value.hour == Value2(s, 11)
                        && r.value.minute == Value2(s, 14) && r.value.second == Value2(s, 17)
    ensures (Layout(s) && Valid(DateTime(Value4(s, 0), Value2(s, 5), Value2(s, 8), Value2(s, 11),
                                         Value2(s, 14), Value2(s, 17), 0)))
            ==> r.Some?
  {
    if !Layout(s) then None
    else
      var t := DateTime(Value4(s, 0), Value2(s, 5), Value2(s, 8),
                        Value2(s, 11), Value2(s, 14), Value2(s, 17), 0);
      if Valid(t) then Some(t) else None
  }

  /** The datetime a formatted timestamp denotes: the same, to the second. */
  function Truncate(t: DateTime): DateTime {
    t.(microsecond := 0)
  }

  /** Reading back a formatted timestamp gives the datetime it was written from, to the second. */
  lemma ParseFormat(t: DateTime)
    requires Valid(t)
    ensures Parse(Format(t)) == Some(Truncate(t))
  {
    var y, mo, d, h, mi, se := Pad4(t.year), Pad2(t.month), Pad2(t.day), Pad2(t.hour), Pad2(t.minute), Pad2(t.second);
    Pad4Digits(t.year);
    Pad2Digits(t.month);
    Pad2Digits(t.day);
    Pad2Digits(t.hour);
    Pad2Digits(t.minute);
    Pad2Digits(t.second);
    var s := Format(t);
    assert s[0..4] == y;
    assert s[5..7] == mo;
    assert s[8..10] == d;
    assert s[11..13] == h;
    assert s[14..16] == mi;
    assert s[17..19] == se;
    assert Layout(s);
    assert Value4(s, 0) == Value4(y, 0);
    assert Value2(s, 5) == Value2(mo, 0);
    assert Value2(s, 8) == Value2(d, 0);
    assert Value2(s, 11) == Value2(h, 0);
    assert Value2(s, 14) == Value2(mi, 0);
    assert Value2(s, 17) == Value2(se, 0);
  }

  /** Two bounds format alike exactly when they agree to the second. */
  lemma FormatInjective(a: DateTime, b: DateTime)
    requires Valid(a) && Valid(b)
    ensures Format(a) == Format(b) <==> Truncate(a) == Truncate(b)
  {
    ParseFormat(a);
    ParseFormat(b);
  }

  /** The example bounds of the command-line help. */
  lemma ParseExample()
    ensures Parse("2015-12-01 05:30:00") == Some(DateTime(2015, 12, 1, 5, 30, 0, 0))
    ensures Parse("2015-02-29 05:30:00") == None
    ensures Parse("2015-12-01 05:30") == None
  {
    var s := "2015-12-01 05:30:00";
    assert Layout(s);
    assert Value4(s, 0) == 2015;
    var bad := "2015-02-29 05:30:00";
    assert Layout(bad);
    assert Value2(bad, 5) == 2 && Value2(bad, 8) == 29 && Value4(bad, 0) == 2015;
  }
}
