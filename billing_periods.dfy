/** The billing-period resolver: the `timestamps` dict that `get_timestamps` builds from the
    tenant's current billing cycle, and the single period of an explicit -y/-z range. */
module BillingPeriods {
  import opened Outcomes
  import opened Decimal
  import opened Calendar
  import opened TimestampFormat

  /** A bound handed to the usage query: the string `get_timestamps` formats, or the datetime
      `strptime` returns for an explicit range. */
  datatype Bound = Text(text: string) | Moment(moment: DateTime)

  datatype Period = Period(start: Bound, end: Bound)

  /** The `timestamps` dict: its entries, and its keys in insertion order, which is the order
      in which `timestamps.items()` visits them. */
  datatype Timestamps = Timestamps(order: seq<int>, entries: map<int, Period>)

  /** Each key is listed once, and the listed keys are exactly the keys of the entries. */
  ghost predicate WellFormed(d: Timestamps) {
    && (forall i, j :: 0 <= i < j < |d.order| ==> d.order[i] != d.order[j])
    && (forall k :: k in d.entries <==> k in d.order)
  }

  const NoTimestamps := Timestamps([], map[])

  /** `d[k] = p`: a new key goes last in iteration order, an existing key keeps its place. */
  function Insert(d: Timestamps, k: int, p: Period): (r: Timestamps)
    requires WellFormed(d)
    ensures WellFormed(r)
    ensures r.entries == d.entries[k := p]
    ensures k in d.entries ==> r.order == d.order
    ensures k !in d.entries ==> r.order == d.order + [k]
  {
    if k in d.entries then Timestamps(d.order, d.entries[k := p])
    else Timestamps(d.order + [k], d.entries[k := p])
  }

  /** `set_billing_periods`: a missing or empty argument means one period, anything else is
      converted by `int()`. */
  function SetBillingPeriods(arg: Option<string>): (r: Result<int>)
    ensures r.Err? ==> r.error == InvalidNumber
  {
    if arg == None || arg == Some("") then Ok(1) else ParseInt(arg.value)
  }

  /** A non-empty argument with whitespace around it counts as int() reads the argument. */
  lemma SetBillingPeriodsPadded(a: string, x: string, b: string)
    requires AllSpace(a) && AllSpace(b) && x != []
    ensures SetBillingPeriods(Some(a + x + b)) == ParseInt(x)
  {
    assert |a + x + b| > 0;
    ParseIntIgnoresSpace(a, x, b);
  }

  /** A numeral gives its value, zero and negative counts included, whatever whitespace
      int() ignores surrounds it; a non-negative count may also carry a plus sign. */
  lemma SetBillingPeriodsOfNumeral(a: string, n: int, b: string)
    requires AllSpace(a) && AllSpace(b)
    ensures SetBillingPeriods(Some(a + IntToString(n) + b)) == Ok(n)
    ensures n >= 0 ==> SetBillingPeriods(Some(a + ("+" + IntToString(n)) + b)) == Ok(n)
  {
    var d := IntToString(n);
    ParseIntOfIntToString(n);
    SetBillingPeriodsPadded(a, d, b);
    if n >= 0 {
      ParseIntOfPlusSign(n);
      SetBillingPeriodsPadded(a, "+" + d, b);
    }
  }

  /** A numeral with leading zeros gives the value of its digits, unsigned or after either
      sign, whatever whitespace surrounds it: `-b 02` asks for two periods. */
  lemma SetBillingPeriodsZeroPadded(a: string, z: nat, n: nat, b: string)
    requires AllSpace(a) && AllSpace(b)
    ensures SetBillingPeriods(Some(a + (Zeros(z) + NatToString(n)) + b)) == Ok(n)
    ensures SetBillingPeriods(Some(a + ("+" + (Zeros(z) + NatToString(n))) + b)) == Ok(n)
    ensures SetBillingPeriods(Some(a + ("-" + (Zeros(z) + NatToString(n))) + b)) == Ok(-(n as int))
  {
    var t := Zeros(z) + NatToString(n);
    ParseIntOfZeroPadded(z, n);
    SetBillingPeriodsPadded(a, t, b);
    SetBillingPeriodsPadded(a, "+" + t, b);
    SetBillingPeriodsPadded(a, "-" + t, b);
  }

  /** The default is one period; any other argument, a blank one included, is an error exactly
      when what is left after stripping is not a numeral. */
  lemma SetBillingPeriodsDefault(s: string)
    ensures SetBillingPeriods(None) == Ok(1) && SetBillingPeriods(Some("")) == Ok(1)
    ensures s != "" ==> (SetBillingPeriods(Some(s)) == Err(InvalidNumber) <==> !IsNumeral(Strip(s)))
    ensures SetBillingPeriods(Some("three")) == Err(InvalidNumber)
    ensures SetBillingPeriods(Some(" ")) == Err(InvalidNumber)
  {
    ParseIntAccepts(s);
    assert "three"[0] == 't' && !IsSpace('t');
    assert "three"[|"three"| - 1] == 'e' && !IsSpace('e');
    assert Strip("three") == "three";
    assert TrimStart(" ") == TrimStart(" "[1..]) == "";
  }

  /** The dates of period k by the resolver's rule: period 1 is the current cycle as the
      warehouse gives it; period k >= 2 runs from the cycle start shifted back k - 1 months to
      the cycle start shifted back k - 2 months. None when a shift leaves the datetime range. */
  function PeriodDates(start: DateTime, end: DateTime, k: int): Option<(DateTime, DateTime)>
    requires Valid(start) && k >= 1
  {
    if k == 1 then Some((start, end))
    else
      var from := AddMonths(start, -(k - 1));
      var until := AddMonths(start, -(k - 2));
      if from.Some? && until.Some? then Some((from.value, until.value)) else None
  }

  /** Every shift n periods need stays inside the datetime range. */
  predicate Resolvable(start: DateTime, n: int)
    requires Valid(start)
  {
    n < 2 || AddMonths(start, -(n - 1)).Some?
  }

  function Formatted(dates: (DateTime, DateTime)): Period
    requires Valid(dates.0) && Valid(dates.1)
  {
    Period(Text(Format(dates.0)), Text(Format(dates.1)))
  }

  /** When the oldest period can be computed, so can every newer one, and its dates are valid. */
  lemma PeriodDatesDefined(start: DateTime, end: DateTime, n: int, k: int)
    requires Valid(start) && Valid(end) && Resolvable(start, n) && 1 <= k <= n
    ensures PeriodDates(start, end, k).Some?
    ensures Valid(PeriodDates(start, end, k).value.0) && Valid(PeriodDates(start, end, k).value.1)
  {
    if k >= 2 {
      AddMonthsDefinedBetween(start, -(n - 1), -(k - 1));
      AddMonthsDefinedBetween(start, -(n - 1), -(k - 2));
    }
  }

  /** p is period k of the cycle (start, end), formatted from the resolver's dates. */
  predicate IsPeriod(start: DateTime, end: DateTime, k: int, p: Period)
    requires Valid(start) && Valid(end) && k >= 1
  {
    && PeriodDates(start, end, k).Some?
    && Valid(PeriodDates(start, end, k).value.0) && Valid(PeriodDates(start, end, k).value.1)
    && p == Formatted(PeriodDates(start, end, k).value)
  }

  /** The keys n, n - 1, ..., 1 in the order the resolver inserts them; empty when n <= 0. */
  function CountDown(n: int): (r: seq<int>)
    ensures |r| == (if n > 0 then n else 0)
    ensures forall i :: 0 <= i < |r| ==> r[i] == n - i
    decreases n
  {
    if n <= 0 then [] else [n] + CountDown(n - 1)
  }

  function Abs(x: int): int { if x < 0 then -x else x }

  /** What the loop of `get_timestamps` has built once the count is down to num: the periods
      num + 1 .. n, inserted from n down. */
  ghost predicate Built(start: DateTime, end: DateTime, n: int, num: int, d: Timestamps)
    requires Valid(start) && Valid(end)
  {
    && WellFormed(d)
    && |d.order| == n - num
    && (forall i :: 0 <= i < |d.order| ==> d.order[i] == n - i)
    && (forall k :: k in d.entries <==> num < k <= n)
    && (forall k :: 0 < k && num < k <= n ==> IsPeriod(start, end, k, d.entries[k]))
  }

  /** Inserting period num extends what has been built by one step of the count-down. */
  lemma InsertPeriod(start: DateTime, end: DateTime, n: int, num: int, d: Timestamps, p: Period)
    requires Valid(start) && Valid(end) && 1 <= num <= n
    requires Built(start, end, n, num, d) && IsPeriod(start, end, num, p)
    ensures Built(start, end, n, num - 1, Insert(d, num, p))
  {
    var r := Insert(d, num, p);
    assert num !in d.entries;
    assert r.order == d.order + [num];
    assert |r.order| == n - (num - 1);
    forall i | 0 <= i < |r.order|
      ensures r.order[i] == n - i
    {
      if i < |d.order| {
        assert r.order[i] == d.order[i];
      }
    }
    assert r.entries == d.entries[num := p];
    forall k | num - 1 < k <= n
      ensures k in r.entries && IsPeriod(start, end, k, r.entries[k])
    {
      if k == num {
        assert r.entries[k] == p;
      } else {
        assert k in d.entries;
        assert r.entries[k] == d.entries[k];
      }
    }
  }

  /** Once the count is down to zero, the dict holds exactly the periods 1..n. */
  lemma BuiltAll(start: DateTime, end: DateTime, n: int, d: Timestamps)
    requires Valid(start) && Valid(end)
    requires Built(start, end, n, if n > 0 then 0 else n, d)
    ensures WellFormed(d) && d.order == CountDown(n)
    ensures forall k :: k in d.entries <==> 1 <= k <= n
    ensures n >= 1 ==> d.entries[1] == Period(Text(Format(start)), Text(Format(end)))
    ensures forall k :: 1 <= k <= n ==> IsPeriod(start, end, k, d.entries[k])
  {
    assert d.order == CountDown(n);
    if n >= 1 {
      assert IsPeriod(start, end, 1, d.entries[1]);
    }
  }

  /** `get_timestamps` after its warehouse lookup: given the current cycle (start, end) and the
      period count n, a loop counting n down to 1 inserts each period into the dict. It fails
      exactly when the oldest period's start lies before year 1. Otherwise the keys are exactly
      1..n, inserted from n down to 1, and each period is formatted from the resolver's dates. */
  method GetTimestamps(start: DateTime, end: DateTime, n: int) returns (r: Result<Timestamps>)
    requires Valid(start) && Valid(end)
    ensures r.Err? <==> !Resolvable(start, n)
    ensures r.Err? ==> r.error == DateOutOfRange
    ensures r.Ok? ==> WellFormed(r.value) && r.value.order == CountDown(n)
    ensures r.Ok? ==> forall k :: k in r.value.entries <==> 1 <= k <= n
    ensures r.Ok? && n >= 1 ==> r.value.entries[1] == Period(Text(Format(start)), Text(Format(end)))
    ensures r.Ok? ==> forall k :: 1 <= k <= n ==> IsPeriod(start, end, k, r.value.entries[k])
  {
    var timestamps := NoTimestamps;
    var num := n;
    while num > 0
      invariant num <= n && (num < n ==> 0 <= num)
      invariant num < n ==> Resolvable(start, n)
      invariant Built(start, end, n, num, timestamps)
    {
      var next := AddPeriod(start, end, n, num, timestamps);
      if next.Err? {
        return Err(DateOutOfRange);
      }
      timestamps := next.value;
      num := num - 1;
    }
    BuiltAll(start, end, n, timestamps);
    return Ok(timestamps);
  }

  /** One pass of the loop of `get_timestamps`: computes period num and inserts it. Only the
      first pass, for the oldest period, can fail, and it fails exactly when that period's start
      is out of range. */
  method AddPeriod(start: DateTime, end: DateTime, n: int, num: int, d: Timestamps)
    returns (r: Result<Timestamps>)
    requires Valid(start) && Valid(end) && 1 <= num <= n
    requires num < n ==> Resolvable(start, n)
    requires Built(start, end, n, num, d)
    ensures r.Err? <==> !Resolvable(start, n)
    ensures r.Ok? ==> Built(start, end, n, num - 1, r.value)
  {
    if num < n && num >= 2 {
      AddMonthsDefinedBetween(start, -(n - 1), -(num - 1));
    }
    var period := PeriodFor(start, end, num);
    if period.Err? {
      return Err(DateOutOfRange);
    }
    InsertPeriod(start, end, n, num, d, period.value);
    r := Ok(Insert(d, num, period.value));
  }

  /** One pass of the loop body of `get_timestamps`: period 1 is the cycle itself; period 2
      runs from one month before the cycle start to the cycle start; period k >= 3 is shifted by
      -(k - 1) and -(k - 2) months. A shift out of the datetime range raises. */
  method PeriodFor(start: DateTime, end: DateTime, num: int) returns (r: Result<Period>)
    requires Valid(start) && Valid(end) && num >= 1
    ensures r.Err? <==> num >= 2 && AddMonths(start, -(num - 1)).None?
    ensures r.Err? ==> r.error == DateOutOfRange
    ensures r.Ok? ==> IsPeriod(start, end, num, r.value)
  {
    if num == 1 {
      r := Ok(Period(Text(Format(start)), Text(Format(end))));
    } else if num == 2 {
      var from := AddMonths(start, -1);
      if from.None? {
        return Err(DateOutOfRange);
      }
      AddMonthsZero(start);
      r := Ok(Period(Text(Format(from.value)), Text(Format(start))));
    } else {
      var months := -Abs(num - 1);
      var from := AddMonths(start, months);
      if from.None? {
        return Err(DateOutOfRange);
      }
      AddMonthsDefinedBetween(start, months, months + 1);
      var until := AddMonths(start, months + 1).value;
      r := Ok(Period(Text(Format(from.value)), Text(Format(until))));
    }
  }

  /** Contiguity: the end of period k is the start of period k - 1. Every bound is shifted from
      the same cycle start, so day clamping cannot open a gap. */
  lemma PeriodsContiguous(start: DateTime, end: DateTime, k: int)
    requires Valid(start) && Valid(end) && k >= 2
    requires PeriodDates(start, end, k).Some?
    ensures PeriodDates(start, end, k - 1).Some?
    ensures PeriodDates(start, end, k).value.1 == PeriodDates(start, end, k - 1).value.0
  {
    if k == 2 {
      AddMonthsZero(start);
    } else {
      AddMonthsDefinedBetween(start, -(k - 2), -(k - 3));
    }
  }

  /** A derived period (k >= 2) is one calendar month long: it starts strictly before it ends,
      its end month follows its start month, and both keep the cycle start's time of day. */
  lemma PeriodOrdered(start: DateTime, end: DateTime, k: int)
    requires Valid(start) && Valid(end) && k >= 2
    requires PeriodDates(start, end, k).Some?
    ensures Before(PeriodDates(start, end, k).value.0, PeriodDates(start, end, k).value.1)
    ensures MonthIndex(PeriodDates(start, end, k).value.1) == MonthIndex(PeriodDates(start, end, k).value.0) + 1
    ensures PeriodDates(start, end, k).value.0.hour == start.hour
    ensures PeriodDates(start, end, k).value.0.minute == start.minute
    ensures PeriodDates(start, end, k).value.0.second == start.second
  {
    AddMonthsIncreasing(start, -(k - 1), -(k - 2));
  }

  /** Periods do not overlap: an older period ends no later than a newer one starts. */
  lemma PeriodsDisjoint(start: DateTime, end: DateTime, j: int, k: int)
    requires Valid(start) && Valid(end) && 1 <= j < k
    requires PeriodDates(start, end, k).Some?
    ensures PeriodDates(start, end, j).Some?
    ensures BeforeOrSame(PeriodDates(start, end, k).value.1, PeriodDates(start, end, j).value.0)
  {
    var until := AddMonths(start, -(k - 2));
    if j >= 2 {
      AddMonthsDefinedBetween(start, -(k - 2), -(j - 1));
      AddMonthsDefinedBetween(start, -(k - 2), -(j - 2));
      if j < k - 1 {
        AddMonthsIncreasing(start, -(k - 2), -(j - 1));
      }
    } else {
      AddMonthsZero(start);
      if k > 2 {
        AddMonthsIncreasing(start, -(k - 2), 0);
      }
    }
  }

  /** The strings of a derived period read back as the period's dates to the second, and the
      start the warehouse is given lies strictly before the end. */
  lemma PeriodTextOrdered(start: DateTime, end: DateTime, k: int)
    requires Valid(start) && Valid(end) && k >= 2
    requires PeriodDates(start, end, k).Some?
    ensures Valid(PeriodDates(start, end, k).value.0) && Valid(PeriodDates(start, end, k).value.1)
    ensures Parse(Formatted(PeriodDates(start, end, k).value).start.text)
         == Some(Truncate(PeriodDates(start, end, k).value.0))
    ensures Parse(Formatted(PeriodDates(start, end, k).value).end.text)
         == Some(Truncate(PeriodDates(start, end, k).value.1))
    ensures Before(Truncate(PeriodDates(start, end, k).value.0), Truncate(PeriodDates(start, end, k).value.1))
  {
    var dates := PeriodDates(start, end, k).value;
    PeriodOrdered(start, end, k);
    ParseFormat(dates.0);
    ParseFormat(dates.1);
    MonthIndexOrder(Truncate(dates.0), Truncate(dates.1));
  }

  /** The example of the resolver's own documentation: a cycle starting 2017-03-19 18:09:47. */
  lemma DocumentedExample()
    ensures PeriodDates(DateTime(2017, 3, 19, 18, 9, 47, 0), DateTime(2017, 4, 19, 18, 9, 47, 0), 2)
         == Some((DateTime(2017, 2, 19, 18, 9, 47, 0), DateTime(2017, 3, 19, 18, 9, 47, 0)))
    ensures PeriodDates(DateTime(2017, 3, 19, 18, 9, 47, 0), DateTime(2017, 4, 19, 18, 9, 47, 0), 3)
         == Some((DateTime(2017, 1, 19, 18, 9, 47, 0), DateTime(2017, 2, 19, 18, 9, 47, 0)))
  {
  }

  /** Three periods for a cycle [2024-01-01, 2024-02-01): December and November 2023 follow,
      at the cycle start's time of day. */
  lemma ThreePeriodExample()
    ensures PeriodDates(DateTime(2024, 1, 1, 0, 0, 0, 0), DateTime(2024, 2, 1, 0, 0, 0, 0), 2)
         == Some((DateTime(2023, 12, 1, 0, 0, 0, 0), DateTime(2024, 1, 1, 0, 0, 0, 0)))
    ensures PeriodDates(DateTime(2024, 1, 1, 0, 0, 0, 0), DateTime(2024, 2, 1, 0, 0, 0, 0), 3)
         == Some((DateTime(2023, 11, 1, 0, 0, 0, 0), DateTime(2023, 12, 1, 0, 0, 0, 0)))
  {
  }

  /** A cycle starting on the 31st: the clamped bounds still meet. */
  lemma MonthEndExample()
    ensures PeriodDates(DateTime(2023, 3, 31, 0, 0, 0, 0), DateTime(2023, 4, 30, 0, 0, 0, 0), 2)
         == Some((DateTime(2023, 2, 28, 0, 0, 0, 0), DateTime(2023, 3, 31, 0, 0, 0, 0)))
    ensures PeriodDates(DateTime(2023, 3, 31, 0, 0, 0, 0), DateTime(2023, 4, 30, 0, 0, 0, 0), 3)
         == Some((DateTime(2023, 1, 31, 0, 0, 0, 0), DateTime(2023, 2, 28, 0, 0, 0, 0)))
  {
  }

  /** `timestamps = {1: {"start": strptime(y), "end": strptime(z)}}`: one period keyed 1 with the
      parsed bounds, whatever the period count; a bound strptime rejects is an error. The two
      bounds are not compared. */
  function ExplicitTimestamps(startArg: string, endArg: string): (r: Result<Timestamps>)
    ensures r.Err? <==> Parse(startArg).None? || Parse(endArg).None?
    ensures r.Err? ==> r.error == InvalidTimestamp
    ensures r.Ok? ==> && WellFormed(r.value) && r.value.order == [1]
                      && r.value.entries == map[1 := Period(Moment(Parse(startArg).value),
                                                           Moment(Parse(endArg).value))]
  {
    var from := Parse(startArg);
    if from.None? then Err(InvalidTimestamp)
    else
      var until := Parse(endArg);
      if until.None? then Err(InvalidTimestamp)
      else Ok(Insert(NoTimestamps, 1, Period(Moment(from.value), Moment(until.value))))
  }
}
