/**
 * The line chart of events per year, and its brush: the yearly counts in
 * ascending year order, the scale domains, the conversion pieces that turn a
 * brushed fractional year into a calendar day and a time of day, the
 * inclusive time-window filter, and the push of the filtered records into the
 * bar chart and the cartogram.
 */
module LineChartView {
  import opened Wrappers
  import opened Strings
  import opened Grouping
  import opened Records
  import opened BarChart
  import opened Cartogram
  import opened Selection

  // ---------------------------------------------------------------- yearly counts

  /** One `{key, value}` entry of `timeArray`: a year and its number of events. */
  datatype YearCount = YearCount(key: int, value: nat)

  /** The entry `d3.rollup` makes of one group: its key and its length. */
  function Counts(gs: seq<Group<int, Record>>): (ts: seq<YearCount>)
    ensures |ts| == |gs|
    ensures forall i :: 0 <= i < |gs| ==> ts[i] == YearCount(gs[i].key, Size(gs[i]))
  {
    if gs == [] then [] else Counts(gs[..|gs| - 1]) + [YearCount(gs[|gs| - 1].key, Size(gs[|gs| - 1]))]
  }

  /** The sum of the counts. */
  function SumValues(ts: seq<YearCount>): nat {
    if ts == [] then 0 else SumValues(ts[..|ts| - 1]) + ts[|ts| - 1].value
  }

  lemma {:induction false} SumCounts(gs: seq<Group<int, Record>>)
    ensures SumValues(Counts(gs)) == TotalSize(gs)
  {
    if gs != [] {
      SumCounts(gs[..|gs| - 1]);
    }
  }

  predicate DistinctYears(ts: seq<YearCount>) {
    forall i, j :: 0 <= i < j < |ts| ==> ts[i].key != ts[j].key
  }

  /**
   * `d3.rollup(data, v => v.length, d => d.Year)` as an array: one entry per
   * year that occurs, in order of first occurrence, holding that year's count;
   * the counts add up to the number of records.
   */
  function Rollup(data: seq<Record>): (ts: seq<YearCount>)
    ensures DistinctYears(ts)
    ensures forall i :: 0 <= i < |ts| ==> ts[i].value == |WithKey(data, Year, ts[i].key)| > 0
    ensures forall r :: r in data ==> exists i :: 0 <= i < |ts| && ts[i].key == r.year
    ensures SumValues(ts) == |data|
  {
    var gs := GroupBy(data, Year);
    SumCounts(gs);
    ElementsHaveGroups(data, Year);
    Counts(gs)
  }

  /** Keys strictly increase along the array. */
  predicate StrictlyAscending(ts: seq<YearCount>) {
    forall i, j :: 0 <= i < j < |ts| ==> ts[i].key < ts[j].key
  }

  /** Inserts `x` before the first entry with a larger key. */
  function InsertByKey(s: seq<YearCount>, x: YearCount): (r: seq<YearCount>)
    requires StrictlyAscending(s)
    requires forall i :: 0 <= i < |s| ==> s[i].key != x.key
    ensures StrictlyAscending(r)
    ensures multiset(r) == multiset(s) + multiset{x}
    ensures SumValues(r) == SumValues(s) + x.value
  {
    if s == [] then [x]
    else if x.key < s[0].key then
      PrependLowerKey(x, s);
      [x] + s
    else
      AscendingTail(s, x);
      var rest := InsertByKey(s[1..], x);
      PrependHeadKey(s, x, rest);
      [s[0]] + rest
  }

  lemma PrependLowerKey(x: YearCount, s: seq<YearCount>)
    requires StrictlyAscending(s) && s != [] && x.key < s[0].key
    ensures StrictlyAscending([x] + s)
    ensures SumValues([x] + s) == x.value + SumValues(s)
  {
    assert forall j :: 0 <= j < |s| ==> x.key < s[j].key;
    PrependBelow(x, s);
    SumValuesCons(x, s);
  }

  /** An entry whose key is below every key of an ascending array can go in front. */
  lemma PrependBelow(h: YearCount, rest: seq<YearCount>)
    requires StrictlyAscending(rest)
    requires forall j :: 0 <= j < |rest| ==> h.key < rest[j].key
    ensures StrictlyAscending([h] + rest)
  {
    var r := [h] + rest;
    forall i, j | 0 <= i < j < |r| ensures r[i].key < r[j].key {
      assert r[j] == rest[j - 1];
      if i > 0 {
        assert r[i] == rest[i - 1];
      }
    }
  }

  lemma AscendingTail(s: seq<YearCount>, x: YearCount)
    requires StrictlyAscending(s) && s != []
    requires forall i :: 0 <= i < |s| ==> s[i].key != x.key
    ensures StrictlyAscending(s[1..])
    ensures forall i :: 0 <= i < |s[1..]| ==> s[1..][i].key != x.key
  {
    forall i, j | 0 <= i < j < |s[1..]| ensures s[1..][i].key < s[1..][j].key {
      assert s[1..][i] == s[i + 1] && s[1..][j] == s[j + 1];
    }
  }

  lemma PrependHeadKey(s: seq<YearCount>, x: YearCount, rest: seq<YearCount>)
    requires StrictlyAscending(s) && s != [] && s[0].key < x.key
    requires StrictlyAscending(rest) && multiset(rest) == multiset(s[1..]) + multiset{x}
    requires SumValues(rest) == SumValues(s[1..]) + x.value
    ensures StrictlyAscending([s[0]] + rest)
    ensures multiset([s[0]] + rest) == multiset(s) + multiset{x}
    ensures SumValues([s[0]] + rest) == SumValues(s) + x.value
  {
    HeadBelowRest(s, x, rest);
    PrependBelow(s[0], rest);
    assert s == [s[0]] + s[1..];
    SumValuesCons(s[0], rest);
    SumValuesCons(s[0], s[1..]);
  }

  /** The head of an ascending array is below every entry of its tail with `x` added. */
  lemma HeadBelowRest(s: seq<YearCount>, x: YearCount, rest: seq<YearCount>)
    requires StrictlyAscending(s) && s != [] && s[0].key < x.key
    requires multiset(rest) == multiset(s[1..]) + multiset{x}
    ensures forall j :: 0 <= j < |rest| ==> s[0].key < rest[j].key
  {
    forall j | 0 <= j < |rest| ensures s[0].key < rest[j].key {
      assert rest[j] in multiset(rest);
      if rest[j] != x {
        assert rest[j] in multiset(s[1..]);
        var k :| 0 <= k < |s[1..]| && s[1..][k] == rest[j];
        assert s[k + 1] == rest[j];
      }
    }
  }

  lemma {:induction false} SumValuesCons(x: YearCount, s: seq<YearCount>)
    ensures SumValues([x] + s) == x.value + SumValues(s)
    decreases |s|
  {
    if s == [] {
      assert [x][..0] == [];
    } else {
      assert ([x] + s)[..|s|] == [x] + s[..|s| - 1];
      SumValuesCons(x, s[..|s| - 1]);
    }
  }

  /**
   * `timeArray.sort((a, b) => a.key - b.key)` on distinct keys: the same
   * entries in strictly ascending key order, with the same total.
   */
  function SortByKey(ts: seq<YearCount>): (r: seq<YearCount>)
    requires DistinctYears(ts)
    ensures StrictlyAscending(r)
    ensures multiset(r) == multiset(ts)
    ensures SumValues(r) == SumValues(ts)
  {
    if ts == [] then []
    else
      var init := ts[..|ts| - 1];
      var x := ts[|ts| - 1];
      assert ts == init + [x];
      assert DistinctYears(init);
      var sorted := SortByKey(init);
      forall i | 0 <= i < |sorted| ensures sorted[i].key != x.key {
        assert sorted[i] in multiset(init);
        var k :| 0 <= k < |init| && init[k] == sorted[i];
        assert ts[k] == init[k];
      }
      InsertByKey(sorted, x)
  }

  /**
   * `timeArray` after `updateVis`: one entry per year that occurs, in strictly
   * ascending year order, each holding that year's number of records; the
   * counts add up to the number of records.
   */
  function TimeArray(data: seq<Record>): (ta: seq<YearCount>)
    ensures StrictlyAscending(ta)
    ensures forall i :: 0 <= i < |ta| ==> ta[i].value == |WithKey(data, Year, ta[i].key)| > 0
    ensures forall r :: r in data ==> exists i :: 0 <= i < |ta| && ta[i].key == r.year
    ensures SumValues(ta) == |data|
  {
    var ts := Rollup(data);
    var ta := SortByKey(ts);
    forall i | 0 <= i < |ta| ensures ta[i].value == |WithKey(data, Year, ta[i].key)| > 0 {
      assert ta[i] in multiset(ts);
    }
    forall r | r in data ensures exists i :: 0 <= i < |ta| && ta[i].key == r.year {
      var j :| 0 <= j < |ts| && ts[j].key == r.year;
      assert ts[j] in multiset(ta);
    }
    ta
  }

  /** A year of the table is a key of `timeArray` exactly when some record has it. */
  lemma TimeArrayKeys(data: seq<Record>, y: int)
    ensures (exists i :: 0 <= i < |TimeArray(data)| && TimeArray(data)[i].key == y)
            <==> (exists r :: r in data && r.year == y)
  {
    var ta := TimeArray(data);
    if i :| 0 <= i < |ta| && ta[i].key == y {
      var members := WithKey(data, Year, y);
      assert members[0] in members;
    }
  }

  /**
   * `xDomain`: the first and last of the sorted distinct keys. On
   * `timeArray` the keys are already distinct and sorted, so these are its
   * first and last keys; with no records both ends are `undefined`.
   */
  function XDomain(ta: seq<YearCount>): Option<(int, int)> {
    if ta == [] then None else Some((ta[0].key, ta[|ta| - 1].key))
  }

  /** The x domain spans exactly the years of the records, from earliest to latest. */
  lemma XDomainSpansYears(data: seq<Record>)
    ensures XDomain(TimeArray(data)).None? <==> data == []
    ensures XDomain(TimeArray(data)).Some? ==>
              var (lo, hi) := XDomain(TimeArray(data)).value;
              lo <= hi && (forall r :: r in data ==> lo <= r.year <= hi) &&
              (exists r :: r in data && r.year == lo) && (exists r :: r in data && r.year == hi)
  {
    var ta := TimeArray(data);
    if data != [] {
      assert data[0] in data;
      assert ta != [];
      var lo, hi := ta[0].key, ta[|ta| - 1].key;
      assert XDomain(ta) == Some((lo, hi));
      forall r | r in data ensures lo <= r.year <= hi {
        var i :| 0 <= i < |ta| && ta[i].key == r.year;
        AscendingBounds(ta, i);
      }
      TimeArrayKeys(data, lo);
      TimeArrayKeys(data, hi);
      AscendingBounds(ta, 0);
    }
  }

  /** In a strictly ascending array every key lies between the first and the last. */
  lemma AscendingBounds(ta: seq<YearCount>, i: nat)
    requires StrictlyAscending(ta) && i < |ta|
    ensures ta[0].key <= ta[i].key <= ta[|ta| - 1].key
  {
  }

  /** The counts of `timeArray`, in order. */
  function Values(ta: seq<YearCount>): seq<nat> {
    seq(|ta|, i requires 0 <= i < |ta| => ta[i].value)
  }

  /** The top of `yDomain`, `d3.max` of the counts, is the busiest year's count. */
  lemma YDomainIsBusiestYear(data: seq<Record>)
    ensures MaxOf(Values(TimeArray(data))).None? <==> data == []
    ensures forall y :: MaxOf(Values(TimeArray(data))).Some? ==>
              |WithKey(data, Year, y)| <= MaxOf(Values(TimeArray(data))).value
    ensures MaxOf(Values(TimeArray(data))).Some? ==>
              exists y :: |WithKey(data, Year, y)| == MaxOf(Values(TimeArray(data))).value
  {
    var ta := TimeArray(data);
    var vs := Values(ta);
    var m := MaxOf(vs);
    if data != [] {
      assert data[0] in data;
    }
    if m.Some? {
      forall y ensures |WithKey(data, Year, y)| <= m.value {
        YearBelowMax(data, y);
      }
      var i :| 0 <= i < |vs| && vs[i] == m.value;
      assert |WithKey(data, Year, ta[i].key)| == m.value;
    }
  }

  /** No year has more records than the largest count of `timeArray`. */
  lemma YearBelowMax(data: seq<Record>, y: int)
    requires MaxOf(Values(TimeArray(data))).Some?
    ensures |WithKey(data, Year, y)| <= MaxOf(Values(TimeArray(data))).value
  {
    var ta := TimeArray(data);
    var vs := Values(ta);
    var members := WithKey(data, Year, y);
    if members != [] {
      assert members[0] in members;
      var i :| 0 <= i < |ta| && ta[i].key == y;
      assert vs[i] == ta[i].value;
    }
  }

  // ---------------------------------------------------------------- brushed dates

  /**
   * `getDecimal(input)` on the text of a number: `"0."` followed by the text
   * between the first and second `.`, or `"0.0"` when there is no `.`.
   */
  function GetDecimal(text: string): (r: string)
    ensures |r| >= 2 && r[..2] == "0."
    ensures '.' !in text ==> r == "0.0"
  {
    var parts := Split(text, '.');
    "0." + (if |parts| > 1 then parts[1] else "0")
  }

  /** With a first `.` after `a`, the result is `"0."` and the text up to the next `.`. */
  lemma GetDecimalAfterPoint(a: string, b: string)
    requires '.' !in a
    ensures GetDecimal(a + "." + b) == "0." + Split(b, '.')[0]
  {
    SplitAround(a, '.', b);
    assert a + "." + b == a + ['.'] + b;
  }

  /** The number the text `i.f` stands for, `i` and `f` being digit strings. */
  function DecimalValue(i: string, f: string): real
    requires AllDigits(i) && AllDigits(f)
  {
    ParseNat(i) as real + ParseNat(f) as real / Pow10(|f|) as real
  }

  function Pow10(n: nat): (p: nat)
    ensures p >= 1
  {
    if n == 0 then 1 else 10 * Pow10(n - 1)
  }

  /** A string of `n` digits reads below `10^n`. */
  lemma {:induction false} ParseNatBelow(s: string)
    requires AllDigits(s)
    ensures ParseNat(s) < Pow10(|s|)
  {
    if s != [] {
      ParseNatBelow(s[..|s| - 1]);
    }
  }

  /**
   * On the decimal text of a non-negative number `n.f`, `getDecimal` gives the
   * text of its fractional part: a number in [0, 1) that is the value minus
   * its integer part.
   */
  lemma GetDecimalIsFraction(n: nat, f: string)
    requires AllDigits(f)
    ensures GetDecimal(NatToString(n) + "." + f) == "0." + f
    ensures DecimalValue("0", f) == DecimalValue(NatToString(n), f) - n as real
    ensures 0.0 <= DecimalValue("0", f) < 1.0
  {
    var i := NatToString(n);
    NotInDigits(i, '.');
    NotInDigits(f, '.');
    GetDecimalAfterPoint(i, f);
    assert Split(f, '.') == [f];
    FractionValue(n, f);
  }

  /** The digits `f` after the point add a value in [0, 1) to the whole part. */
  lemma FractionValue(n: nat, f: string)
    requires AllDigits(f)
    ensures DecimalValue("0", f) == DecimalValue(NatToString(n), f) - n as real
    ensures 0.0 <= DecimalValue("0", f) < 1.0
  {
    ParseNatBelow(f);
    RatioBelowOne(ParseNat(f), Pow10(|f|));
    ParseNatZero();
    ParseNatToString(n);
  }

  lemma RatioBelowOne(num: nat, den: nat)
    requires num < den
    ensures 0.0 <= num as real / den as real < 1.0
  {
    assert (num as real / den as real) * den as real == num as real;
  }

  lemma ParseNatZero()
    ensures ParseNat("0") == 0
  {
    assert "0"[..0] == [];
  }

  /**
   * The day denominator of `findDate`: 366 when the year is a multiple of
   * four, 365 otherwise. (JavaScript's `%` keeps the sign of the dividend,
   * but a zero remainder means divisibility either way.)
   */
  function DayDenominator(year: int): (days: nat)
    ensures days == 366 <==> year % 4 == 0
    ensures days == 365 || days == 366
  {
    if year % 4 == 0 then 366 else 365
  }

  /** The Gregorian leap-year rule, which the JavaScript `Date` follows. */
  predicate GregorianLeap(year: int) {
    year % 4 == 0 && (year % 100 != 0 || year % 400 == 0)
  }

  /** The number of days of a calendar year. */
  function DaysIn(year: int): nat {
    if GregorianLeap(year) then 366 else 365
  }

  /**
   * The leap rule has no century exception: it agrees with the calendar from
   * 1901 through 2099, and not in 1900 or 2100.
   */
  lemma LeapRuleWithoutCenturies(year: int)
    ensures 1901 <= year <= 2099 ==> DayDenominator(year) == DaysIn(year)
    ensures DayDenominator(1900) == 366 && DaysIn(1900) == 365
    ensures DayDenominator(2100) == 366 && DaysIn(2100) == 365
    ensures DaysIn(year) <= DayDenominator(year)
  {
  }

  /** A calendar day: its year and its 0-based index within that year. */
  datatype CalendarDay = CalendarDay(year: int, index: nat)

  /** Is `d` a day that exists? */
  predicate ValidDay(d: CalendarDay) {
    d.index < DaysIn(d.year)
  }

  /**
   * The day `offset` days after January 1 of `year`, carrying into earlier
   * or later years as the `Date` object does.
   */
  function DayFrom(year: int, offset: int): (d: CalendarDay)
    ensures ValidDay(d)
    ensures 0 <= offset < DaysIn(year) ==> d == CalendarDay(year, offset)
    ensures offset < 0 && 0 <= offset + DaysIn(year - 1) ==> d.year == year - 1 && d.index == offset + DaysIn(year - 1)
    decreases if offset < 0 then -offset + 1 else 0, if offset >= 0 then offset else 0
  {
    if offset < 0 then DayFrom(year - 1, offset + DaysIn(year - 1))
    else if offset >= DaysIn(year) then DayFrom(year + 1, offset - DaysIn(year))
    else CalendarDay(year, offset)
  }

  /**
   * `dateFromDay(year, day)` as written: day 0 is January 1; any other day
   * goes through `setDate`, which truncates it to a day of the month and
   * counts January 1 as day 1, so a day in (0, 1) becomes day 0 of January,
   * that is December 31 of the previous year.
   */
  function DateFromDay(year: int, day: real): (d: CalendarDay)
    requires 0.0 <= day
    ensures ValidDay(d)
    ensures day == 0.0 ==> d == CalendarDay(year, 0)
    ensures 1.0 <= day < DaysIn(year) as real + 1.0 ==> d == CalendarDay(year, day.Floor - 1)
    ensures 0.0 < day < 1.0 ==> d.year == year - 1 && d.index == DaysIn(year - 1) - 1
  {
    if day == 0.0 then CalendarDay(year, 0) else DayFrom(year, day.Floor - 1)
  }

  /**
   * The brushed start moves backwards: the start of 2017 is January 1, 2017,
   * but a brush edge a little later in the year lands on December 31, 2016.
   */
  lemma DateFromDayJumpsBack()
    ensures DateFromDay(2017, 0.0) == CalendarDay(2017, 0)
    ensures DateFromDay(2017, 0.365) == CalendarDay(2016, 365)
  {
    assert DaysIn(2016) == 366;
  }

  /**
   * `dateFromDay` as its day-0 case intends: every day below 1 is January 1,
   * so the day found never leaves `year` and never moves backwards.
   */
  function DateFromDayInYear(year: int, day: real): (d: CalendarDay)
    requires 0.0 <= day < DayDenominator(year) as real
    ensures d.year == year && ValidDay(d)
    ensures d.index == if day < 1.0 then 0 else day.Floor - 1
  {
    if day.Floor == 0 then CalendarDay(year, 0) else DayFrom(year, day.Floor - 1)
  }

  /** A later day of the year never gives an earlier calendar day. */
  lemma DateFromDayInYearMonotone(year: int, d1: real, d2: real)
    requires 0.0 <= d1 <= d2 < DayDenominator(year) as real
    ensures DateFromDayInYear(year, d1).index <= DateFromDayInYear(year, d2).index
  {
  }

  /**
   * The calendar day `findDate` takes for a brushed value `year + fraction`:
   * `dateFromDay` as written, on the fraction times the year's day
   * denominator. The very start of the year is January 1, but any later
   * point within the first day lands on December 31 of the year before.
   */
  function FindDay(year: int, fraction: real): (d: CalendarDay)
    requires 0.0 <= fraction < 1.0
    ensures ValidDay(d)
    ensures fraction == 0.0 ==> d == CalendarDay(year, 0)
    ensures 0.0 < fraction * DayDenominator(year) as real < 1.0 ==>
              d == CalendarDay(year - 1, DaysIn(year - 1) - 1)
    ensures DayDenominator(year) == DaysIn(year) && 1.0 <= fraction * DayDenominator(year) as real ==>
              d == CalendarDay(year, (fraction * DayDenominator(year) as real).Floor - 1)
  {
    DateFromDay(year, fraction * DayDenominator(year) as real)
  }

  /** As written, a later point of 2017 gives an earlier calendar day than its start. */
  lemma FindDayJumpsBack()
    ensures FindDay(2017, 0.0) == CalendarDay(2017, 0)
    ensures FindDay(2017, 0.001) == CalendarDay(2016, 365)
  {
    assert 0.001 * DayDenominator(2017) as real == 0.365;
    assert DaysIn(2016) == 366;
  }

  /**
   * The calendar day `findDate` is evidently meant to take: the corrected
   * `dateFromDay` on the same day number, which never leaves `year`.
   */
  function FindDayInYear(year: int, fraction: real): (d: CalendarDay)
    requires 0.0 <= fraction < 1.0
    ensures d.year == year && ValidDay(d)
    ensures fraction * DayDenominator(year) as real < 1.0 ==> d.index == 0
  {
    DateFromDayInYear(year, fraction * DayDenominator(year) as real)
  }

  /** With the correction, a later point in the year never gives an earlier calendar day. */
  lemma FindDayInYearMonotone(year: int, f1: real, f2: real)
    requires 0.0 <= f1 <= f2 < 1.0
    ensures FindDayInYear(year, f1).index <= FindDayInYear(year, f2).index
  {
    var n := DayDenominator(year) as real;
    assert f1 * n <= f2 * n;
    DateFromDayInYearMonotone(year, f1 * n, f2 * n);
  }

  /** `Math.round`: the nearest integer, halves rounding up. */
  function Round(x: real): int {
    (x + 0.5).Floor
  }

  /** The minute string, with a `0` in front when it has one digit. */
  function PadMinute(minute: string): (mm: string)
    requires AllDigits(minute) && |minute| >= 1
    ensures AllDigits(mm) && |mm| >= 2 && ParseNat(mm) == ParseNat(minute)
    ensures |minute| >= 2 ==> mm == minute
  {
    if |minute| < 2 then ParseNatLeadingZero(minute); "0" + minute else minute
  }

  /**
   * `timeFromDate(hours)`: the whole hours, a colon, and the fractional part
   * rounded to the nearest minute as at least two digits. A fraction within
   * half a minute of the next hour gives the minute `60`.
   */
  function TimeFromDate(hours: real): (time: string)
    requires hours >= 0.0
  {
    var hour := hours.Floor;
    var minute := Round((hours - hour as real) * 60.0);
    NatToString(hour) + ":" + PadMinute(NatToString(minute))
  }

  /**
   * `timeFromDate` step by step: the whole hours, the fraction snapped to a
   * multiple of one sixtieth, its minutes floored, then padded and joined.
   */
  method FormatTime(hours: real) returns (time: string)
    requires hours >= 0.0
    ensures time == TimeFromDate(hours)
  {
    var hour := hours.Floor;
    var decpart := hours - hour as real;
    var rounded := Round(decpart * 60.0);
    assert rounded >= 0;
    decpart := rounded as real / 60.0;
    assert decpart * 60.0 == rounded as real;
    var minute := NatToString((decpart * 60.0).Floor);
    if |minute| < 2 {
      minute := "0" + minute;
    }
    time := NatToString(hour) + ":" + minute;
  }

  /**
   * What `findDate` reads back from the text with `time.split(":")` and
   * `setHours(hour, minute)`: the hours before the colon and a minute from 0
   * to 60 after it, together the time rounded to the nearest minute.
   */
  lemma TimeFromDateReadBack(hours: real)
    requires hours >= 0.0
    ensures |Split(TimeFromDate(hours), ':')| == 2
    ensures var parts := Split(TimeFromDate(hours), ':');
            AllDigits(parts[0]) && AllDigits(parts[1]) && |parts[1]| >= 2 &&
            ParseNat(parts[0]) == hours.Floor && 0 <= ParseNat(parts[1]) <= 60 &&
            ParseNat(parts[0]) * 60 + ParseNat(parts[1]) == Round(hours * 60.0)
  {
    var hour := hours.Floor;
    var minute := Round((hours - hour as real) * 60.0);
    RoundToMinute(hours);
    TimeFromDateSplit(hours);
    ParseNatToString(hour);
    ParseNatToString(minute);
  }

  /** The colon is the only separator in the text of a time. */
  lemma TimeFromDateSplit(hours: real)
    requires hours >= 0.0
    ensures var minute := Round((hours - hours.Floor as real) * 60.0);
            minute >= 0 &&
            Split(TimeFromDate(hours), ':') == [NatToString(hours.Floor), PadMinute(NatToString(minute))]
  {
    var hour := hours.Floor;
    var minute := Round((hours - hour as real) * 60.0);
    RoundToMinute(hours);
    var h, mm := NatToString(hour), PadMinute(NatToString(minute));
    NotInDigits(h, ':');
    NotInDigits(mm, ':');
    SplitAround(h, ':', mm);
    assert Split(mm, ':') == [mm];
    assert TimeFromDate(hours) == h + [':'] + mm;
  }

  /** Whole hours times sixty plus the rounded minutes is the time rounded to the minute. */
  lemma RoundToMinute(hours: real)
    requires hours >= 0.0
    ensures var m := Round((hours - hours.Floor as real) * 60.0);
            0 <= m <= 60 && hours.Floor * 60 + m == Round(hours * 60.0)
  {
    var hour := hours.Floor;
    var y := (hours - hour as real) * 60.0 + 0.5;
    assert 0.5 <= y < 60.5;
    assert hours * 60.0 + 0.5 == (hour * 60) as real + y;
    FloorShift(hour * 60, y);
  }

  lemma FloorShift(k: int, y: real)
    ensures (k as real + y).Floor == k + y.Floor
  {
  }

  /** A string of digits holds no separator. */
  lemma NotInDigits(s: string, c: char)
    requires AllDigits(s) && !IsDigit(c)
    ensures c !in s
  {
    assert forall k :: 0 <= k < |s| ==> s[k] != c;
  }

  /** A minute under ten is written with a leading zero. */
  lemma TimeFromDatePads(hour: nat, minute: nat)
    requires minute < 10
    ensures TimeFromDate(hour as real + minute as real / 60.0) == NatToString(hour) + ":0" + [DigitChar(minute)]
  {
    var hours := hour as real + minute as real / 60.0;
    WholeMinutes(hour, minute);
    PaddedText(hours, hour, minute);
  }

  /** The text of a time whose rounded minute is a single digit. */
  lemma PaddedText(hours: real, hour: nat, minute: nat)
    requires minute < 10
    requires hours >= 0.0 && hours.Floor == hour && Round((hours - hour as real) * 60.0) == minute
    ensures TimeFromDate(hours) == NatToString(hour) + ":0" + [DigitChar(minute)]
  {
    var digit := [DigitChar(minute)];
    assert NatToString(minute) == digit;
    assert PadMinute(digit) == "0" + digit;
    assert NatToString(hour) + ":" + ("0" + digit) == NatToString(hour) + ":0" + digit;
  }

  /** A time of whole minutes splits back into its hour and its minute. */
  lemma WholeMinutes(hour: nat, minute: nat)
    requires minute < 60
    ensures var hours := hour as real + minute as real / 60.0;
            hours.Floor == hour && Round((hours - hour as real) * 60.0) == minute
  {
    var frac := minute as real / 60.0;
    assert frac * 60.0 == minute as real;
    FloorShift(hour, frac);
    FloorShift(minute, 0.5);
  }

  // ---------------------------------------------------------------- filtering and the brush

  /**
   * The begin timestamp of a record lies within `[start, end]`. `parse` stands
   * for `new Date(...).getTime()`; `None` is its `NaN`, which compares false.
   */
  function InWindow(start: int, end: int, parse: string -> Option<int>): Record -> bool {
    (r: Record) => match parse(r.dateBegin)
         case None => false
         case Some(t) => start <= t <= end
  }

  /**
   * `filterDate(start, end, data)`: exactly the records whose begin time
   * parses and lies in `[start, end]`, both ends included, in their order.
   */
  function FilterDate(start: int, end: int, data: seq<Record>, parse: string -> Option<int>): (fit: seq<Record>)
    ensures forall r :: r in fit <==>
              r in data && parse(r.dateBegin).Some? && start <= parse(r.dateBegin).value <= end
    ensures |fit| <= |data|
  {
    Filter(data, InWindow(start, end, parse))
  }

  /** The filter keeps relative order: it distributes over concatenation. */
  lemma FilterDateConcat(start: int, end: int, a: seq<Record>, b: seq<Record>, parse: string -> Option<int>)
    ensures FilterDate(start, end, a + b, parse) == FilterDate(start, end, a, parse) + FilterDate(start, end, b, parse)
  {
    FilterConcat(a, b, InWindow(start, end, parse));
  }

  /** A window that ends before it starts keeps nothing. */
  lemma {:induction false} FilterDateEmptyWindow(start: int, end: int, data: seq<Record>, parse: string -> Option<int>)
    requires end < start
    ensures FilterDate(start, end, data, parse) == []
  {
    if data != [] {
      FilterDateEmptyWindow(start, end, data[..|data| - 1], parse);
    }
  }

  /** The line chart view and the two views its brush feeds. */
  class LineChart {
    var data: seq<Record>
    var brushData: seq<Record>
    var timeArray: seq<YearCount>
    var xDomain: Option<(int, int)>
    var yDomainMax: Option<nat>
    const barChart: Barchart
    const dorlingGram: DorlingCartogram

    constructor (records: seq<Record>, bars: Barchart, cartogram: DorlingCartogram)
      ensures data == records && brushData == [] && timeArray == []
      ensures xDomain == None && yDomainMax == None
      ensures barChart == bars && dorlingGram == cartogram
    {
      data := records;
      brushData := [];
      timeArray := [];
      xDomain := None;
      yDomainMax := None;
      barChart := bars;
      dorlingGram := cartogram;
    }

    /** `updateVis`: the yearly counts in year order and the two scale domains. */
    method UpdateVis()
      modifies this`timeArray, this`xDomain, this`yDomainMax
      ensures timeArray == TimeArray(data)
      ensures xDomain == XDomain(timeArray)
      ensures yDomainMax == MaxOf(Values(timeArray))
    {
      var ta := TimeArray(data);
      var x := XDomain(ta);
      var y := MaxOf(Values(ta));
      timeArray, xDomain, yDomainMax := ta, x, y;
    }

    /**
     * `brushed(selection)`, with the brushed pixels already converted to the
     * timestamps `[start, end]`: an active brush hands the records of that
     * window to the bar chart and the cartogram, a cleared one hands back all
     * of the line chart's records; both views are then updated. The line
     * chart's own records never change.
     */
    method Brushed(window: Option<(int, int)>, parse: string -> Option<int>) returns (cartogramOutcome: UpdateOutcome)
      modifies this`brushData, barChart, dorlingGram
      ensures data == old(data)
      ensures window.Some? ==> brushData == FilterDate(window.value.0, window.value.1, data, parse)
      ensures window.None? ==> brushData == old(brushData)
      ensures Fed(if window.Some? then brushData else data, cartogramOutcome)
      ensures dorlingGram.geoData == old(dorlingGram.geoData)
      ensures dorlingGram.onClick == old(dorlingGram.onClick) && dorlingGram.highlight == old(dorlingGram.highlight)
      ensures cartogramOutcome.NoFeature? ==>
                dorlingGram.values == old(dorlingGram.values) && dorlingGram.hoverFilter == old(dorlingGram.hoverFilter)
    {
      var pushed: seq<Record>;
      if window.Some? {
        brushData := FilterDate(window.value.0, window.value.1, data, parse);
        pushed := brushData;
      } else {
        pushed := data;
      }
      cartogramOutcome := Feed(pushed);
    }

    /** What both views hold once `pushed` is handed to them and they are updated. */
    predicate Fed(pushed: seq<Record>, cartogramOutcome: UpdateOutcome)
      reads this, barChart, dorlingGram
    {
      BarsFed(barChart, pushed) && CartogramFed(dorlingGram, pushed, cartogramOutcome)
    }

    /** Hand `pushed` to the bar chart and the cartogram and update both. */
    method Feed(pushed: seq<Record>) returns (cartogramOutcome: UpdateOutcome)
      modifies barChart, dorlingGram
      ensures Fed(pushed, cartogramOutcome)
      ensures dorlingGram.geoData == old(dorlingGram.geoData)
      ensures dorlingGram.onClick == old(dorlingGram.onClick) && dorlingGram.highlight == old(dorlingGram.highlight)
      ensures cartogramOutcome.NoFeature? ==>
                dorlingGram.values == old(dorlingGram.values) && dorlingGram.hoverFilter == old(dorlingGram.hoverFilter)
    {
      FeedBars(barChart, pushed);
      cartogramOutcome := FeedCartogram(dorlingGram, pushed);
    }
  }

  /**
   * The bar chart once fed `pushed` and updated: regrouped, its domains
   * recomputed, its click handler reset by rendering and its marks cleared.
   */
  predicate BarsFed(bars: Barchart, pushed: seq<Record>)
    reads bars
  {
    && bars.data == pushed && bars.groupedData == BarGroups(pushed)
    && bars.xDomain == GroupKeys(bars.groupedData)
    && bars.yDomainMax == MaxOf(Sizes(bars.groupedData))
    && bars.onClick == BarInitial && bars.highlight == Cleared
  }

  /**
   * The cartogram once fed `pushed` and updated: grouped by region, and,
   * exactly when every region has a boundary feature, packed in the
   * grouping's order with its hover filter reset.
   */
  predicate CartogramFed(cartogram: DorlingCartogram, pushed: seq<Record>, outcome: UpdateOutcome)
    reads cartogram
  {
    && cartogram.data == ByRegion(RegionGroups(pushed))
    && outcome != NotAnArray
    && (outcome == Updated <==> !MissingBefore(cartogram.data.groups, cartogram.geoData, |cartogram.data.groups|))
    && (outcome == Updated ==>
          cartogram.hoverFilter == None && |cartogram.values| == |cartogram.data.groups| &&
          forall i :: 0 <= i < |cartogram.values| ==>
            IsPackOf(cartogram.values[i], cartogram.data.groups[i], cartogram.geoData))
  }

  /** `barChart.data = pushed; barChart.updateVis()`. */
  method FeedBars(bars: Barchart, pushed: seq<Record>)
    modifies bars
    ensures BarsFed(bars, pushed)
  {
    bars.data := pushed;
    bars.UpdateVis();
  }

  /** `dorlingGram.data = pushed; dorlingGram.updateVis()`. */
  method FeedCartogram(cartogram: DorlingCartogram, pushed: seq<Record>) returns (outcome: UpdateOutcome)
    modifies cartogram`data, cartogram`values, cartogram`hoverFilter
    ensures CartogramFed(cartogram, pushed, outcome)
    ensures outcome.NoFeature? ==> cartogram.values == old(cartogram.values) && cartogram.hoverFilter == old(cartogram.hoverFilter)
  {
    cartogram.data := Rows(pushed);
    outcome := cartogram.UpdateVis();
    assert cartogram.data == ByRegion(RegionGroups(pushed)) && outcome != NotAnArray;
  }
}
