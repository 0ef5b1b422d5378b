/**
 * The slice of JavaScript's `Date` the balance screen relies on: calendar
 * days with a 0-based month as `getMonth()` returns it, the Gregorian month
 * lengths, and `setMonth`, which rolls a day that does not exist in the
 * target month over into the next month.
 */
module Calendar {
  /** A local calendar date: `getFullYear()`, `getMonth()` (0 to 11) and `getDate()`. */
  datatype Day = Day(year: int, month: int, day: int)

  /** The month a date falls in, as compared by `getMonth()` and `getFullYear()` together. */
  datatype YearMonth = YearMonth(year: int, month: int)

  predicate IsLeap(y: int) {
    (y % 4 == 0 && y % 100 != 0) || y % 400 == 0
  }

  /** `new Date(year, month + 1, 0).getDate()`: the last day of the month. */
  function DaysInMonth(year: int, month: int): (n: int)
    requires 0 <= month < 12
    ensures 28 <= n <= 31
    ensures n == 29 <==> month == 1 && IsLeap(year)
    ensures n == 28 <==> month == 1 && !IsLeap(year)
    ensures n == 30 <==> month in {3, 5, 8, 10}
  {
    if month == 1 then (if IsLeap(year) then 29 else 28)
    else if month in {3, 5, 8, 10} then 30
    else 31
  }

  /** A date that exists. */
  predicate Valid(d: Day) {
    0 <= d.month < 12 && 1 <= d.day <= DaysInMonth(d.year, d.month)
  }

  function MonthOf(d: Day): YearMonth {
    YearMonth(d.year, d.month)
  }

  /** Months counted from year 0: consecutive months have consecutive indices. */
  function MonthIndex(ym: YearMonth): int {
    ym.year * 12 + ym.month
  }

  /** The month with a given index; a month value outside 0..11 moves the year, as `Date` does. */
  function FromIndex(k: int): (ym: YearMonth)
    ensures 0 <= ym.month < 12 && MonthIndex(ym) == k
  {
    YearMonth(k / 12, k % 12)
  }

  /** Each month has one index. */
  lemma MonthIndexInjective(a: YearMonth, b: YearMonth)
    requires 0 <= a.month < 12 && 0 <= b.month < 12
    ensures MonthIndex(a) == MonthIndex(b) <==> a == b
  {
    if MonthIndex(a) == MonthIndex(b) {
      assert a.year == b.year;
    }
  }

  /**
   * `d.setMonth(v)` as the engine does it: the year and month move by `v`
   * months from January of `d`'s year, the day of the month stays, and a day
   * past the end of the target month spills into the following month.
   */
  function SetMonthAsWritten(d: Day, v: int): (r: Day)
    requires Valid(d)
    ensures Valid(r)
    ensures var target := FromIndex(d.year * 12 + v);
            if d.day <= DaysInMonth(target.year, target.month) then MonthOf(r) == target && r.day == d.day
            else MonthIndex(MonthOf(r)) == MonthIndex(target) + 1 && r.day < d.day
  {
    var target := FromIndex(d.year * 12 + v);
    var n := DaysInMonth(target.year, target.month);
    if d.day <= n then Day(target.year, target.month, d.day)
    else
      var next := FromIndex(MonthIndex(target) + 1);
      Day(next.year, next.month, d.day - n)
  }

  /**
   * The month `i` months before `today`, as the trend's loop evidently means it
   * (`new Date(year, month - i, 1)`); the day of the month plays no part.
   */
  function MonthsBack(today: Day, i: int): (ym: YearMonth)
    ensures 0 <= ym.month < 12
    ensures MonthIndex(ym) == MonthIndex(MonthOf(today)) - i
  {
    FromIndex(today.year * 12 + today.month - i)
  }

  /** The six months of the trend, oldest first, ending with the current one. */
  function Window(today: Day): (w: seq<YearMonth>)
    ensures |w| == 6
    ensures forall k :: 0 <= k < 6 ==> w[k] == MonthsBack(today, 5 - k)
  {
    seq(6, k => MonthsBack(today, 5 - k))
  }

  /** The corrected window holds six consecutive months, each once, and ends in the current month. */
  lemma WindowConsecutive(today: Day)
    requires Valid(today)
    ensures forall k :: 0 <= k < 5 ==> MonthIndex(Window(today)[k + 1]) == MonthIndex(Window(today)[k]) + 1
    ensures Window(today)[5] == MonthOf(today)
    ensures forall i, j :: 0 <= i < j < 6 ==> Window(today)[i] != Window(today)[j]
  {
    var w := Window(today);
    MonthIndexInjective(w[5], MonthOf(today));
    forall i, j | 0 <= i < j < 6 ensures w[i] != w[j] {
      assert MonthIndex(w[i]) != MonthIndex(w[j]);
    }
  }

  /** The months the trend's loop picks as written: `date.setMonth(date.getMonth() - i)` on today's date. */
  function AsWrittenWindow(today: Day): (w: seq<YearMonth>)
    requires Valid(today)
    ensures |w| == 6
  {
    seq(6, k requires 0 <= k < 6 => MonthOf(SetMonthAsWritten(today, today.month - (5 - k))))
  }

  /** On a day every target month has, the as-written window is the corrected one. */
  lemma AsWrittenWindowFromEarlyDays(today: Day)
    requires Valid(today) && today.day <= 28
    ensures AsWrittenWindow(today) == Window(today)
  {
    var w, a := Window(today), AsWrittenWindow(today);
    forall k | 0 <= k < 6 ensures a[k] == w[k] {
      var v := today.month - (5 - k);
      var target := FromIndex(today.year * 12 + v);
      assert a[k] == MonthOf(SetMonthAsWritten(today, v));
      assert MonthOf(SetMonthAsWritten(today, v)) == target;
      MonthIndexInjective(target, w[k]);
    }
  }

  /** On 31 May 2025, `setMonth` to February or April spills into March or May. */
  lemma SetMonthOnMay31()
    ensures Valid(Day(2025, 4, 31))
    ensures SetMonthAsWritten(Day(2025, 4, 31), 1) == Day(2025, 2, 3)
    ensures SetMonthAsWritten(Day(2025, 4, 31), 3) == Day(2025, 4, 1)
    ensures forall v :: v in {-1, 0, 2, 4} ==> MonthOf(SetMonthAsWritten(Day(2025, 4, 31), v)) == FromIndex(2025 * 12 + v)
  {
    assert !IsLeap(2025);
    assert FromIndex(2025 * 12 + 1) == YearMonth(2025, 1);
    assert FromIndex(2025 * 12 + 2) == YearMonth(2025, 2);
    assert FromIndex(2025 * 12 + 3) == YearMonth(2025, 3);
    assert FromIndex(2025 * 12 + 4) == YearMonth(2025, 4);
    assert FromIndex(2025 * 12 - 1) == YearMonth(2024, 11);
    assert FromIndex(2025 * 12 + 0) == YearMonth(2025, 0);
  }

  /**
   * On 31 May 2025 the as-written window is Dec, Jan, Mar, Mar, May, May: the
   * 31st does not exist in February or April, so those steps land in March
   * and May, and February and April drop out.
   */
  lemma AsWrittenWindowOnMay31()
    ensures Valid(Day(2025, 4, 31))
    ensures AsWrittenWindow(Day(2025, 4, 31))
            == [YearMonth(2024, 11), YearMonth(2025, 0), YearMonth(2025, 2),
                YearMonth(2025, 2), YearMonth(2025, 4), YearMonth(2025, 4)]
  {
    SetMonthOnMay31();
    assert FromIndex(2025 * 12 - 1) == YearMonth(2024, 11);
    assert FromIndex(2025 * 12 + 0) == YearMonth(2025, 0);
    assert FromIndex(2025 * 12 + 2) == YearMonth(2025, 2);
    assert FromIndex(2025 * 12 + 4) == YearMonth(2025, 4);
  }

  /** The corrected window on 31 May 2025 is December to May. */
  lemma WindowOnMay31()
    ensures Window(Day(2025, 4, 31))
            == [YearMonth(2024, 11), YearMonth(2025, 0), YearMonth(2025, 1),
                YearMonth(2025, 2), YearMonth(2025, 3), YearMonth(2025, 4)]
  {
    assert FromIndex(2025 * 12 + 4 - 5) == YearMonth(2024, 11);
    assert FromIndex(2025 * 12 + 4 - 4) == YearMonth(2025, 0);
    assert FromIndex(2025 * 12 + 4 - 3) == YearMonth(2025, 1);
    assert FromIndex(2025 * 12 + 4 - 2) == YearMonth(2025, 2);
    assert FromIndex(2025 * 12 + 4 - 1) == YearMonth(2025, 3);
    assert FromIndex(2025 * 12 + 4 - 0) == YearMonth(2025, 4);
  }

  /** May 2025 appears twice in the as-written window and once in the corrected one. */
  lemma MayCounts()
    ensures multiset(AsWrittenWindow(Day(2025, 4, 31)))[YearMonth(2025, 4)] == 2
    ensures multiset(Window(Day(2025, 4, 31))[..6])[YearMonth(2025, 4)] == 1
  {
    AsWrittenWindowOnMay31();
    WindowOnMay31();
    var may := YearMonth(2025, 4);
    var a := [YearMonth(2024, 11), YearMonth(2025, 0), YearMonth(2025, 2), YearMonth(2025, 2)];
    var w := [YearMonth(2024, 11), YearMonth(2025, 0), YearMonth(2025, 1), YearMonth(2025, 2), YearMonth(2025, 3)];
    assert multiset(a)[may] == 0;
    assert multiset(w)[may] == 0;
    assert AsWrittenWindow(Day(2025, 4, 31)) == a + [may, may];
    assert Window(Day(2025, 4, 31))[..6] == w + [may];
  }

  /** The `{ month: 'short' }` names of the default (English) locale. */
  const ShortNames: seq<string> := ["Jan", "Feb", "Mar", "Apr", "May", "Jun",
                                    "Jul", "Aug", "Sep", "Oct", "Nov", "Dec"]

  /** A month's label: three letters, and no other month has the same one. */
  function ShortName(month: int): (r: string)
    requires 0 <= month < 12
    ensures |r| == 3
    ensures forall m :: 0 <= m < 12 && m != month ==> ShortNames[m] != r
  {
    ShortNames[month]
  }
}
