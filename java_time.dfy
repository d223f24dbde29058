/**
 * The java.time.LocalDate operations the core relies on: ISO calendar dates,
 * their ordering, `minusMonths` and `minusDays`.
 */
module JavaTime {

  /** A `LocalDate`: proleptic ISO year, month 1..12, day of month. */
  datatype Date = Date(year: int, month: int, day: int)

  /** `IsoChronology.isLeapYear`. */
  predicate IsLeapYear(y: int) {
    y % 4 == 0 && (y % 100 != 0 || y % 400 == 0)
  }

  /** `YearMonth.lengthOfMonth`. */
  function LengthOfMonth(y: int, m: int): (r: int)
    requires 1 <= m <= 12
    ensures 28 <= r <= 31
    ensures m == 2 ==> (r == 29 <==> IsLeapYear(y))
  {
    if m == 2 then (if IsLeapYear(y) then 29 else 28)
    else if m == 4 || m == 6 || m == 9 || m == 11 then 30
    else 31
  }

  /** A date that `LocalDate.of` accepts. */
  predicate Valid(d: Date) {
    1 <= d.month <= 12 && 1 <= d.day <= LengthOfMonth(d.year, d.month)
  }

  /** `LocalDate.compareTo`: year difference, then month, then day. */
  function CompareDates(a: Date, b: Date): (r: int)
    ensures r == 0 <==> a == b
  {
    if a.year != b.year then a.year - b.year
    else if a.month != b.month then a.month - b.month
    else a.day - b.day
  }

  predicate IsBefore(a: Date, b: Date) {
    CompareDates(a, b) < 0
  }

  predicate IsAfter(a: Date, b: Date) {
    CompareDates(a, b) > 0
  }

  /** Dates are ordered chronologically: by year, then month, then day. */
  lemma IsBeforeIsLexicographic(a: Date, b: Date)
    ensures IsBefore(a, b) <==>
      a.year < b.year
      || (a.year == b.year && a.month < b.month)
      || (a.year == b.year && a.month == b.month && a.day < b.day)
    ensures IsAfter(a, b) <==> IsBefore(b, a)
  {
  }

  /** `isBefore` is a strict total order on dates. */
  lemma IsBeforeIsStrictTotalOrder(a: Date, b: Date, c: Date)
    ensures !(IsBefore(a, b) && IsBefore(b, a))
    ensures IsBefore(a, b) && IsBefore(b, c) ==> IsBefore(a, c)
    ensures a != b ==> IsBefore(a, b) || IsBefore(b, a)
  {
    IsBeforeIsLexicographic(a, b);
    IsBeforeIsLexicographic(b, c);
    IsBeforeIsLexicographic(a, c);
  }

  /** The number of months since January of year 0 (`getProlepticMonth`). */
  function ProlepticMonth(d: Date): int {
    d.year * 12 + d.month - 1
  }

  /**
   * `minusMonths(n)`: moves the proleptic month back by `n` (floor division
   * by 12 gives the year) and clamps the day to the length of the new month.
   */
  function MinusMonths(d: Date, n: int): (r: Date)
    requires Valid(d)
    ensures Valid(r)
    ensures ProlepticMonth(r) == ProlepticMonth(d) - n
    ensures r.day <= d.day
    ensures d.day <= LengthOfMonth(r.year, r.month) ==> r.day == d.day
  {
    var pm := ProlepticMonth(d) - n;
    var y := pm / 12;
    var m := pm % 12 + 1;
    var len := LengthOfMonth(y, m);
    Date(y, m, if d.day <= len then d.day else len)
  }

  /** An earlier proleptic month means an earlier date, whatever the days. */
  lemma EarlierMonthIsBefore(a: Date, b: Date)
    requires Valid(a) && Valid(b)
    requires ProlepticMonth(a) < ProlepticMonth(b)
    ensures IsBefore(a, b)
  {
    if a.year == b.year {
      assert a.month < b.month;
    } else if a.year > b.year {
      assert false;
    }
  }

  /** Going back at least a month always gives an earlier date. */
  lemma MinusMonthsIsBefore(d: Date, n: int)
    requires Valid(d) && n >= 1
    ensures IsBefore(MinusMonths(d, n), d)
  {
    EarlierMonthIsBefore(MinusMonths(d, n), d);
  }

  /** `minusDays(1)`: the day before, across the end of a month or a year. */
  function PreviousDay(d: Date): (r: Date)
    requires Valid(d)
    ensures Valid(r) && IsBefore(r, d)
  {
    if d.day > 1 then Date(d.year, d.month, d.day - 1)
    else if d.month > 1 then Date(d.year, d.month - 1, LengthOfMonth(d.year, d.month - 1))
    else Date(d.year - 1, 12, 31)
  }

  /** No valid date lies strictly between a date and the day before it. */
  lemma PreviousDayIsAdjacent(d: Date, x: Date)
    requires Valid(d) && Valid(x)
    ensures !(IsBefore(PreviousDay(d), x) && IsBefore(x, d))
  {
    IsBeforeIsLexicographic(PreviousDay(d), x);
    IsBeforeIsLexicographic(x, d);
  }

  /** `minusDays(n)`: `n` days back, one day at a time. */
  function MinusDays(d: Date, n: nat): (r: Date)
    requires Valid(d)
    ensures Valid(r)
    ensures n > 0 ==> IsBefore(r, d)
    decreases n
  {
    if n == 0 then d
    else
      var before := MinusDays(d, n - 1);
      IsBeforeIsStrictTotalOrder(PreviousDay(before), before, d);
      PreviousDay(before)
  }
}
