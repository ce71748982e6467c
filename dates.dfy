/**
 * Calendar dates and the month step that a one-month `relativedelta` performs:
 * move to the next month (December rolls over to January of the next year) and
 * keep the day when that month has it, else take the month's last day.
 */
module Dates {

  datatype Date = Date(year: int, month: int, day: int)

  /** The largest year a date can carry. */
  const MaxYear: int := 9999

  predicate IsLeapYear(y: int) {
    y % 4 == 0 && (y % 100 != 0 || y % 400 == 0)
  }

  function DaysInMonth(y: int, m: int): (n: int)
    requires 1 <= m <= 12
    ensures 28 <= n <= 31
    ensures n == 31 <==> m in {1, 3, 5, 7, 8, 10, 12}
    ensures m == 2 ==> (n == 29 <==> IsLeapYear(y))
  {
    if m == 2 then (if IsLeapYear(y) then 29 else 28)
    else if m in {4, 6, 9, 11} then 30
    else 31
  }

  /** A date that exists in the Gregorian calendar and in the supported year range. */
  predicate Valid(d: Date) {
    1 <= d.year <= MaxYear && 1 <= d.month <= 12 && 1 <= d.day <= DaysInMonth(d.year, d.month)
  }

  /** Month and day are in calendar range; the year is not bounded (a step may leave the range). */
  predicate InCalendar(d: Date) {
    1 <= d.year && 1 <= d.month <= 12 && 1 <= d.day <= DaysInMonth(d.year, d.month)
  }

  /** Chronological order. */
  predicate Before(a: Date, b: Date) {
    a.year < b.year
    || (a.year == b.year && a.month < b.month)
    || (a.year == b.year && a.month == b.month && a.day < b.day)
  }

  lemma BeforeTransitive(a: Date, b: Date, c: Date)
    requires Before(a, b) && Before(b, c)
    ensures Before(a, c)
  {
  }

  /** The date one calendar month after `d` (year range not checked here). */
  function AddOneMonth(d: Date): (r: Date)
    requires InCalendar(d)
    ensures InCalendar(r)
    ensures Before(d, r)
    ensures r.day <= d.day
    ensures d.day <= DaysInMonth(r.year, r.month) ==> r.day == d.day
    ensures d.day > DaysInMonth(r.year, r.month) ==> r.day == DaysInMonth(r.year, r.month)
    ensures d.month == 12 ==> r.year == d.year + 1 && r.month == 1
    ensures d.month < 12 ==> r.year == d.year && r.month == d.month + 1
  {
    var y := if d.month == 12 then d.year + 1 else d.year;
    var m := if d.month == 12 then 1 else d.month + 1;
    var last := DaysInMonth(y, m);
    Date(y, m, if d.day <= last then d.day else last)
  }

  /**
   * The dates of `n` monthly installments from `start`: the first is `start`, and each
   * further one is one month after the previous (not after `start`). Fewer than one
   * installment is read as one.
   */
  function Schedule(start: Date, n: int): (s: seq<Date>)
    requires InCalendar(start)
    ensures |s| == (if n <= 1 then 1 else n)
    ensures s[0] == start
    ensures forall i :: 0 <= i < |s| ==> InCalendar(s[i])
    decreases n
  {
    if n <= 1 then [start]
    else
      var prefix := Schedule(start, n - 1);
      prefix + [AddOneMonth(prefix[|prefix| - 1])]
  }

  lemma {:induction false} SchedulePrefix(start: Date, n: int, k: int)
    requires InCalendar(start)
    requires 1 <= k <= n
    ensures Schedule(start, k) == Schedule(start, n)[..k]
    decreases n
  {
    if k < n {
      SchedulePrefix(start, n - 1, k);
    }
  }

  /** Each date is one month after the one before it. */
  lemma {:induction false} ScheduleStep(start: Date, n: int, i: int)
    requires InCalendar(start)
    requires 0 <= i && i + 1 < |Schedule(start, n)|
    ensures Schedule(start, n)[i + 1] == AddOneMonth(Schedule(start, n)[i])
    decreases n
  {
    if i + 2 < |Schedule(start, n)| {
      ScheduleStep(start, n - 1, i);
    }
  }

  /** Strictly increasing dates whose day of month never goes up. */
  predicate Increasing(s: seq<Date>) {
    forall i, j :: 0 <= i < j < |s| ==> Before(s[i], s[j]) && s[j].day <= s[i].day
  }

  /** The dates are strictly increasing, and each day of month is at most every earlier one. */
  lemma {:induction false} ScheduleIncreasing(start: Date, n: int)
    requires InCalendar(start)
    ensures Increasing(Schedule(start, n))
    decreases n
  {
    if n > 1 {
      var s := Schedule(start, n);
      var p := Schedule(start, n - 1);
      ScheduleIncreasing(start, n - 1);
      assert Increasing(p);
      var last := p[|p| - 1];
      assert s == p + [AddOneMonth(last)];
      forall i, j | 0 <= i < j < |s|
        ensures Before(s[i], s[j]) && s[j].day <= s[i].day
      {
        if j < |p| {
          assert s[i] == p[i] && s[j] == p[j];
        } else if i < |p| - 1 {
          assert s[i] == p[i] && s[j] == AddOneMonth(last);
          assert Before(p[i], last) && last.day <= p[i].day;
          BeforeTransitive(s[i], last, s[j]);
        }
      }
    }
  }

  /** Years never go down along the schedule and rise by at most one per step; the last is the latest. */
  predicate YearsMonotone(s: seq<Date>) {
    (forall i :: 0 <= i < |s| ==> s[0].year <= s[i].year <= s[|s| - 1].year)
    && (forall i :: 0 <= i < |s| - 1 ==> s[i + 1].year <= s[i].year + 1)
  }

  lemma {:induction false} ScheduleYears(start: Date, n: int)
    requires InCalendar(start)
    ensures YearsMonotone(Schedule(start, n))
    decreases n
  {
    if n > 1 {
      var s := Schedule(start, n);
      var p := Schedule(start, n - 1);
      ScheduleYears(start, n - 1);
      assert YearsMonotone(p);
      assert s == p + [AddOneMonth(p[|p| - 1])];
      assert forall i :: 0 <= i < |p| ==> s[i] == p[i];
    }
  }

  /** When the last date is in range, every date is a valid calendar date. */
  lemma ScheduleValid(start: Date, n: int)
    requires Valid(start)
    requires Schedule(start, n)[|Schedule(start, n)| - 1].year <= MaxYear
    ensures forall i :: 0 <= i < |Schedule(start, n)| ==> Valid(Schedule(start, n)[i])
  {
    ScheduleYears(start, n);
  }

  /**
   * A clamped day stays clamped: from January 31st of a leap year the schedule goes to
   * February 29th and then March 29th, not March 31st.
   */
  lemma ClampedDayStaysClamped()
    ensures Schedule(Date(2024, 1, 31), 3) == [Date(2024, 1, 31), Date(2024, 2, 29), Date(2024, 3, 29)]
  {
    assert Schedule(Date(2024, 1, 31), 2) == [Date(2024, 1, 31), Date(2024, 2, 29)];
  }

  /** Three installments from 2023-12-20 fall on 2023-12-20, 2024-01-20 and 2024-02-20. */
  lemma YearRollover()
    ensures Schedule(Date(2023, 12, 20), 3) == [Date(2023, 12, 20), Date(2024, 1, 20), Date(2024, 2, 20)]
  {
    assert Schedule(Date(2023, 12, 20), 2) == [Date(2023, 12, 20), Date(2024, 1, 20)];
  }
}
