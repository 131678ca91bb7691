/** Calendar arithmetic for the preventive-maintenance schedule: JavaScript's
    `setMonth(getMonth() + k)` on a date, with its day-of-month overflow, in UTC. */
module Dates {
  import opened Types

  predicate IsLeap(y: int) {
    (y % 4 == 0 && y % 100 != 0) || y % 400 == 0
  }

  function DaysIn(y: int, m: int): (n: int)
    requires 0 <= m < 12
    ensures 28 <= n <= 31
  {
    if m == 1 then (if IsLeap(y) then 29 else 28)
    else if m == 3 || m == 5 || m == 8 || m == 10 then 30
    else 31
  }

  predicate ValidDate(d: Date) {
    0 <= d.month < 12 && 1 <= d.day <= DaysIn(d.year, d.month)
  }

  /** Months since year 0, month 0. */
  function MonthIndex(d: Date): int {
    d.year * 12 + d.month
  }

  /** `setMonth(getMonth() + k)`: the month index carries into the year (floor
      division, also for negative k), and a day past the end of the target month
      spills into the following month, as JavaScript's Date does. */
  function AddMonths(d: Date, k: int): (r: Date)
    requires ValidDate(d)
    ensures ValidDate(r)
    ensures MonthIndex(r) == MonthIndex(d) + k || MonthIndex(r) == MonthIndex(d) + k + 1
    ensures d.day <= 28 ==> MonthIndex(r) == MonthIndex(d) + k && r.day == d.day
    ensures var t := MonthIndex(d) + k;
      d.day <= DaysIn(t / 12, t % 12) ==> r == Date(t / 12, t % 12, d.day)
    ensures var t := MonthIndex(d) + k;
      d.day > DaysIn(t / 12, t % 12) ==> MonthIndex(r) == t + 1 && r.day == d.day - DaysIn(t / 12, t % 12)
  {
    MonthCarry(d.year, d.month + k);
    var m := d.month + k;
    var y := d.year + m / 12;
    var mm := m % 12;
    var dim := DaysIn(y, mm);
    if d.day <= dim then Date(y, mm, d.day)
    else if mm == 11 then Date(y + 1, 0, d.day - dim)
    else Date(y, mm + 1, d.day - dim)
  }

  /** Carrying a month count into the year is division by 12 of the month index. */
  lemma MonthCarry(y: int, m: int)
    ensures (y * 12 + m) / 12 == y + m / 12 && (y * 12 + m) % 12 == m % 12
  {
    var q, rm := m / 12, m % 12;
    assert y * 12 + m == (y + q) * 12 + rm;
  }

  /** The k-th date visited by the schedule loop: `k` applications of `AddMonths`. */
  function NthOccurrence(start: Date, interval: int, k: nat): (r: Date)
    requires ValidDate(start)
    ensures ValidDate(r)
  {
    if k == 0 then start else AddMonths(NthOccurrence(start, interval, k - 1), interval)
  }

  /** The first `n` dates the schedule loop pushes. */
  function Occurrences(start: Date, interval: int, n: nat): (r: seq<Date>)
    requires ValidDate(start)
    ensures |r| == n
    ensures forall k :: 0 <= k < n ==> r[k] == NthOccurrence(start, interval, k)
  {
    if n == 0 then [] else Occurrences(start, interval, n - 1) + [NthOccurrence(start, interval, n - 1)]
  }

  /** The `for (let i = 0; i < n; i++)` loop of createWorkScheduleTask, which
      pushes `current` and then advances it by `interval` months. */
  method BuildOccurrences(start: Date, interval: int, n: nat) returns (occ: seq<Date>)
    requires ValidDate(start)
    ensures occ == Occurrences(start, interval, n)
  {
    occ := [];
    var current := start;
    for i := 0 to n
      invariant occ == Occurrences(start, interval, i)
      invariant current == NthOccurrence(start, interval, i)
    {
      occ := occ + [current];
      current := AddMonths(current, interval);
    }
  }

  /** When the start day exists in every month (day <= 28), the k-th occurrence is
      exactly k intervals after the start, on the same day of the month. */
  lemma {:induction false} NthOccurrenceExact(start: Date, interval: int, k: nat)
    requires ValidDate(start) && start.day <= 28
    ensures MonthIndex(NthOccurrence(start, interval, k)) == MonthIndex(start) + k * interval
    ensures NthOccurrence(start, interval, k).day == start.day
  {
    if k > 0 {
      NthOccurrenceExact(start, interval, k - 1);
      assert (k - 1) * interval + interval == k * interval;
    }
  }

  /** The example 2024-01-15 every 3 months: 15 January, April, July and October. */
  lemma QuarterlyFromMidJanuary()
    ensures Occurrences(Date(2024, 0, 15), 3, 4)
         == [Date(2024, 0, 15), Date(2024, 3, 15), Date(2024, 6, 15), Date(2024, 9, 15)]
  {
    var s := Date(2024, 0, 15);
    assert NthOccurrence(s, 3, 1) == Date(2024, 3, 15);
    assert NthOccurrence(s, 3, 2) == Date(2024, 6, 15);
    assert NthOccurrence(s, 3, 3) == Date(2024, 9, 15);
  }

  /** Day overflow is carried forward: 31 January 2023 plus one month is 3 March,
      and the next step starts from there. */
  lemma MonthlyFromJanuaryThirtyFirst()
    ensures Occurrences(Date(2023, 0, 31), 1, 3)
         == [Date(2023, 0, 31), Date(2023, 2, 3), Date(2023, 3, 3)]
  {
    var s := Date(2023, 0, 31);
    assert DaysIn(2023, 1) == 28;
    assert AddMonths(s, 1) == Date(2023, 2, 3);
    assert NthOccurrence(s, 1, 1) == Date(2023, 2, 3);
    assert DaysIn(2023, 3) == 30;
    assert AddMonths(Date(2023, 2, 3), 1) == Date(2023, 3, 3);
    assert NthOccurrence(s, 1, 2) == Date(2023, 3, 3);
    var occ := Occurrences(s, 1, 3);
    assert occ[0] == s && occ[1] == Date(2023, 2, 3) && occ[2] == Date(2023, 3, 3);
  }

  /** Chronological order key: for valid dates, smaller key means earlier day. */
  function DayKey(d: Date): int {
    d.year * 372 + d.month * 31 + d.day
  }

  lemma DayKeyOrder(a: Date, b: Date)
    requires ValidDate(a) && ValidDate(b)
    ensures DayKey(a) < DayKey(b) <==>
      a.year < b.year || (a.year == b.year && (a.month < b.month || (a.month == b.month && a.day < b.day)))
  {
  }
}
