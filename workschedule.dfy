/** pages/WorkSchedule.tsx: the occurrences shown in each month card of the
    selected year, in date order, and the year selector. */
module WorkSchedulePage {
  import opened Types
  import opened Lists
  import opened Dates

  /** One `{ task, date }` entry of a month card. */
  datatype Entry = Entry(task: ScheduleTask, date: Date)

  /** The entries of one task, one per occurrence, in stored order. */
  function TaskEntries(t: ScheduleTask, occ: seq<Date>): (r: seq<Entry>)
    ensures |r| == |occ| && forall k :: 0 <= k < |occ| ==> r[k] == Entry(t, occ[k])
  {
    seq(|occ|, k requires 0 <= k < |occ| => Entry(t, occ[k]))
  }

  /** Every (task, occurrence) pair in the order the nested `forEach` visits them. */
  function AllEntries(tasks: seq<ScheduleTask>): seq<Entry> {
    if tasks == [] then []
    else
      var last := tasks[|tasks| - 1];
      AllEntries(tasks[..|tasks| - 1]) + TaskEntries(last, last.occurrences)
  }

  /** An entry is in AllEntries exactly when its date is an occurrence of its task. */
  lemma {:induction false} AllEntriesMembers(tasks: seq<ScheduleTask>, e: Entry)
    ensures e in AllEntries(tasks) <==> e.task in tasks && e.date in e.task.occurrences
  {
    if tasks != [] {
      var init := tasks[..|tasks| - 1];
      var last := tasks[|tasks| - 1];
      AllEntriesMembers(init, e);
      assert tasks == init + [last];
      var te := TaskEntries(last, last.occurrences);
      if e in te {
        var k :| 0 <= k < |te| && te[k] == e;
        assert e.date == last.occurrences[k];
      }
    }
  }

  /** `occDate.getMonth() === monthIndex && occDate.getFullYear() === selectedYear`. */
  function InMonth(month: int, year: int): Entry -> bool {
    (e: Entry) => e.date.month == month && e.date.year == year
  }

  function EntryTime(e: Entry): int { DayKey(e.date) }

  /** The card of one month: its entries sorted by date. */
  function TasksByMonth(tasks: seq<ScheduleTask>, month: int, year: int): (r: seq<Entry>)
    ensures multiset(r) == multiset(Filter(AllEntries(tasks), InMonth(month, year)))
    ensures SortedBy(r, EntryTime)
  {
    SortBy(Filter(AllEntries(tasks), InMonth(month, year)), EntryTime)
  }

  /** One more occurrence visited by the inner loop. */
  lemma FilterNextOccurrence(before: seq<Entry>, t: ScheduleTask, j: int, p: Entry -> bool)
    requires 0 <= j < |t.occurrences|
    ensures var e := Entry(t, t.occurrences[j]);
      Filter(before + TaskEntries(t, t.occurrences[..j + 1]), p) ==
      Filter(before + TaskEntries(t, t.occurrences[..j]), p) + (if p(e) then [e] else [])
  {
    var e := Entry(t, t.occurrences[j]);
    assert TaskEntries(t, t.occurrences[..j + 1]) == TaskEntries(t, t.occurrences[..j]) + [e];
    assert before + TaskEntries(t, t.occurrences[..j + 1]) == (before + TaskEntries(t, t.occurrences[..j])) + [e];
    FilterAppend(before + TaskEntries(t, t.occurrences[..j]), [e], p);
    FilterSingle(e, p);
  }

  /** One more task visited by the outer loop. */
  lemma AllEntriesNextTask(tasks: seq<ScheduleTask>, i: int)
    requires 0 <= i < |tasks|
    ensures AllEntries(tasks[..i + 1]) == AllEntries(tasks[..i]) + TaskEntries(tasks[i], tasks[i].occurrences[..|tasks[i].occurrences|])
    ensures AllEntries(tasks[..i]) + TaskEntries(tasks[i], tasks[i].occurrences[..0]) == AllEntries(tasks[..i])
  {
    assert tasks[..i + 1][..i] == tasks[..i];
    assert tasks[i].occurrences[..|tasks[i].occurrences|] == tasks[i].occurrences;
  }

  /** getTasksByMonth: the nested loops that push matching entries, then the sort. */
  method GetTasksByMonth(tasks: seq<ScheduleTask>, month: int, year: int) returns (r: seq<Entry>)
    ensures r == TasksByMonth(tasks, month, year)
  {
    var p := InMonth(month, year);
    var acc: seq<Entry> := [];
    for i := 0 to |tasks|
      invariant acc == Filter(AllEntries(tasks[..i]), p)
    {
      var t := tasks[i];
      AllEntriesNextTask(tasks, i);
      ghost var before := AllEntries(tasks[..i]);
      for j := 0 to |t.occurrences|
        invariant acc == Filter(before + TaskEntries(t, t.occurrences[..j]), p)
      {
        var e := Entry(t, t.occurrences[j]);
        FilterNextOccurrence(before, t, j, p);
        if e.date.month == month && e.date.year == year {
          acc := acc + [e];
        }
      }
    }
    assert tasks[..|tasks|] == tasks;
    r := SortBy(acc, EntryTime);
  }

  /** An occurrence is in the card of its own month of the selected year and in no
      other card; occurrences of other years are in none. */
  lemma CardMembership(tasks: seq<ScheduleTask>, month: int, year: int, e: Entry)
    requires e.task in tasks && e.date in e.task.occurrences
    ensures e in TasksByMonth(tasks, month, year) <==> e.date.month == month && e.date.year == year
  {
    AllEntriesMembers(tasks, e);
    var r := TasksByMonth(tasks, month, year);
    assert e in r <==> e in multiset(r);
  }

  /** Number of cards among the first n months that take an entry. */
  function CardsTaking(e: Entry, year: int, n: nat): nat {
    if n == 0 then 0 else CardsTaking(e, year, n - 1) + (if InMonth(n - 1, year)(e) then 1 else 0)
  }

  lemma {:induction false} CardsTakingOne(e: Entry, year: int, n: nat)
    ensures CardsTaking(e, year, n) == if e.date.year == year && 0 <= e.date.month < n then 1 else 0
  {
    if n > 0 {
      CardsTakingOne(e, year, n - 1);
    }
  }

  /** Total size of the first n cards. */
  function CardSizes(entries: seq<Entry>, year: int, n: nat): nat {
    if n == 0 then 0 else CardSizes(entries, year, n - 1) + Count(entries, InMonth(n - 1, year))
  }

  function InYear(year: int): Entry -> bool { (e: Entry) => e.date.year == year }

  lemma {:induction false} CardSizesCons(x: Entry, rest: seq<Entry>, year: int, n: nat)
    ensures CardSizes([x] + rest, year, n) == CardSizes(rest, year, n) + CardsTaking(x, year, n)
  {
    if n > 0 {
      CardSizesCons(x, rest, year, n - 1);
      CountAppend([x], rest, InMonth(n - 1, year));
      CountSingle(x, InMonth(n - 1, year));
    }
  }

  /** The twelve cards together hold each occurrence of the selected year exactly
      once: their sizes add up to the number of those occurrences. */
  lemma {:induction false} CardsPartitionYear(entries: seq<Entry>, year: int)
    requires forall i :: 0 <= i < |entries| ==> 0 <= entries[i].date.month < 12
    ensures CardSizes(entries, year, 12) == Count(entries, InYear(year))
  {
    if entries == [] {
      CardSizesEmpty(year, 12);
    } else {
      var x, rest := entries[0], entries[1..];
      assert entries == [x] + rest;
      CardsPartitionYear(rest, year);
      CardSizesCons(x, rest, year, 12);
      CardsTakingOne(x, year, 12);
      CountAppend([x], rest, InYear(year));
      CountSingle(x, InYear(year));
    }
  }

  lemma {:induction false} CardSizesEmpty(year: int, n: nat)
    ensures CardSizes([], year, n) == 0
  {
    if n > 0 {
      CardSizesEmpty(year, n - 1);
    }
  }

  /** The card sizes in terms of the cards themselves: sorting keeps every entry. */
  lemma CardSizeIsFilterSize(tasks: seq<ScheduleTask>, month: int, year: int)
    ensures |TasksByMonth(tasks, month, year)| == Count(AllEntries(tasks), InMonth(month, year))
  {
    var r := TasksByMonth(tasks, month, year);
    assert |r| == |multiset(r)|;
  }

  /** The number of entries shown across the first n month cards. */
  function CardTotal(tasks: seq<ScheduleTask>, year: int, n: nat): nat {
    if n == 0 then 0 else CardTotal(tasks, year, n - 1) + |TasksByMonth(tasks, n - 1, year)|
  }

  lemma {:induction false} CardTotalSizes(tasks: seq<ScheduleTask>, year: int, n: nat)
    ensures CardTotal(tasks, year, n) == CardSizes(AllEntries(tasks), year, n)
  {
    if n > 0 {
      CardTotalSizes(tasks, year, n - 1);
      CardSizeIsFilterSize(tasks, n - 1, year);
    }
  }

  /** Across the twelve cards each occurrence of the selected year is shown exactly
      once (counting repeated occurrences as often as they occur). */
  lemma CardsShowYearOnce(tasks: seq<ScheduleTask>, year: int)
    requires forall t, d :: t in tasks && d in t.occurrences ==> 0 <= d.month < 12
    ensures CardTotal(tasks, year, 12) == Count(AllEntries(tasks), InYear(year))
  {
    var entries := AllEntries(tasks);
    forall i | 0 <= i < |entries| ensures 0 <= entries[i].date.month < 12 {
      AllEntriesMembers(tasks, entries[i]);
    }
    CardsPartitionYear(entries, year);
    CardTotalSizes(tasks, year, 12);
  }

  /** The year selector: the year before, the selected year and the year after. */
  function YearOptions(selected: int): (r: seq<int>)
    ensures |r| == 3 && r[1] == selected
    ensures forall i :: 0 < i < 3 ==> r[i] == r[i - 1] + 1
  {
    [selected - 1, selected, selected + 1]
  }
}
