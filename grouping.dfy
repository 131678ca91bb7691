/** Grouping checklist items by category, shared by pages/Checklist.tsx (the
    sections) and pages/Reports.tsx (the per-category reduce). */
module Grouping {
  import opened Types
  import opened Lists

  function CategoryOf(i: ChecklistItem): string { i.category }

  function InCategory(c: string): ChecklistItem -> bool {
    (i: ChecklistItem) => i.category == c
  }

  function InCategoryWith(c: string, s: CheckStatus): ChecklistItem -> bool {
    (i: ChecklistItem) => i.category == c && i.status == s
  }

  /** `Array.from(new Set(items.map(i => i.category)))`: each category once, in
      the order it first appears. */
  function Categories(items: seq<ChecklistItem>): (cats: seq<string>)
    ensures forall j, k :: 0 <= j < k < |cats| ==> cats[j] != cats[k]
    ensures forall i :: 0 <= i < |items| ==> items[i].category in cats
  {
    if items == [] then []
    else
      var init := items[..|items| - 1];
      var x := items[|items| - 1];
      var cats := Categories(init);
      if x.category in cats then cats else cats + [x.category]
  }

  /** Every listed category is the category of some item. */
  lemma {:induction false} CategoryOccurs(items: seq<ChecklistItem>, j: int)
    requires 0 <= j < |Categories(items)|
    ensures exists i :: 0 <= i < |items| && items[i].category == Categories(items)[j]
  {
    var init := items[..|items| - 1];
    var x := items[|items| - 1];
    var before := Categories(init);
    if j < |before| {
      CategoryOccurs(init, j);
      var i :| 0 <= i < |init| && init[i].category == before[j];
      assert items[i] == init[i];
    } else {
      assert Categories(items)[j] == x.category;
    }
  }

  lemma KnownCategoryKeepsPosition(init: seq<ChecklistItem>, x: ChecklistItem, j: int)
    requires 0 <= j < |Categories(init)|
    ensures 0 <= IndexOf(init, CategoryOf, Categories(init)[j]) < |init|
    ensures IndexOf(init + [x], CategoryOf, Categories(init)[j]) == IndexOf(init, CategoryOf, Categories(init)[j])
  {
    CategoryOccurs(init, j);
    var i :| 0 <= i < |init| && init[i].category == Categories(init)[j];
    assert CategoryOf(init[i]) == Categories(init)[j];
    IndexOfAppend(init, x, CategoryOf, Categories(init)[j]);
  }

  lemma NewCategoryAtEnd(init: seq<ChecklistItem>, x: ChecklistItem)
    requires x.category !in Categories(init)
    ensures IndexOf(init + [x], CategoryOf, x.category) == |init|
  {
    assert forall i :: 0 <= i < |init| ==> CategoryOf(init[i]) != x.category;
    IndexOfAppend(init, x, CategoryOf, x.category);
  }

  lemma CategoriesAppend(init: seq<ChecklistItem>, x: ChecklistItem)
    ensures Categories(init + [x]) ==
      if x.category in Categories(init) then Categories(init) else Categories(init) + [x.category]
  {
    assert (init + [x])[..|init|] == init;
  }

  /** Appending an item keeps the order of two categories already present ... */
  lemma OldCategoriesKeepOrder(init: seq<ChecklistItem>, x: ChecklistItem, j: int, k: int)
    requires 0 <= j < k < |Categories(init)|
    requires IndexOf(init, CategoryOf, Categories(init)[j]) < IndexOf(init, CategoryOf, Categories(init)[k])
    ensures IndexOf(init + [x], CategoryOf, Categories(init)[j]) < IndexOf(init + [x], CategoryOf, Categories(init)[k])
  {
    KnownCategoryKeepsPosition(init, x, j);
    KnownCategoryKeepsPosition(init, x, k);
  }

  /** ... and puts a new category after every category already present. */
  lemma NewCategoryLast(init: seq<ChecklistItem>, x: ChecklistItem, j: int)
    requires 0 <= j < |Categories(init)| && x.category !in Categories(init)
    ensures IndexOf(init + [x], CategoryOf, Categories(init)[j]) < IndexOf(init + [x], CategoryOf, x.category)
  {
    KnownCategoryKeepsPosition(init, x, j);
    NewCategoryAtEnd(init, x);
  }

  /** The sections come in the order in which their categories first occur. */
  lemma {:induction false} CategoriesInFirstAppearanceOrder(items: seq<ChecklistItem>)
    ensures var cats := Categories(items);
      forall j, k :: 0 <= j < k < |cats| ==>
        IndexOf(items, CategoryOf, cats[j]) < IndexOf(items, CategoryOf, cats[k])
  {
    if items != [] {
      var init := items[..|items| - 1];
      var x := items[|items| - 1];
      assert init + [x] == items;
      CategoriesInFirstAppearanceOrder(init);
      var before := Categories(init);
      var cats := Categories(items);
      assert cats == if x.category in before then before else before + [x.category];
      forall j, k | 0 <= j < k < |cats|
        ensures IndexOf(items, CategoryOf, cats[j]) < IndexOf(items, CategoryOf, cats[k])
      {
        assert cats[j] == before[j];
        if k < |before| {
          assert cats[k] == before[k];
          OldCategoriesKeepOrder(init, x, j, k);
        } else {
          assert cats[k] == x.category;
          NewCategoryLast(init, x, j);
        }
      }
    }
  }

  /** One entry of the reduce's accumulator. */
  datatype CategoryStats = CategoryStats(name: string, total: nat, ok: nat, pending: nat, fail: nat)

  function StatName(s: CategoryStats): string { s.name }

  /** `acc[cat].total++` and the increment of the counter for the status. */
  function Bump(s: CategoryStats, status: CheckStatus): (r: CategoryStats)
    ensures r.name == s.name && r.total == s.total + 1
    ensures r.ok == s.ok + (if status == Ok then 1 else 0)
    ensures r.pending == s.pending + (if status == Pending then 1 else 0)
    ensures r.fail == s.fail + (if status == Fail then 1 else 0)
  {
    match status
    case Ok => s.(total := s.total + 1, ok := s.ok + 1)
    case Pending => s.(total := s.total + 1, pending := s.pending + 1)
    case Fail => s.(total := s.total + 1, fail := s.fail + 1)
  }

  /** The accumulator after one more item: its category's entry is bumped, or
      created (at the end) and bumped. */
  function TallyStep(acc: seq<CategoryStats>, x: ChecklistItem): seq<CategoryStats> {
    var i := IndexOf(acc, StatName, x.category);
    if i == -1 then acc + [Bump(CategoryStats(x.category, 0, 0, 0, 0), x.status)]
    else acc[i := Bump(acc[i], x.status)]
  }

  /** The accumulator is found by name exactly for the categories it lists. */
  lemma TallyLookup(acc: seq<CategoryStats>, cats: seq<string>, c: string)
    requires |acc| == |cats| && forall j :: 0 <= j < |acc| ==> acc[j].name == cats[j]
    ensures IndexOf(acc, StatName, c) == -1 <==> c !in cats
    ensures IndexOf(acc, StatName, c) >= 0 ==> cats[IndexOf(acc, StatName, c)] == c
  {
    if c in cats {
      var j :| 0 <= j < |cats| && cats[j] == c;
      assert StatName(acc[j]) == c;
    }
  }

  /** The reduce that builds `categoryStatsMap`, in key order. */
  function Tally(items: seq<ChecklistItem>): (acc: seq<CategoryStats>)
    ensures forall j :: 0 <= j < |acc| ==>
      acc[j].total == acc[j].ok + acc[j].pending + acc[j].fail && acc[j].total >= 1
  {
    if items == [] then []
    else TallyStep(Tally(items[..|items| - 1]), items[|items| - 1])
  }

  /** The accumulator has one entry per category, in first-appearance order. */
  lemma {:induction false} TallyNames(items: seq<ChecklistItem>)
    ensures |Tally(items)| == |Categories(items)|
    ensures forall j :: 0 <= j < |Tally(items)| ==> Tally(items)[j].name == Categories(items)[j]
  {
    if items != [] {
      var init := items[..|items| - 1];
      var x := items[|items| - 1];
      TallyNames(init);
      TallyLookup(Tally(init), Categories(init), x.category);
    }
  }

  /** What the entry for category `c` should hold: the number of items of `c`,
      and among them those with each status. */
  function CountsOf(items: seq<ChecklistItem>, c: string): CategoryStats {
    CategoryStats(c, Count(items, InCategory(c)), Count(items, InCategoryWith(c, Ok)),
                  Count(items, InCategoryWith(c, Pending)), Count(items, InCategoryWith(c, Fail)))
  }

  lemma CountsOfAppend(init: seq<ChecklistItem>, x: ChecklistItem, c: string)
    ensures CountsOf(init + [x], c) ==
      if x.category == c then Bump(CountsOf(init, c), x.status) else CountsOf(init, c)
  {
    CountAppend(init, [x], InCategory(c));
    CountAppend(init, [x], InCategoryWith(c, Ok));
    CountAppend(init, [x], InCategoryWith(c, Pending));
    CountAppend(init, [x], InCategoryWith(c, Fail));
    CountSingle(x, InCategory(c));
    CountSingle(x, InCategoryWith(c, Ok));
    CountSingle(x, InCategoryWith(c, Pending));
    CountSingle(x, InCategoryWith(c, Fail));
  }

  lemma CountsOfAbsent(items: seq<ChecklistItem>, c: string)
    requires c !in Categories(items)
    ensures CountsOf(items, c) == CategoryStats(c, 0, 0, 0, 0)
  {
    CountNone(items, InCategory(c));
    CountNone(items, InCategoryWith(c, Ok));
    CountNone(items, InCategoryWith(c, Pending));
    CountNone(items, InCategoryWith(c, Fail));
  }

  /** Each entry counts exactly the items of its category, and among them those
      with each status. */
  lemma {:induction false} TallyCounts(items: seq<ChecklistItem>, j: int)
    requires 0 <= j < |Tally(items)|
    ensures Tally(items)[j] == CountsOf(items, Tally(items)[j].name)
  {
    var init := items[..|items| - 1];
    var x := items[|items| - 1];
    assert init + [x] == items;
    var acc := Tally(init);
    TallyNames(init);
    TallyLookup(acc, Categories(init), x.category);
    var c := Tally(items)[j].name;
    CountsOfAppend(init, x, c);
    var i := IndexOf(acc, StatName, x.category);
    if i == -1 {
      assert Tally(items) == acc + [Bump(CategoryStats(x.category, 0, 0, 0, 0), x.status)];
      if j < |acc| {
        TallyCounts(init, j);
        assert c == Categories(init)[j];
      } else {
        CountsOfAbsent(init, c);
      }
    } else {
      assert Tally(items) == acc[i := Bump(acc[i], x.status)];
      TallyCounts(init, j);
      assert c == Categories(init)[j];
    }
  }

  function SumTotals(acc: seq<CategoryStats>): nat {
    if acc == [] then 0 else SumTotals(acc[..|acc| - 1]) + acc[|acc| - 1].total
  }

  lemma {:induction false} SumTotalsBump(acc: seq<CategoryStats>, i: int, status: CheckStatus)
    requires 0 <= i < |acc|
    ensures SumTotals(acc[i := Bump(acc[i], status)]) == SumTotals(acc) + 1
  {
    var upd := acc[i := Bump(acc[i], status)];
    assert upd[..|upd| - 1] == if i == |acc| - 1 then acc[..|acc| - 1]
                               else acc[..|acc| - 1][i := Bump(acc[i], status)];
    if i < |acc| - 1 {
      SumTotalsBump(acc[..|acc| - 1], i, status);
    }
  }

  /** The category totals add up to the number of items. */
  lemma {:induction false} TallySum(items: seq<ChecklistItem>)
    ensures SumTotals(Tally(items)) == |items|
  {
    if items != [] {
      var init := items[..|items| - 1];
      var x := items[|items| - 1];
      TallySum(init);
      var acc := Tally(init);
      var i := IndexOf(acc, StatName, x.category);
      if i == -1 {
        assert (acc + [Bump(CategoryStats(x.category, 0, 0, 0, 0), x.status)])[..|acc|] == acc;
      } else {
        SumTotalsBump(acc, i, x.status);
      }
    }
  }

  /** The sizes of the sections, one per category. */
  function SectionSizes(cats: seq<string>, items: seq<ChecklistItem>): nat {
    if cats == [] then 0
    else SectionSizes(cats[..|cats| - 1], items) + Count(items, InCategory(cats[|cats| - 1]))
  }

  lemma SectionSizesLast(cats: seq<string>, items: seq<ChecklistItem>, n: int)
    requires 0 < n <= |cats|
    ensures SectionSizes(cats[..n], items) == SectionSizes(cats[..n - 1], items) + Count(items, InCategory(cats[n - 1]))
  {
    assert cats[..n][..n - 1] == cats[..n - 1];
  }

  lemma SumTotalsLast(acc: seq<CategoryStats>, n: int)
    requires 0 < n <= |acc|
    ensures SumTotals(acc[..n]) == SumTotals(acc[..n - 1]) + acc[n - 1].total
  {
    assert acc[..n][..n - 1] == acc[..n - 1];
  }

  /** The total of the `j`-th entry is the size of the `j`-th section. */
  lemma TotalIsSectionSize(items: seq<ChecklistItem>, j: int)
    requires 0 <= j < |Tally(items)|
    ensures j < |Categories(items)|
    ensures Tally(items)[j].total == Count(items, InCategory(Categories(items)[j]))
  {
    TallyNames(items);
    TallyCounts(items, j);
  }

  lemma {:induction false} SectionSizesAreTotals(items: seq<ChecklistItem>, n: nat)
    requires n <= |Tally(items)| == |Categories(items)|
    ensures SectionSizes(Categories(items)[..n], items) == SumTotals(Tally(items)[..n])
  {
    if n > 0 {
      SectionSizesAreTotals(items, n - 1);
      TotalIsSectionSize(items, n - 1);
      SectionSizesLast(Categories(items), items, n);
      SumTotalsLast(Tally(items), n);
    }
  }

  /** Every item is listed in exactly one section: the sections of the distinct
      categories hold as many rows as there are items. */
  lemma SectionsPartitionItems(items: seq<ChecklistItem>)
    ensures SectionSizes(Categories(items), items) == |items|
  {
    TallyNames(items);
    SectionSizesAreTotals(items, |Tally(items)|);
    assert Categories(items)[..|Tally(items)|] == Categories(items);
    assert Tally(items)[..|Tally(items)|] == Tally(items);
    TallySum(items);
  }
}
