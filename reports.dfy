/** pages/Reports.tsx: the compliance index, the per-category breakdown sorted
    worst first, the records the WhatsApp summary lists and the records the PDF
    export tabulates. */
module ReportsPage {
  import opened Types
  import opened Lists
  import opened StoreSpec
  import opened Grouping

  /** A product by a positive factor keeps the order of the other factors. */
  lemma MulCancel(t: int, a: int, b: int)
    requires t > 0 && t * a < t * b
    ensures a < b
  {
  }

  /** `Math.round((ok / total) * 100)` on exact rationals: the percentage rounded
      half up. */
  function RoundPercent(ok: nat, total: nat): (p: nat)
    requires total > 0
    ensures 2 * total * p <= 200 * ok + total < 2 * total * (p + 1)
    ensures ok <= total ==> p <= 100
  {
    var n, d := 200 * ok + total, 2 * total;
    var p := n / d;
    assert d * p + n % d == n;
    assert d * (p + 1) == d * p + d;
    if ok <= total then
      assert d * p < d * 101;
      MulCancel(d, p, 101);
      p
    else p
  }

  /** RoundPercent is the one whole number within half a point of 100·ok/total. */
  lemma RoundPercentUnique(ok: nat, total: nat, q: nat)
    requires total > 0
    requires 2 * total * q <= 200 * ok + total < 2 * total * (q + 1)
    ensures q == RoundPercent(ok, total)
  {
    var p := RoundPercent(ok, total);
    MulCancel(2 * total, q, p + 1);
    MulCancel(2 * total, p, q + 1);
  }

  predicate IsOk(i: ChecklistItem) { i.status == Ok }

  /** complianceIndex: the rounded share of OK items, 0 for an empty checklist. */
  function ComplianceIndex(items: seq<ChecklistItem>): (c: nat)
    ensures c <= 100
    ensures items == [] ==> c == 0
    ensures items != [] ==> 2 * |items| * c <= 200 * Count(items, IsOk) + |items| < 2 * |items| * (c + 1)
  {
    if |items| > 0 then RoundPercent(Count(items, IsOk), |items|) else 0
  }

  /** A checklist with every item OK scores 100, one with none OK scores 0. */
  lemma ComplianceExtremes(items: seq<ChecklistItem>)
    requires items != []
    ensures Count(items, IsOk) == |items| ==> ComplianceIndex(items) == 100
    ensures Count(items, IsOk) == 0 ==> ComplianceIndex(items) == 0
  {
    if Count(items, IsOk) == |items| {
      RoundPercentUnique(|items|, |items|, 100);
    }
    if Count(items, IsOk) == 0 {
      RoundPercentUnique(0, |items|, 0);
    }
  }

  /** The `reduce` that builds categoryStatsMap, with the accumulator's counters
      updated in place. */
  method CategoryStatsMap(items: seq<ChecklistItem>) returns (acc: seq<CategoryStats>)
    ensures acc == Tally(items)
  {
    acc := [];
    for k := 0 to |items|
      invariant acc == Tally(items[..k])
    {
      assert items[..k + 1][..k] == items[..k];
      var item := items[k];
      var i := FindIndex(acc, StatName, item.category);
      ghost var before := acc;
      if i == -1 {
        acc := acc + [CategoryStats(item.category, 0, 0, 0, 0)];
        i := |acc| - 1;
      }
      var s := acc[i];
      s := s.(total := s.total + 1);
      if item.status == Ok {
        s := s.(ok := s.ok + 1);
      } else if item.status == Pending {
        s := s.(pending := s.pending + 1);
      } else if item.status == Fail {
        s := s.(fail := s.fail + 1);
      }
      assert s == Bump(acc[i], item.status);
      acc := acc[i := s];
      assert acc == TallyStep(before, item);
    }
    assert items[..|items|] == items;
  }

  /** One entry of categoriesStats: the counters and the rounded percentage. */
  datatype CategoryRow = CategoryRow(name: string, total: nat, ok: nat, pending: nat, fail: nat, percent: nat)

  function RowPercent(r: CategoryRow): int { r.percent }

  function WithPercent(s: CategoryStats): (r: CategoryRow)
    requires s.total >= 1
    ensures r.percent == RoundPercent(s.ok, s.total)
    ensures r.name == s.name && r.total == s.total && r.ok == s.ok && r.pending == s.pending && r.fail == s.fail
  {
    CategoryRow(s.name, s.total, s.ok, s.pending, s.fail, RoundPercent(s.ok, s.total))
  }

  /** `Object.keys(categoryStatsMap).map(...)`. */
  function Rows(acc: seq<CategoryStats>): (r: seq<CategoryRow>)
    requires forall j :: 0 <= j < |acc| ==> acc[j].total >= 1
    ensures |r| == |acc|
    ensures forall j :: 0 <= j < |acc| ==> r[j] == WithPercent(acc[j])
  {
    if acc == [] then [] else Rows(acc[..|acc| - 1]) + [WithPercent(acc[|acc| - 1])]
  }

  /** categoriesStats: the rows sorted by percent ascending, worst first. */
  function CategoriesStats(items: seq<ChecklistItem>): (r: seq<CategoryRow>)
    ensures SortedBy(r, RowPercent)
    ensures multiset(r) == multiset(Rows(Tally(items)))
  {
    SortBy(Rows(Tally(items)), RowPercent)
  }

  /** Every listed category has at least one item, counts exactly its items (and
      among them those with each status), and shows their rounded OK share. */
  lemma CategoriesStatsRows(items: seq<ChecklistItem>, row: CategoryRow)
    requires row in CategoriesStats(items)
    ensures row.name in Categories(items)
    ensures row.total >= 1 && row.total == row.ok + row.pending + row.fail
    ensures row.total == Count(items, InCategory(row.name))
    ensures row.ok == Count(items, InCategoryWith(row.name, Ok))
    ensures row.pending == Count(items, InCategoryWith(row.name, Pending))
    ensures row.fail == Count(items, InCategoryWith(row.name, Fail))
    ensures row.percent == RoundPercent(row.ok, row.total) && row.percent <= 100
  {
    var acc := Tally(items);
    var rows := Rows(acc);
    assert row in multiset(rows);
    var j :| 0 <= j < |rows| && rows[j] == row;
    TallyNames(items);
    TallyCounts(items, j);
    assert row == WithPercent(acc[j]);
    assert row.name == Categories(items)[j];
  }

  /** Every category of the checklist is listed. */
  lemma CategoriesStatsComplete(items: seq<ChecklistItem>, c: string)
    requires c in Categories(items)
    ensures exists row :: row in CategoriesStats(items) && row.name == c
  {
    TallyNames(items);
    var cats := Categories(items);
    var j :| 0 <= j < |cats| && cats[j] == c;
    var rows := Rows(Tally(items));
    assert rows[j] in multiset(CategoriesStats(items));
  }

  /** The OS tab of the summary: at most three orders, none COMPLETED, in stored
      order. */
  function OrdersSummary(orders: seq<Order>): (r: seq<Order>)
    ensures |r| <= 3
    ensures forall o :: o in r ==> o in orders && o.status != Completed
    ensures r <= Filter(orders, IsOpen)
    ensures |r| == if |Filter(orders, IsOpen)| < 3 then |Filter(orders, IsOpen)| else 3
  {
    Take(Filter(orders, IsOpen), 3)
  }

  /** An open order with fewer than three open orders before it is in the summary,
      so the summary is exactly the first three open orders. */
  lemma OrdersSummaryIsFirstOpen(orders: seq<Order>, k: int)
    requires 0 <= k < |orders| && IsOpen(orders[k])
    requires Count(orders[..k], IsOpen) < 3
    ensures orders[k] in OrdersSummary(orders)
  {
    var c := Count(orders[..k], IsOpen);
    assert orders == orders[..k] + orders[k..];
    FilterAppend(orders[..k], orders[k..], IsOpen);
    assert orders[k..] == [orders[k]] + orders[k + 1..];
    assert Filter(orders[k..], IsOpen)[0] == orders[k];
    assert Filter(orders, IsOpen)[c] == orders[k];
    assert OrdersSummary(orders)[c] == orders[k];
  }

  /** The conformity tab of the summary: the (up to) three worst categories. */
  function ConformitySummary(items: seq<ChecklistItem>): (r: seq<CategoryRow>)
    ensures |r| <= 3 && r <= CategoriesStats(items)
    ensures |r| == if |CategoriesStats(items)| < 3 then |CategoriesStats(items)| else 3
  {
    Take(CategoriesStats(items), 3)
  }

  /** No category left out of the summary has a lower percentage than one in it. */
  lemma ConformitySummaryIsWorst(items: seq<ChecklistItem>, x: CategoryRow, y: CategoryRow)
    requires x in ConformitySummary(items)
    requires y in CategoriesStats(items) && y !in ConformitySummary(items)
    ensures x.percent <= y.percent
  {
    var all := CategoriesStats(items);
    var top := ConformitySummary(items);
    var i :| 0 <= i < |top| && top[i] == x;
    var j :| 0 <= j < |all| && all[j] == y;
    assert all[i] == x;
    assert RowPercent(all[i]) <= RowPercent(all[j]);
  }

  /** generatePDF's modes. */
  datatype PdfMode = General | AllAssets | SpecificCategory

  /** What the PDF tabulates: the event log, or a list of assets. */
  datatype PdfTable = EventTable(events: seq<SystemEvent>) | AssetTable(assets: seq<Asset>)

  function InCategoryFilter(filter: Option<string>): Asset -> bool {
    (a: Asset) => filter == Some(a.category)
  }

  /** The records of the PDF export; an absent category filter (undefined)
      matches no asset. */
  function PdfRecords(mode: PdfMode, filter: Option<string>, assets: seq<Asset>,
                      events: seq<SystemEvent>): (t: PdfTable)
    ensures mode == General <==> t.EventTable?
    ensures mode == General ==> t.events == events
    ensures mode == AllAssets ==> t == AssetTable(assets)
    ensures mode == SpecificCategory ==>
      t.AssetTable? && |t.assets| <= |assets| &&
      forall a :: a in t.assets <==> (a in assets && filter == Some(a.category))
  {
    match mode
    case General => EventTable(events)
    case AllAssets => AssetTable(assets)
    case SpecificCategory => AssetTable(Filter(assets, InCategoryFilter(filter)))
  }
}
