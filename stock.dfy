/** pages/Stock.tsx: quantity adjustment with its floor at zero and its
    low-stock alert, the search filter, the restock count and adding an item. */
module StockPage {
  import opened Types
  import opened Text
  import opened Lists
  import opened StoreSpec
  import opened Storage

  /** `Math.max(0, quantity + delta)`. */
  function AdjustedQuantity(quantity: int, delta: int): (q: int)
    ensures q >= 0
    ensures q >= quantity + delta
    ensures q == 0 || q == quantity + delta
  {
    if quantity + delta < 0 then 0 else quantity + delta
  }

  /** The low-stock alert fires when the quantity falls from at or above the
      minimum to below it. */
  predicate CrossesMinimum(item: StockItem, newQty: int) {
    newQty < item.minQuantity && item.quantity >= item.minQuantity
  }

  function LowStockText(name: string, newQty: nat): string {
    "Alerta: Estoque crítico para " + name + ". Restam apenas " + NatToString(newQty) + " unidades."
  }

  /** The row as the new view shows it. */
  function AdjustedRow(item: StockItem, id: string, delta: int): (r: StockItem)
    ensures item.id != id ==> r == item
    ensures item.id == id ==> r == item.(quantity := AdjustedQuantity(item.quantity, delta))
  {
    if item.id == id then item.(quantity := AdjustedQuantity(item.quantity, delta)) else item
  }

  /** The store effect of one row of handleAdjustQuantity: the matching row saves
      its new quantity and, on crossing the minimum, logs a warning ALERT. */
  function AdjustRow(db: Db, item: StockItem, id: string, delta: int, now: nat): Db {
    if item.id != id then db
    else
      var newQty := AdjustedQuantity(item.quantity, delta);
      var saved := SaveStockItem(db, item.(quantity := newQty), now);
      if CrossesMinimum(item, newQty)
      then LogEvent(saved, EvAlert, LowStockText(item.name, newQty), SevWarning, now)
      else saved
  }

  function AdjustStep(id: string, delta: int, now: nat): (Db, StockItem) -> Db {
    (db: Db, item: StockItem) => AdjustRow(db, item, id, delta, now)
  }

  /** The new view: only rows with the id change, and only in their quantity. */
  function AdjustedView(view: seq<StockItem>, id: string, delta: int): (r: seq<StockItem>)
    ensures |r| == |view|
    ensures forall i :: 0 <= i < |view| ==> r[i] == AdjustedRow(view[i], id, delta)
    ensures forall i :: 0 <= i < |view| ==> r[i].quantity >= 0 || r[i] == view[i]
  {
    if view == [] then []
    else AdjustedView(view[..|view| - 1], id, delta) + [AdjustedRow(view[|view| - 1], id, delta)]
  }

  /** One row of the `map` in handleAdjustQuantity. */
  method AdjustOneRow(store: Store, item: StockItem, id: string, delta: int, now: nat)
    returns (row: StockItem)
    modifies store
    ensures row == AdjustedRow(item, id, delta)
    ensures store.Snapshot() == AdjustRow(old(store.Snapshot()), item, id, delta, now)
  {
    if item.id != id {
      return item;
    }
    var newQty := if 0 > item.quantity + delta then 0 else item.quantity + delta;
    row := item.(quantity := newQty);
    store.SaveStockItem(row, now);
    if newQty < item.minQuantity && item.quantity >= item.minQuantity {
      var ev := store.LogEvent(EvAlert, LowStockText(item.name, newQty), SevWarning, now);
    }
  }

  /** handleAdjustQuantity. */
  method HandleAdjustQuantity(store: Store, view: seq<StockItem>, id: string, delta: int, now: nat)
    returns (next: seq<StockItem>)
    modifies store
    ensures next == AdjustedView(view, id, delta)
    ensures store.Snapshot() == Replay(old(store.Snapshot()), view, AdjustStep(id, delta, now))
  {
    next := [];
    for k := 0 to |view|
      invariant next == AdjustedView(view[..k], id, delta)
      invariant store.Snapshot() == Replay(old(store.Snapshot()), view[..k], AdjustStep(id, delta, now))
    {
      assert view[..k + 1][..k] == view[..k];
      var row := AdjustOneRow(store, view[k], id, delta, now);
      next := next + [row];
    }
    assert view[..|view|] == view;
  }

  /** With the id on exactly one row, the store saves the new quantity and logs
      one warning exactly when the minimum is crossed downwards; an item already
      below its minimum does not alert again. */
  lemma AdjustAlertsOnCrossing(db: Db, view: seq<StockItem>, k: int, delta: int, now: nat)
    requires 0 <= k < |view|
    requires forall j :: 0 <= j < |view| && j != k ==> view[j].id != view[k].id
    ensures var item := view[k];
      var newQty := AdjustedQuantity(item.quantity, delta);
      var saved := SaveStockItem(db, item.(quantity := newQty), now);
      var r := Replay(db, view, AdjustStep(item.id, delta, now));
      && (newQty < item.minQuantity <= item.quantity ==>
            r == LogEvent(saved, EvAlert, LowStockText(item.name, newQty), SevWarning, now))
      && (item.quantity < item.minQuantity || newQty >= item.minQuantity ==> r == saved)
  {
    ReplaySingle(db, view, AdjustStep(view[k].id, delta, now), k);
  }

  /** A quantity never goes below zero, however large the decrement. */
  lemma AdjustNeverNegative(view: seq<StockItem>, id: string, delta: int)
    requires forall i :: 0 <= i < |view| ==> view[i].quantity >= 0
    ensures forall i :: 0 <= i < |view| ==> AdjustedView(view, id, delta)[i].quantity >= 0
  {
  }

  function StockMatches(filter: string): StockItem -> bool {
    (i: StockItem) => ContainsIgnoringCase(i.name, filter) || ContainsIgnoringCase(i.category, filter)
  }

  /** filteredStock. */
  function FilteredStock(view: seq<StockItem>, filter: string): (r: seq<StockItem>)
    ensures forall i :: i in r <==> (i in view &&
      (ContainsIgnoringCase(i.name, filter) || ContainsIgnoringCase(i.category, filter)))
  {
    Filter(view, StockMatches(filter))
  }

  /** An empty filter keeps every item. */
  lemma EmptyStockFilterKeepsAll(view: seq<StockItem>)
    ensures FilteredStock(view, "") == view
  {
    forall i | i in view ensures StockMatches("")(i) {
      EmptyFilterMatches(i.name);
    }
    FilterAll(view, StockMatches(""));
  }

  predicate BelowMinimum(i: StockItem) { i.quantity < i.minQuantity }

  /** The "Reposição Necessária" count, and the items showing the "Crítico" badge. */
  function RestockCount(view: seq<StockItem>): (n: nat)
    ensures n <= |view|
    ensures n == |Filter(view, BelowMinimum)|
  {
    Count(view, BelowMinimum)
  }

  /** The badge appears exactly on the counted items. */
  lemma RestockBadges(view: seq<StockItem>, i: StockItem)
    requires i in view
    ensures i in Filter(view, BelowMinimum) <==> i.quantity < i.minQuantity
  {
  }

  /** handleAddSubmit: the store appends the new item and so does the view. */
  method HandleAddSubmit(store: Store, view: seq<StockItem>, draft: StockItem, code: string, now: int)
    returns (next: seq<StockItem>)
    modifies store
    ensures next == view + [draft.(id := "STK-" + code)]
    ensures store.Snapshot() == AddStockItem(old(store.Snapshot()), draft, code, now)
  {
    var created := store.AddStockItem(draft, code, now);
    next := view + [created];
  }
}
