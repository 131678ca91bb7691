/** pages/Orders.tsx: the search filter with its newest-first sort, the four KPI
    counts and attaching an evidence photo to an order. */
module OrdersPage {
  import opened Types
  import opened Text
  import opened Lists
  import opened StoreSpec
  import opened Storage

  function OrderMatches(filter: string): Order -> bool {
    (o: Order) =>
      ContainsIgnoringCase(o.assetName, filter) || ContainsIgnoringCase(o.id, filter)
      || ContainsIgnoringCase(o.location, filter)
  }

  /** The comparator `b.createdAt - a.createdAt` sorts ascending on this key. */
  function NewestFirst(o: Order): int { -o.createdAt }

  /** filteredOrders: the matching orders, newest first. */
  function FilteredOrders(orders: seq<Order>, filter: string): (r: seq<Order>)
    ensures forall o :: o in r <==> (o in orders &&
      (ContainsIgnoringCase(o.assetName, filter) || ContainsIgnoringCase(o.id, filter)
       || ContainsIgnoringCase(o.location, filter)))
    ensures multiset(r) == multiset(Filter(orders, OrderMatches(filter)))
    ensures forall i, j :: 0 <= i < j < |r| ==> r[i].createdAt >= r[j].createdAt
  {
    var kept := Filter(orders, OrderMatches(filter));
    var r := SortBy(kept, NewestFirst);
    forall o ensures o in r <==> o in kept {
      SortByMembers(kept, NewestFirst, o);
    }
    assert forall i, j :: 0 <= i < j < |r| ==> NewestFirst(r[i]) <= NewestFirst(r[j]);
    r
  }

  /** An empty filter shows every order (newest first). */
  lemma EmptyOrderFilterKeepsAll(orders: seq<Order>)
    ensures multiset(FilteredOrders(orders, "")) == multiset(orders)
  {
    forall o | o in orders ensures OrderMatches("")(o) {
      EmptyFilterMatches(o.assetName);
    }
    FilterAll(orders, OrderMatches(""));
  }

  /** The four KPI cards. */
  datatype Kpis = Kpis(open: nat, inProgress: nat, waitingPurchase: nat, completed: nat)

  function WithStatus(s: OrderStatus): Order -> bool { (o: Order) => o.status == s }
  predicate WaitingPurchase(o: Order) { o.isWaitingPurchase }

  function OrderKpis(orders: seq<Order>): (k: Kpis)
    ensures k.open == Count(orders, WithStatus(Open)) && k.inProgress == Count(orders, WithStatus(InProgress))
    ensures k.completed == Count(orders, WithStatus(Completed))
    ensures k.waitingPurchase == Count(orders, WaitingPurchase) && k.waitingPurchase <= |orders|
    ensures k.open + k.inProgress + k.completed <= |orders|
  {
    StatusCounts(orders);
    Kpis(Count(orders, WithStatus(Open)), Count(orders, WithStatus(InProgress)),
         Count(orders, WaitingPurchase), Count(orders, WithStatus(Completed)))
  }

  /** Every order has exactly one status: the three status cards and the
      cancelled orders (which no card shows) add up to all orders. */
  lemma {:induction false} StatusCounts(s: seq<Order>)
    ensures Count(s, WithStatus(Open)) + Count(s, WithStatus(InProgress))
          + Count(s, WithStatus(Completed)) + Count(s, WithStatus(Cancelled)) == |s|
  {
    if s != [] {
      StatusCounts(s[1..]);
    }
  }

  function EvidenceText(id: string): string {
    "Evidência fotográfica anexada à OS " + id
  }

  /** The store effect of a completed upload: the photo is merged into the order
      and an info OS event names it (logged even when no order has the id). */
  function AttachEvidence(db: Db, id: string, photo: string, now: nat): Db {
    var updated := UpdateOrder(db, id, OrderPatch(None, None, None, Some(photo)), now);
    LogEvent(updated, EvOrder, EvidenceText(id), SevInfo, now)
  }

  /** `!activeOSForUpload`: no id, or the empty string. */
  predicate HasTarget(active: Option<string>) { active.Some? && active.value != "" }

  /** handleFileUpload with the reader's completion: returns the new upload target
      and the list the view shows. */
  method HandleFileUpload(store: Store, view: seq<Order>, file: Option<string>, active: Option<string>,
                          now: nat) returns (nextActive: Option<string>, next: seq<Order>)
    modifies store
    ensures !(file.Some? && HasTarget(active)) ==>
      nextActive == active && next == view && store.Snapshot() == old(store.Snapshot())
    ensures file.Some? && HasTarget(active) ==>
      && nextActive == None
      && store.Snapshot() == AttachEvidence(old(store.Snapshot()), active.value, file.value, now)
      && next == store.orders
  {
    if file.None? || active.None? || active.value == "" {
      return active, view;
    }
    var id := active.value;
    var updated := store.UpdateOrder(id, OrderPatch(None, None, None, Some(file.value)), now);
    var ev := store.LogEvent(EvOrder, EvidenceText(id), SevInfo, now);
    next := store.orders;
    nextActive := None;
  }

  /** The upload sets the photo of that one order and changes no other order. */
  lemma AttachEvidenceOnlyThatOrder(db: Db, id: string, photo: string, now: nat)
    ensures var r := AttachEvidence(db, id, photo, now);
      var i := IndexOf(db.orders, OrderId, id);
      && |r.orders| == |db.orders|
      && (i >= 0 ==> r.orders[i] == db.orders[i].(evidencePhoto := Some(photo)))
      && (forall j :: 0 <= j < |db.orders| && j != i ==> r.orders[j] == db.orders[j])
  {
  }
}
