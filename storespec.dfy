/** The persisted state of services/storage.ts as one value, and each exported
    writer as a function from the state before to the state after.  `Storage.Store`
    carries out the same changes step by step; the properties are proved here. */
module StoreSpec {
  import opened Types
  import opened Text
  import opened Lists
  import opened Dates

  /** The event log keeps the newest 500 entries. */
  const EVENT_CAP: nat := 500
  /** `recentActivity` shows the newest 10 events. */
  const RECENT_ACTIVITY: nat := 10

  /** Every stored list, the stored role ("" when none is stored), the browser's
      connectivity flag and the offline sync queue.  `events` is `None` while nothing
      has been logged yet. */
  datatype Db = Db(
    checklist: seq<ChecklistItem>,
    assets: seq<Asset>,
    orders: seq<Order>,
    events: Option<seq<SystemEvent>>,
    schedule: seq<ScheduleTask>,
    stock: seq<StockItem>,
    telemetry: seq<Telemetry>,
    role: string,
    online: bool,
    queue: seq<SyncEntry>)

  /** Nothing stored yet. */
  function EmptyDb(online: bool): Db {
    Db([], [], [], None, [], [], [], "", online, [])
  }

  function ItemId(i: ChecklistItem): string { i.id }
  function AssetId(a: Asset): string { a.id }
  function OrderId(o: Order): string { o.id }
  function StockId(s: StockItem): string { s.id }
  function ReadingId(t: Telemetry): string { t.id }

  // ---------------------------------------------------------------- sync queue

  /** What one notification adds to the queue: nothing online, the entry offline. */
  function Pending(online: bool, entries: seq<SyncEntry>): seq<SyncEntry> {
    if online then [] else entries
  }

  /** `notifySync(kind, data)`, whose `pushToCloud` queues the change while offline. */
  function Push(db: Db, kind: string, data: Payload, now: int): Db {
    db.(queue := db.queue + Pending(db.online, [SyncEntry(kind, data, now)]))
  }

  /** The `online` listener: connectivity is back and a non-empty queue is emptied;
      the QUEUE_CLEARED notice it sends is not queued, being sent online. */
  function Reconnect(db: Db, now: int): (r: Db)
    ensures r.online && r.queue == []
    ensures r == db.(online := true, queue := [])
  {
    var up := db.(online := true);
    if |up.queue| > 0 then Push(up.(queue := []), "QUEUE_CLEARED", NoData, now) else up
  }

  /** `getSyncQueueCount`. */
  function SyncQueueCount(db: Db): (n: nat)
    ensures n == |db.queue|
    ensures db.online ==> n == |Push(db, "ANY", NoData, 0).queue|
    ensures !db.online ==> n + 1 == |Push(db, "ANY", NoData, 0).queue|
  {
    |db.queue|
  }

  /** While offline, each notification is queued after the earlier ones; online,
      the queue does not change. */
  lemma {:induction false} PushQueue(db: Db, kind: string, data: Payload, now: int)
    ensures Push(db, kind, data, now).queue[..|db.queue|] == db.queue
    ensures db.online <==> Push(db, kind, data, now).queue == db.queue
    ensures !db.online ==> Push(db, kind, data, now).queue[|db.queue|] == SyncEntry(kind, data, now)
  {
    if !db.online {
      assert |Push(db, kind, data, now).queue| == |db.queue| + 1;
    }
  }

  // ------------------------------------------------------------------ handlers

  /** The store effect of a view handler that walks its list in order and lets
      each row act on the store (`list.map(x => { ...write...; return x2; })`). */
  function Replay<T>(db: Db, s: seq<T>, step: (Db, T) -> Db): Db {
    if s == [] then db else step(Replay(db, s[..|s| - 1], step), s[|s| - 1])
  }

  /** Rows that do not act leave the store as it was. */
  lemma {:induction false} ReplayNone<T>(db: Db, s: seq<T>, step: (Db, T) -> Db)
    requires forall d, j :: 0 <= j < |s| ==> step(d, s[j]) == d
    ensures Replay(db, s, step) == db
  {
    if s != [] {
      ReplayNone(db, s[..|s| - 1], step);
    }
  }

  /** When exactly one row acts, the handler's effect is that row's effect. */
  lemma {:induction false} ReplaySingle<T>(db: Db, s: seq<T>, step: (Db, T) -> Db, k: int)
    requires 0 <= k < |s|
    requires forall d, j :: 0 <= j < |s| && j != k ==> step(d, s[j]) == d
    ensures Replay(db, s, step) == step(db, s[k])
  {
    var init := s[..|s| - 1];
    if k == |s| - 1 {
      ReplayNone(db, init, step);
    } else {
      ReplaySingle(db, init, step, k);
    }
  }

  // ---------------------------------------------------------------------- role

  /** `getUserRole`: the stored role, or Técnico when none is stored. */
  function UserRole(db: Db): (r: string)
    ensures r != ""
    ensures db.role != "" ==> r == db.role
    ensures db.role == "" ==> r == TECHNICIAN
  {
    if db.role == "" then TECHNICIAN else db.role
  }

  /** `setUserRole`. */
  function SetUserRole(db: Db, role: string, now: int): (r: Db)
    requires role != ""
    ensures UserRole(r) == role
    ensures r == db.(role := role, queue := r.queue)
    ensures r.queue == db.queue + Pending(db.online, [SyncEntry("ROLE_CHANGED", NoData, now)])
  {
    Push(db.(role := role), "ROLE_CHANGED", NoData, now)
  }

  // -------------------------------------------------------------------- events

  /** The bootstrap entry shown while nothing has been logged. */
  function BootEvent(now: int): SystemEvent {
    SystemEvent("EV-INIT", now, EvSystem, "HospGuardian Core",
                "Sistema de Gestão Hospitalar Ativado.", SevSecurity)
  }

  /** `getStoredEvents`. */
  function StoredEvents(db: Db, now: int): (r: seq<SystemEvent>)
    ensures db.events.Some? ==> r == db.events.value
    ensures db.events.None? ==> |r| == 1 && r[0].id == "EV-INIT" && r[0].severity == SevSecurity
  {
    if db.events.None? then [BootEvent(now)] else db.events.value
  }

  /** The entry `logEvent` builds: id from the clock, author from the stored role,
      sanitized message. */
  function NewEvent(db: Db, kind: EventType, msg: string, sev: Severity, now: nat): (e: SystemEvent)
    ensures e.user == UserRole(db) && e.kind == kind && e.severity == sev && e.timestamp == now
    ensures e.message == Sanitize(msg)
  {
    SystemEvent("EV-" + NatToString(now), now, kind, UserRole(db), Sanitize(msg), sev)
  }

  /** `logEvent`: the new entry goes first, the log keeps its newest 500 entries. */
  function LogEvent(db: Db, kind: EventType, msg: string, sev: Severity, now: nat): (r: Db)
    ensures r.events.Some?
    ensures var prev := StoredEvents(db, now);
      |r.events.value| == (if |prev| < EVENT_CAP then |prev| + 1 else EVENT_CAP)
    ensures r.events.value[0] == NewEvent(db, kind, msg, sev, now)
    ensures r.events.value[1..] <= StoredEvents(db, now)
    ensures forall c :: c in r.events.value[0].message ==> c != '<' && c != '>'
    ensures r == db.(events := r.events, queue := r.queue)
    ensures r.queue == db.queue + Pending(db.online, [SyncEntry("EVENT_LOGGED", EventData(NewEvent(db, kind, msg, sev, now)), now)])
  {
    var e := NewEvent(db, kind, msg, sev, now);
    var log := Take([e] + StoredEvents(db, now), EVENT_CAP);
    CappedLog(e, StoredEvents(db, now));
    Push(db.(events := Some(log)), "EVENT_LOGGED", EventData(e), now)
  }

  /** The capped log starts with the new entry, followed by a prefix of the old log. */
  lemma CappedLog(e: SystemEvent, prev: seq<SystemEvent>)
    ensures var log := Take([e] + prev, EVENT_CAP);
      && |log| == (if |prev| < EVENT_CAP then |prev| + 1 else EVENT_CAP)
      && log[0] == e && log[1..] <= prev
  {
    var log := Take([e] + prev, EVENT_CAP);
    assert log[1..] == ([e] + prev)[1..|log|];
  }

  /** The log never holds more than 500 entries once something has been logged. */
  lemma LogEventBounded(db: Db, kind: EventType, msg: string, sev: Severity, now: nat)
    requires db.events.None? || |db.events.value| <= EVENT_CAP
    ensures |LogEvent(db, kind, msg, sev, now).events.value| <= EVENT_CAP
  {
  }

  /** Logging does not change who is logged in, so two consecutive entries carry
      the same author, and the second logged is the newest. */
  lemma {:induction false} LogTwice(db: Db, k1: EventType, m1: string, s1: Severity,
                                    k2: EventType, m2: string, s2: Severity, now: nat)
    ensures var r := LogEvent(LogEvent(db, k1, m1, s1, now), k2, m2, s2, now);
      var prev := StoredEvents(db, now);
      |r.events.value| == (if |prev| + 2 < EVENT_CAP then |prev| + 2 else EVENT_CAP)
      && r.events.value[0] == NewEvent(db, k2, m2, s2, now)
      && r.events.value[1] == NewEvent(db, k1, m1, s1, now)
      && r.events.value[2..] <= prev
  {
    var d1 := LogEvent(db, k1, m1, s1, now);
    var r := LogEvent(d1, k2, m2, s2, now);
    assert UserRole(d1) == UserRole(db);
    var l1 := d1.events.value;
    assert r.events.value[1..] <= l1;
    assert r.events.value[1] == l1[0];
    assert r.events.value[2..] == r.events.value[1..][1..];
    assert l1[1..] <= StoredEvents(db, now);
  }

  // ----------------------------------------------------------------- telemetry

  /** `updateTelemetry`: an upsert by id. */
  function UpdateTelemetry(db: Db, d: Telemetry, now: int): (r: Db)
    ensures r.telemetry == Upsert(db.telemetry, ReadingId, d)
    ensures r == db.(telemetry := r.telemetry, queue := r.queue)
    ensures r.queue == db.queue + Pending(db.online, [SyncEntry("TELEMETRY_UPDATED", TelemetryData(d), now)])
  {
    Push(db.(telemetry := Upsert(db.telemetry, ReadingId, d)), "TELEMETRY_UPDATED", TelemetryData(d), now)
  }

  // ----------------------------------------------------------------- checklist

  /** `saveChecklistItem` sanitizes the observations of the item it is given
      (the caller's object too). */
  function SanitizedItem(item: ChecklistItem): (r: ChecklistItem)
    ensures r == item.(observations := r.observations)
    ensures r.observations == Sanitize(item.observations)
    ensures forall c :: c in r.observations ==> c != '<' && c != '>'
  {
    item.(observations := Sanitize(item.observations))
  }

  /** `saveChecklistItem`: an upsert by id of the sanitized item. */
  function SaveChecklistItem(db: Db, item: ChecklistItem, now: int): (r: Db)
    ensures var i := IndexOf(db.checklist, ItemId, item.id);
      && (i >= 0 ==> |r.checklist| == |db.checklist| && r.checklist[i] == SanitizedItem(item))
      && (i == -1 ==> |r.checklist| == |db.checklist| + 1 && r.checklist[|db.checklist|] == SanitizedItem(item))
      && (forall j :: 0 <= j < |db.checklist| && j != i ==> r.checklist[j] == db.checklist[j])
    ensures r == db.(checklist := r.checklist, queue := r.queue)
    ensures r.queue == db.queue + Pending(db.online, [SyncEntry("CHECKLIST_UPDATED", ChecklistData(SanitizedItem(item)), now)])
  {
    var it := SanitizedItem(item);
    Push(db.(checklist := Upsert(db.checklist, ItemId, it)), "CHECKLIST_UPDATED", ChecklistData(it), now)
  }

  // -------------------------------------------------------------------- assets

  /** `saveAsset`: replaces the asset with that id; nothing happens (and nothing is
      announced) when the id is absent. */
  function SaveAsset(db: Db, a: Asset, now: int): (r: Db)
    ensures IndexOf(db.assets, AssetId, a.id) == -1 ==> r == db
    ensures var i := IndexOf(db.assets, AssetId, a.id);
      i >= 0 ==>
        && |r.assets| == |db.assets| && r.assets[i] == a
        && (forall j :: 0 <= j < |db.assets| && j != i ==> r.assets[j] == db.assets[j])
        && r.queue == db.queue + Pending(db.online, [SyncEntry("ASSETS_UPDATED", AssetData(a), now)])
    ensures r == db.(assets := r.assets, queue := r.queue)
  {
    var i := IndexOf(db.assets, AssetId, a.id);
    if i == -1 then db
    else Push(db.(assets := db.assets[i := a]), "ASSETS_UPDATED", AssetData(a), now)
  }

  /** `updateAssetStatus`: only the status of the asset with that id changes. */
  function UpdateAssetStatus(db: Db, id: string, status: AssetStatus, now: int): (r: Db)
    ensures IndexOf(db.assets, AssetId, id) == -1 ==> r == db
    ensures var i := IndexOf(db.assets, AssetId, id);
      i >= 0 ==>
        && |r.assets| == |db.assets| && r.assets[i] == db.assets[i].(status := status)
        && (forall j :: 0 <= j < |db.assets| && j != i ==> r.assets[j] == db.assets[j])
        && r.queue == db.queue + Pending(db.online, [SyncEntry("ASSETS_UPDATED", AssetData(r.assets[i]), now)])
    ensures r == db.(assets := r.assets, queue := r.queue)
  {
    var i := IndexOf(db.assets, AssetId, id);
    if i == -1 then db
    else
      var a := db.assets[i].(status := status);
      Push(db.(assets := db.assets[i := a]), "ASSETS_UPDATED", AssetData(a), now)
  }

  /** The checklist entry `addAsset` creates alongside a new asset. */
  function CompanionItem(a: Asset, today: int): (item: ChecklistItem)
    ensures item.id == "CHK-" + a.id && item.labelText == a.name && item.category == a.category
    ensures item.status == Ok && item.observations == "" && item.lastChecked == today
  {
    ChecklistItem("CHK-" + a.id, a.name, a.category, Ok, "", today)
  }

  /** `addAsset` with the random part of the id as `code`: the asset goes first,
      its checklist entry is saved, then ASSET_ADDED is announced. */
  function AddAsset(db: Db, draft: Asset, code: string, today: int, now: int): (r: Db)
    ensures r.assets == [draft.(id := "AST-" + code)] + db.assets
    ensures r.checklist == Upsert(db.checklist, ItemId, CompanionItem(draft.(id := "AST-" + code), today))
    ensures r == db.(assets := r.assets, checklist := r.checklist, queue := r.queue)
    ensures r.queue == db.queue + Pending(db.online,
      [SyncEntry("CHECKLIST_UPDATED", ChecklistData(CompanionItem(draft.(id := "AST-" + code), today)), now),
       SyncEntry("ASSET_ADDED", AssetData(draft.(id := "AST-" + code)), now)])
  {
    var a := draft.(id := "AST-" + code);
    var item := CompanionItem(a, today);
    assert SanitizedItem(item) == item;
    var db1 := db.(assets := [a] + db.assets);
    var db2 := SaveChecklistItem(db1, item, now);
    Push(db2, "ASSET_ADDED", AssetData(a), now)
  }

  /** A new asset's companion entry is the only one carrying its checklist id. */
  lemma AddAssetCompanion(db: Db, draft: Asset, code: string, today: int, now: int)
    requires IndexOf(db.checklist, ItemId, "CHK-AST-" + code) == -1
    ensures var r := AddAsset(db, draft, code, today, now);
      |r.checklist| == |db.checklist| + 1 && |r.assets| == |db.assets| + 1
      && r.checklist[|db.checklist|] == CompanionItem(r.assets[0], today)
      && r.checklist[..|db.checklist|] == db.checklist
  {
    var a := draft.(id := "AST-" + code);
    assert CompanionItem(a, today).id == "CHK-AST-" + code;
  }

  // -------------------------------------------------------------------- orders

  /** `padStart(3, '0')` of a number below 1000. */
  function Pad3(n: nat): (s: string)
    requires n < 1000
    ensures |s| == 3
    ensures forall c :: c in s ==> '0' <= c <= '9'
    ensures DigitsValue(s) == n
  {
    var d := NatToString(n);
    assert |d| <= 3 by { DigitsBound(n); }
    var z := seq(3 - |d|, _ => '0');
    LeadingZeros(z, d);
    z + d
  }

  lemma {:induction false} DigitsBound(n: nat)
    ensures n < 10 ==> |NatToString(n)| == 1
    ensures n < 100 ==> |NatToString(n)| <= 2
    ensures n < 1000 ==> |NatToString(n)| <= 3
  {
    if n >= 10 {
      DigitsBound(n / 10);
    }
  }

  /** The order `createOrder` stores: the draft's fields, OPEN unless the draft
      gives a status, no evidence photo yet. */
  function OrderOf(draft: OrderDraft, id: string, createdAt: int): (o: Order)
    ensures o.id == id && o.createdAt == createdAt && o.evidencePhoto.None?
    ensures o.status == (if draft.status.Some? then draft.status.value else Open)
    ensures o.assetId == draft.assetId && o.assetName == draft.assetName && o.location == draft.location
    ensures o.priority == draft.priority && o.description == draft.description
    ensures o.serviceType == draft.serviceType && o.requesterName == draft.requesterName
    ensures o.technician == draft.technician && o.isWaitingPurchase == draft.isWaitingPurchase
    ensures o.deadline == draft.deadline
  {
    Order(id, draft.assetId, draft.assetName, draft.location, draft.serviceType,
          draft.requesterName, draft.technician, draft.status.GetOr(Open), draft.priority,
          draft.isWaitingPurchase, draft.deadline, draft.description, createdAt, None)
  }

  /** `OS-<year>-<3 digits>`: the year in plain decimal, the serial zero-padded to
      three digits, so both can be read back from the code. */
  function OrderCode(year: nat, serial: nat): (id: string)
    requires serial < 1000
    ensures |id| >= 8 && id[..3] == "OS-" && id[|id| - 4] == '-'
    ensures forall k :: 3 <= k < |id| && k != |id| - 4 ==> '0' <= id[k] <= '9'
    ensures DigitsValue(id[3..|id| - 4]) == year && (id[3] == '0' ==> |id| == 8)
    ensures DigitsValue(id[|id| - 3..]) == serial
  {
    var y, p := NatToString(year), Pad3(serial);
    CodeLayout(y, p);
    "OS-" + y + "-" + p
  }

  /** Where the year digits and the serial digits sit in `OS-<y>-<p>`. */
  lemma CodeLayout(y: string, p: string)
    requires y != [] && |p| == 3
    requires forall c :: c in y ==> '0' <= c <= '9'
    requires forall c :: c in p ==> '0' <= c <= '9'
    ensures var id := "OS-" + y + "-" + p;
      && |id| >= 8 && id[..3] == "OS-" && id[|id| - 4] == '-'
      && id[3..|id| - 4] == y && id[3] == y[0] && id[|id| - 3..] == p
      && (forall k :: 3 <= k < |id| && k != |id| - 4 ==> '0' <= id[k] <= '9')
  {
    var id := "OS-" + y + "-" + p;
    assert id[3..|id| - 4] == y && id[|id| - 3..] == p;
    forall k | 3 <= k < |id| && k != |id| - 4 ensures '0' <= id[k] <= '9' {
      if k < |id| - 4 {
        assert id[k] == y[k - 3] && y[k - 3] in y;
      } else {
        assert id[k] == p[k - |id| + 3] && p[k - |id| + 3] in p;
      }
    }
  }

  /** `createOrder`: the new order goes first. */
  function CreateOrder(db: Db, draft: OrderDraft, year: nat, serial: nat, now: int): (r: Db)
    requires serial < 1000
    ensures r.orders == [OrderOf(draft, OrderCode(year, serial), now)] + db.orders
    ensures r == db.(orders := r.orders, queue := r.queue)
    ensures r.queue == db.queue + Pending(db.online, [SyncEntry("ORDER_CREATED", OrderData(r.orders[0]), now)])
  {
    var o := OrderOf(draft, OrderCode(year, serial), now);
    Push(db.(orders := [o] + db.orders), "ORDER_CREATED", OrderData(o), now)
  }

  /** `{...order, ...updates}`: the fields the patch gives win, the rest are kept. */
  function Merge(o: Order, p: OrderPatch): (r: Order)
    ensures r.status == (if p.status.Some? then p.status.value else o.status)
    ensures r.technician == (if p.technician.Some? then p.technician.value else o.technician)
    ensures r.isWaitingPurchase == (if p.isWaitingPurchase.Some? then p.isWaitingPurchase.value else o.isWaitingPurchase)
    ensures r.evidencePhoto == (if p.evidencePhoto.Some? then p.evidencePhoto else o.evidencePhoto)
    ensures r == o.(status := r.status, technician := r.technician,
                    isWaitingPurchase := r.isWaitingPurchase, evidencePhoto := r.evidencePhoto)
  {
    o.(status := p.status.GetOr(o.status),
       technician := p.technician.GetOr(o.technician),
       isWaitingPurchase := p.isWaitingPurchase.GetOr(o.isWaitingPurchase),
       evidencePhoto := if p.evidencePhoto.Some? then p.evidencePhoto else o.evidencePhoto)
  }

  /** What `updateOrder` returns: the merged order, or null when the id is absent. */
  function UpdatedOrder(db: Db, id: string, p: OrderPatch): (r: Option<Order>)
    ensures r.None? <==> IndexOf(db.orders, OrderId, id) == -1
    ensures r.Some? ==> r.value.id == id
    ensures r.Some? ==> r.value == Merge(db.orders[IndexOf(db.orders, OrderId, id)], p)
  {
    var i := IndexOf(db.orders, OrderId, id);
    if i == -1 then None else Some(Merge(db.orders[i], p))
  }

  /** `updateOrder`: only the order with that id changes; absent id, nothing does. */
  function UpdateOrder(db: Db, id: string, p: OrderPatch, now: int): (r: Db)
    ensures UpdatedOrder(db, id, p).None? ==> r == db
    ensures var i := IndexOf(db.orders, OrderId, id);
      i >= 0 ==>
        && |r.orders| == |db.orders| && Some(r.orders[i]) == UpdatedOrder(db, id, p)
        && (forall j :: 0 <= j < |db.orders| && j != i ==> r.orders[j] == db.orders[j])
        && r.queue == db.queue + Pending(db.online, [SyncEntry("ORDER_UPDATED", OrderData(r.orders[i]), now)])
    ensures r == db.(orders := r.orders, queue := r.queue)
  {
    var i := IndexOf(db.orders, OrderId, id);
    if i == -1 then db
    else
      var o := Merge(db.orders[i], p);
      Push(db.(orders := db.orders[i := o]), "ORDER_UPDATED", OrderData(o), now)
  }

  /** Merging the same patch again changes nothing more. */
  lemma MergeIdempotent(o: Order, p: OrderPatch)
    ensures Merge(Merge(o, p), p) == Merge(o, p)
  {
  }

  /** Sending the same `updateOrder` twice leaves the orders as one call does. */
  lemma UpdateOrderIdempotent(db: Db, id: string, p: OrderPatch, now: int, later: int)
    ensures UpdateOrder(UpdateOrder(db, id, p, now), id, p, later).orders == UpdateOrder(db, id, p, now).orders
  {
    var r := UpdateOrder(db, id, p, now);
    var i := IndexOf(db.orders, OrderId, id);
    if i >= 0 {
      assert IndexOf(r.orders, OrderId, id) == i;
      MergeIdempotent(db.orders[i], p);
    }
  }

  /** The orders `getAssetMaintenanceHistory` selects. */
  function CompletedFor(assetId: string): Order -> bool {
    (o: Order) => o.assetId == Some(assetId) && o.status == Completed
  }

  /** `getAssetMaintenanceHistory`: the asset's completed orders, in stored order. */
  function MaintenanceHistory(db: Db, assetId: string): (r: seq<Order>)
    ensures forall o :: o in r <==> o in db.orders && o.assetId == Some(assetId) && o.status == Completed
  {
    Filter(db.orders, CompletedFor(assetId))
  }

  // ------------------------------------------------------------------ schedule

  /** The dates `createWorkScheduleTask` generates: four when a start date and a
      non-zero interval are given, none otherwise. */
  function TaskOccurrences(draft: TaskDraft): (occ: seq<Date>)
    requires draft.startDate.Some? ==> ValidDate(draft.startDate.value)
    ensures draft.startDate.Some? && draft.intervalMonths != 0 ==>
      |occ| == 4 && forall k :: 0 <= k < 4 ==>
        occ[k] == NthOccurrence(draft.startDate.value, draft.intervalMonths, k)
    ensures draft.startDate.None? || draft.intervalMonths == 0 ==> occ == []
  {
    if draft.startDate.Some? && draft.intervalMonths != 0
    then Occurrences(draft.startDate.value, draft.intervalMonths, 4)
    else []
  }

  /** The schedule task `createWorkScheduleTask` stores. */
  function TaskOf(draft: TaskDraft, today: Date, now: nat): (t: ScheduleTask)
    requires draft.startDate.Some? ==> ValidDate(draft.startDate.value)
    ensures t.id == "SCH-" + NatToString(now)
    ensures t.intervalMonths == (if draft.intervalMonths != 0 then draft.intervalMonths else 3)
    ensures t.status == (if draft.status.Some? then draft.status.value else Planned)
    ensures t.startDate == (if draft.startDate.Some? then draft.startDate.value else today)
    ensures t.occurrences == TaskOccurrences(draft)
    ensures t.assetId == draft.assetId && t.assetName == draft.assetName
    ensures t.location == draft.location && t.technician == draft.technician
  {
    ScheduleTask("SCH-" + NatToString(now), draft.assetId, draft.assetName, draft.location,
                 draft.startDate.GetOr(today),
                 if draft.intervalMonths != 0 then draft.intervalMonths else 3,
                 TaskOccurrences(draft), draft.technician, draft.status.GetOr(Planned), now)
  }

  /** `createWorkScheduleTask`: the new task goes first. */
  function CreateWorkScheduleTask(db: Db, draft: TaskDraft, today: Date, now: nat): (r: Db)
    requires draft.startDate.Some? ==> ValidDate(draft.startDate.value)
    ensures r.schedule == [TaskOf(draft, today, now)] + db.schedule
    ensures r == db.(schedule := r.schedule, queue := r.queue)
    ensures r.queue == db.queue + Pending(db.online, [SyncEntry("SCHEDULE_UPDATED", TaskData(r.schedule[0]), now)])
  {
    var t := TaskOf(draft, today, now);
    Push(db.(schedule := [t] + db.schedule), "SCHEDULE_UPDATED", TaskData(t), now)
  }

  /** With a start day that every month has, the k-th occurrence lies exactly
      k intervals after the start, on the same day. */
  lemma TaskOccurrencesEvenlySpaced(draft: TaskDraft, k: nat)
    requires draft.startDate.Some? && ValidDate(draft.startDate.value)
    requires draft.startDate.value.day <= 28 && draft.intervalMonths != 0 && k < 4
    ensures MonthIndex(TaskOccurrences(draft)[k]) == MonthIndex(draft.startDate.value) + k * draft.intervalMonths
    ensures TaskOccurrences(draft)[k].day == draft.startDate.value.day
  {
    NthOccurrenceExact(draft.startDate.value, draft.intervalMonths, k);
  }

  // --------------------------------------------------------------------- stock

  /** `saveStockItem`: replaces the item with that id; nothing happens when absent. */
  function SaveStockItem(db: Db, item: StockItem, now: int): (r: Db)
    ensures IndexOf(db.stock, StockId, item.id) == -1 ==> r == db
    ensures var i := IndexOf(db.stock, StockId, item.id);
      i >= 0 ==>
        && |r.stock| == |db.stock| && r.stock[i] == item
        && (forall j :: 0 <= j < |db.stock| && j != i ==> r.stock[j] == db.stock[j])
        && r.queue == db.queue + Pending(db.online, [SyncEntry("STOCK_UPDATED", StockData(item), now)])
    ensures r == db.(stock := r.stock, queue := r.queue)
  {
    var i := IndexOf(db.stock, StockId, item.id);
    if i == -1 then db
    else Push(db.(stock := db.stock[i := item]), "STOCK_UPDATED", StockData(item), now)
  }

  /** `addStockItem` with the random part of the id as `code`: appended last. */
  function AddStockItem(db: Db, draft: StockItem, code: string, now: int): (r: Db)
    ensures r.stock == db.stock + [draft.(id := "STK-" + code)]
    ensures r == db.(stock := r.stock, queue := r.queue)
    ensures r.queue == db.queue + Pending(db.online, [SyncEntry("STOCK_ADDED", StockData(draft.(id := "STK-" + code)), now)])
  {
    var item := draft.(id := "STK-" + code);
    Push(db.(stock := db.stock + [item]), "STOCK_ADDED", StockData(item), now)
  }

  // --------------------------------------------------------------------- stats

  datatype Stats = Stats(
    verifiedToday: nat,
    totalChecklist: nat,
    criticalAssets: nat,
    openOrders: nat,
    totalEvents: nat,
    isCloudSynced: bool,
    securityAlerts: nat,
    recentActivity: seq<SystemEvent>,
    operationalAssets: nat,
    maintenanceAssets: nat,
    criticalTelemetry: nat)

  function CheckedOn(today: int): ChecklistItem -> bool { (i: ChecklistItem) => i.lastChecked == today }
  function HasStatus(s: AssetStatus): Asset -> bool { (a: Asset) => a.status == s }
  predicate IsOpen(o: Order) { o.status != Completed }
  predicate IsDone(o: Order) { o.status == Completed }
  predicate IsSecurity(e: SystemEvent) { e.severity == SevSecurity }
  predicate OutOfRange(t: Telemetry) { t.value < t.min || t.value > t.max }

  /** `getSystemStats`, recomputed from the stored lists. */
  function SystemStats(db: Db, today: int, now: int): (s: Stats)
    ensures s.totalChecklist == |db.checklist| && s.verifiedToday <= s.totalChecklist
    ensures s.openOrders + Count(db.orders, IsDone) == |db.orders|
    ensures s.criticalAssets + s.operationalAssets + s.maintenanceAssets <= |db.assets|
    ensures s.totalEvents == |StoredEvents(db, now)| && s.securityAlerts <= s.totalEvents
    ensures s.recentActivity <= StoredEvents(db, now)
    ensures |s.recentActivity| == (if s.totalEvents < RECENT_ACTIVITY then s.totalEvents else RECENT_ACTIVITY)
    ensures s.isCloudSynced == db.online
    ensures s.criticalTelemetry <= |db.telemetry|
    ensures s.verifiedToday == Count(db.checklist, CheckedOn(today))
    ensures s.criticalAssets == Count(db.assets, HasStatus(Critical))
    ensures s.operationalAssets == Count(db.assets, HasStatus(Operational))
    ensures s.maintenanceAssets == Count(db.assets, HasStatus(InMaintenance))
    ensures s.securityAlerts == Count(StoredEvents(db, now), IsSecurity)
    ensures s.criticalTelemetry == Count(db.telemetry, OutOfRange)
  {
    var events := StoredEvents(db, now);
    CountComplement(db.orders, IsDone, IsOpen);
    AssetStatusCounts(db.assets);
    Stats(
      Count(db.checklist, CheckedOn(today)),
      |db.checklist|,
      Count(db.assets, HasStatus(Critical)),
      Count(db.orders, IsOpen),
      |events|,
      db.online,
      Count(events, IsSecurity),
      Take(events, RECENT_ACTIVITY),
      Count(db.assets, HasStatus(Operational)),
      Count(db.assets, HasStatus(InMaintenance)),
      Count(db.telemetry, OutOfRange))
  }

  /** Every asset has exactly one of the four statuses, so the per-status counts
      add up to the number of assets. */
  lemma {:induction false} AssetStatusCounts(s: seq<Asset>)
    ensures Count(s, HasStatus(Critical)) + Count(s, HasStatus(Operational))
          + Count(s, HasStatus(InMaintenance)) + Count(s, HasStatus(Retired)) == |s|
  {
    if s != [] {
      AssetStatusCounts(s[1..]);
    }
  }

  /** The three asset counts of the dashboard and the retired assets together
      account for every stored asset. */
  lemma StatsCoverAssets(db: Db, today: int, now: int)
    ensures var s := SystemStats(db, today, now);
      s.criticalAssets + s.operationalAssets + s.maintenanceAssets
        + Count(db.assets, HasStatus(Retired)) == |db.assets|
  {
    AssetStatusCounts(db.assets);
  }

  /** The telemetry alarm counts the readings outside their range: it is zero
      exactly when every reading lies within its [min, max]. */
  lemma TelemetryAlarm(db: Db, today: int, now: int)
    ensures SystemStats(db, today, now).criticalTelemetry == 0 <==>
      forall t :: t in db.telemetry ==> t.min <= t.value <= t.max
  {
    if forall t :: t in db.telemetry ==> t.min <= t.value <= t.max {
      assert forall i :: 0 <= i < |db.telemetry| ==> !OutOfRange(db.telemetry[i]);
      CountNone(db.telemetry, OutOfRange);
    } else {
      var t :| t in db.telemetry && !(t.min <= t.value <= t.max);
      assert t in Filter(db.telemetry, OutOfRange);
    }
  }

  /** Cancelled orders are not COMPLETED, so the dashboard counts them as open. */
  lemma CancelledCountsAsOpen(o: Order)
    requires o.status == Cancelled
    ensures IsOpen(o)
  {
  }
}
