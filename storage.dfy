/** services/storage.ts as an object: one field per stored list, the connectivity
    flag and the offline sync queue.  Each writer reads a list, changes it in place
    and writes it back, then notifies; its contract ties the new state to the
    matching `StoreSpec` function of the old state. */
module Storage {
  import opened Types
  import opened Text
  import opened Lists
  import opened Dates
  import opened StoreSpec

  class Store {
    var checklist: seq<ChecklistItem>
    var assets: seq<Asset>
    var orders: seq<Order>
    var events: Option<seq<SystemEvent>>
    var schedule: seq<ScheduleTask>
    var stock: seq<StockItem>
    var telemetry: seq<Telemetry>
    var role: string
    var online: bool
    var queue: seq<SyncEntry>

    /** The whole persisted state as a value. */
    function Snapshot(): Db
      reads this
    {
      Db(checklist, assets, orders, events, schedule, stock, telemetry, role, online, queue)
    }

    /** A browser profile with nothing stored. */
    constructor (online: bool)
      ensures Snapshot() == EmptyDb(online)
    {
      checklist, assets, orders, events := [], [], [], None;
      schedule, stock, telemetry := [], [], [];
      role, this.online, queue := "", online, [];
    }

    /** `pushToCloud`: reports delivery when online; offline, queues the change. */
    method PushToCloud(kind: string, data: Payload, now: int) returns (delivered: bool)
      modifies this
      ensures delivered == old(online)
      ensures Snapshot() == Push(old(Snapshot()), kind, data, now)
    {
      if !online {
        queue := queue + [SyncEntry(kind, data, now)];
        return false;
      }
      return true;
    }

    /** The browser's `online` event and the handler registered for it. */
    method GoOnline(now: int)
      modifies this
      ensures Snapshot() == Reconnect(old(Snapshot()), now)
    {
      online := true;
      if |queue| > 0 {
        queue := [];
        var delivered := PushToCloud("QUEUE_CLEARED", NoData, now);
      }
    }

    /** The browser losing connectivity (`navigator.onLine` turning false). */
    method GoOffline()
      modifies this
      ensures Snapshot() == old(Snapshot()).(online := false)
    {
      online := false;
    }

    /** `setUserRole`. */
    method SetUserRole(newRole: string, now: int)
      requires newRole != ""
      modifies this
      ensures Snapshot() == StoreSpec.SetUserRole(old(Snapshot()), newRole, now)
    {
      role := newRole;
      var delivered := PushToCloud("ROLE_CHANGED", NoData, now);
    }

    /** `logEvent`: returns the entry it stored first. */
    method LogEvent(kind: EventType, msg: string, sev: Severity, now: nat) returns (e: SystemEvent)
      modifies this
      ensures e == NewEvent(old(Snapshot()), kind, msg, sev, now)
      ensures Snapshot() == StoreSpec.LogEvent(old(Snapshot()), kind, msg, sev, now)
    {
      var log := if events.None? then [BootEvent(now)] else events.value;
      var user := if role == "" then TECHNICIAN else role;
      e := SystemEvent("EV-" + NatToString(now), now, kind, user, Sanitize(msg), sev);
      assert e == NewEvent(old(Snapshot()), kind, msg, sev, now);
      log := [e] + log;
      if |log| > EVENT_CAP {
        log := log[..EVENT_CAP];
      }
      assert log == Take([e] + StoredEvents(old(Snapshot()), now), EVENT_CAP);
      events := Some(log);
      var delivered := PushToCloud("EVENT_LOGGED", EventData(e), now);
    }

    /** `updateTelemetry`. */
    method UpdateTelemetry(d: Telemetry, now: int)
      modifies this
      ensures Snapshot() == StoreSpec.UpdateTelemetry(old(Snapshot()), d, now)
    {
      var i := FindIndex(telemetry, ReadingId, d.id);
      if i != -1 {
        telemetry := telemetry[i := d];
      } else {
        telemetry := telemetry + [d];
      }
      var delivered := PushToCloud("TELEMETRY_UPDATED", TelemetryData(d), now);
    }

    /** `saveChecklistItem`; returns the caller's item as the store left it
        (observations sanitized). */
    method SaveChecklistItem(item: ChecklistItem, now: int) returns (saved: ChecklistItem)
      modifies this
      ensures saved == SanitizedItem(item)
      ensures Snapshot() == StoreSpec.SaveChecklistItem(old(Snapshot()), item, now)
    {
      var i := FindIndex(checklist, ItemId, item.id);
      saved := item.(observations := Sanitize(item.observations));
      if i != -1 {
        checklist := checklist[i := saved];
      } else {
        checklist := checklist + [saved];
      }
      var delivered := PushToCloud("CHECKLIST_UPDATED", ChecklistData(saved), now);
    }

    /** `saveAsset`. */
    method SaveAsset(a: Asset, now: int)
      modifies this
      ensures Snapshot() == StoreSpec.SaveAsset(old(Snapshot()), a, now)
    {
      var i := FindIndex(assets, AssetId, a.id);
      if i != -1 {
        assets := assets[i := a];
        var delivered := PushToCloud("ASSETS_UPDATED", AssetData(a), now);
      }
    }

    /** `updateAssetStatus`. */
    method UpdateAssetStatus(id: string, status: AssetStatus, now: int)
      modifies this
      ensures Snapshot() == StoreSpec.UpdateAssetStatus(old(Snapshot()), id, status, now)
    {
      var i := FindIndex(assets, AssetId, id);
      if i != -1 {
        assets := assets[i := assets[i].(status := status)];
        var delivered := PushToCloud("ASSETS_UPDATED", AssetData(assets[i]), now);
      }
    }

    /** `addAsset`; returns the stored asset. */
    method AddAsset(draft: Asset, code: string, today: int, now: int) returns (a: Asset)
      modifies this
      ensures a == draft.(id := "AST-" + code)
      ensures Snapshot() == StoreSpec.AddAsset(old(Snapshot()), draft, code, today, now)
    {
      a := draft.(id := "AST-" + code);
      assets := [a] + assets;
      var item := ChecklistItem("CHK-" + a.id, draft.name, draft.category, Ok, "", today);
      var saved := SaveChecklistItem(item, now);
      var delivered := PushToCloud("ASSET_ADDED", AssetData(a), now);
    }

    /** `createOrder`; returns the stored order. */
    method CreateOrder(draft: OrderDraft, year: nat, serial: nat, now: int) returns (o: Order)
      requires serial < 1000
      modifies this
      ensures o == OrderOf(draft, OrderCode(year, serial), now)
      ensures Snapshot() == StoreSpec.CreateOrder(old(Snapshot()), draft, year, serial, now)
    {
      var status := if draft.status.Some? then draft.status.value else Open;
      o := Order("OS-" + NatToString(year) + "-" + Pad3(serial), draft.assetId, draft.assetName,
                 draft.location, draft.serviceType, draft.requesterName, draft.technician,
                 status, draft.priority, draft.isWaitingPurchase, draft.deadline,
                 draft.description, now, None);
      orders := [o] + orders;
      var delivered := PushToCloud("ORDER_CREATED", OrderData(o), now);
    }

    /** `updateOrder`; returns the merged order, or `None` (null) when the id is absent. */
    method UpdateOrder(id: string, p: OrderPatch, now: int) returns (r: Option<Order>)
      modifies this
      ensures r == UpdatedOrder(old(Snapshot()), id, p)
      ensures Snapshot() == StoreSpec.UpdateOrder(old(Snapshot()), id, p, now)
    {
      var i := FindIndex(orders, OrderId, id);
      if i == -1 {
        return None;
      }
      orders := orders[i := Merge(orders[i], p)];
      var delivered := PushToCloud("ORDER_UPDATED", OrderData(orders[i]), now);
      r := Some(orders[i]);
    }

    /** `createWorkScheduleTask`; returns the stored task. */
    method CreateWorkScheduleTask(draft: TaskDraft, today: Date, now: nat) returns (t: ScheduleTask)
      requires draft.startDate.Some? ==> ValidDate(draft.startDate.value)
      modifies this
      ensures t == TaskOf(draft, today, now)
      ensures Snapshot() == StoreSpec.CreateWorkScheduleTask(old(Snapshot()), draft, today, now)
    {
      var occ: seq<Date> := [];
      if draft.startDate.Some? && draft.intervalMonths != 0 {
        occ := BuildOccurrences(draft.startDate.value, draft.intervalMonths, 4);
      }
      t := ScheduleTask("SCH-" + NatToString(now), draft.assetId, draft.assetName, draft.location,
                        if draft.startDate.Some? then draft.startDate.value else today,
                        if draft.intervalMonths != 0 then draft.intervalMonths else 3,
                        occ, draft.technician,
                        if draft.status.Some? then draft.status.value else Planned, now);
      schedule := [t] + schedule;
      var delivered := PushToCloud("SCHEDULE_UPDATED", TaskData(t), now);
    }

    /** `saveStockItem`. */
    method SaveStockItem(item: StockItem, now: int)
      modifies this
      ensures Snapshot() == StoreSpec.SaveStockItem(old(Snapshot()), item, now)
    {
      var i := FindIndex(stock, StockId, item.id);
      if i != -1 {
        stock := stock[i := item];
        var delivered := PushToCloud("STOCK_UPDATED", StockData(item), now);
      }
    }

    /** `addStockItem`; returns the stored item. */
    method AddStockItem(draft: StockItem, code: string, now: int) returns (item: StockItem)
      modifies this
      ensures item == draft.(id := "STK-" + code)
      ensures Snapshot() == StoreSpec.AddStockItem(old(Snapshot()), draft, code, now)
    {
      item := draft.(id := "STK-" + code);
      stock := stock + [item];
      var delivered := PushToCloud("STOCK_ADDED", StockData(item), now);
    }
  }
}
