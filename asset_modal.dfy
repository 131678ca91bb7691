/** components/AssetModal.tsx: the quick actions on a scanned asset.  Each
    recognised action sets the asset's status and logs its own event (urgent_os
    also opens a critical order); every action, recognised or not, ends with one
    ALERT carrying the action's message. */
module AssetModal {
  import opened Types
  import opened Lists
  import opened StoreSpec
  import opened Storage

  const VERIFY := "verify"
  const MAINTENANCE := "maintenance"
  const URGENT_OS := "urgent_os"
  const RETIRE := "retire"

  predicate Recognised(action: string) {
    action == VERIFY || action == MAINTENANCE || action == URGENT_OS || action == RETIRE
  }

  /** The status each action sets; none for an unrecognised action. */
  function StatusFor(action: string): (s: Option<AssetStatus>)
    ensures s.Some? <==> Recognised(action)
  {
    if action == VERIFY then Some(Operational)
    else if action == MAINTENANCE then Some(InMaintenance)
    else if action == URGENT_OS then Some(Critical)
    else if action == RETIRE then Some(Retired)
    else None
  }

  /** The spoken message, which the final ALERT also records. */
  function ActionMessage(action: string, name: string): string {
    if action == VERIFY then "Verificação concluída para " + name + ". Ativo sincronizado como Operacional."
    else if action == MAINTENANCE then "Ativo " + name + " marcado em manutenção no inventário."
    else if action == URGENT_OS then "ALERTA: OS de Urgência aberta para " + name + ". Status crítico sincronizado."
    else if action == RETIRE then "Comando de desativação executado para " + name + "."
    else ""
  }

  /** The order urgent_os opens; the fields the call leaves out are empty. */
  function UrgentDraft(a: Asset): OrderDraft {
    OrderDraft(Some(a.id), a.name, a.location, "", "", "", Top, false, "",
               "OS DE URGÊNCIA: Falha crítica reportada via Scanner QR.", Some(Open))
  }

  /** The event each recognised branch logs after its writes. */
  function BranchKind(action: string): EventType {
    if action == VERIFY then EvChecklist
    else if action == URGENT_OS then EvOrder
    else EvAsset
  }

  function BranchText(action: string, name: string): string {
    if action == VERIFY then "Inspeção positiva via scanner para " + name
    else if action == MAINTENANCE then "Status de manutenção definido via comando rápido para " + name
    else if action == URGENT_OS then "OS CRÍTICA via scanner para " + name
    else "Remoção do fluxo: " + name
  }

  function BranchSeverity(action: string): Severity {
    if action == VERIFY then SevInfo
    else if action == MAINTENANCE then SevWarning
    else SevCritical
  }

  /** The list writes of a recognised branch: the status, and urgent_os's order. */
  function StatusWrites(db: Db, a: Asset, action: string, year: nat, serial: nat, now: nat): (r: Db)
    requires serial < 1000 && Recognised(action)
    ensures r.assets == UpdateAssetStatus(db, a.id, StatusFor(action).value, now).assets
    ensures r.orders == if action == URGENT_OS then [OrderOf(UrgentDraft(a), OrderCode(year, serial), now)] + db.orders
                        else db.orders
    ensures r.events == db.events
  {
    var d := UpdateAssetStatus(db, a.id, StatusFor(action).value, now);
    if action == URGENT_OS then CreateOrder(d, UrgentDraft(a), year, serial, now) else d
  }

  /** The writes of the recognised branch: the status, urgent_os's order and the
      branch's own event; an unrecognised action writes nothing. */
  function Acted(db: Db, a: Asset, action: string, year: nat, serial: nat, now: nat): (r: Db)
    requires serial < 1000
    ensures !Recognised(action) ==> r == db
    ensures Recognised(action) ==> r.assets == UpdateAssetStatus(db, a.id, StatusFor(action).value, now).assets
    ensures r.orders == if action == URGENT_OS then [OrderOf(UrgentDraft(a), OrderCode(year, serial), now)] + db.orders
                        else db.orders
    ensures Recognised(action) ==>
              && r.events.Some?
              && |r.events.value| == if |StoredEvents(db, now)| < EVENT_CAP then |StoredEvents(db, now)| + 1 else EVENT_CAP
  {
    if Recognised(action) then
      var d := StatusWrites(db, a, action, year, serial, now);
      assert StoredEvents(d, now) == StoredEvents(db, now);
      LogEvent(d, BranchKind(action), BranchText(action, a.name), BranchSeverity(action), now)
    else db
  }

  /** The store writes of handleAction, in order: the branch's writes, then the
      closing ALERT. */
  function ActionEffect(db: Db, a: Asset, action: string, year: nat, serial: nat, now: nat): Db
    requires serial < 1000
  {
    LogEvent(Acted(db, a, action, year, serial, now), EvAlert, ActionMessage(action, a.name),
             if action == URGENT_OS then SevCritical else SevInfo, now)
  }

  /** The store writes every recognised branch makes, in the source's order: the
      status, urgent_os's order, then the branch's own event. */
  method WriteBranch(store: Store, a: Asset, action: string, year: nat, serial: nat, now: nat)
    requires serial < 1000 && Recognised(action)
    modifies store
    ensures store.Snapshot() == Acted(old(store.Snapshot()), a, action, year, serial, now)
  {
    ghost var before := store.Snapshot();
    store.UpdateAssetStatus(a.id, StatusFor(action).value, now);
    if action == URGENT_OS {
      var o := store.CreateOrder(UrgentDraft(a), year, serial, now);
    }
    assert store.Snapshot() == StatusWrites(before, a, action, year, serial, now);
    var e := store.LogEvent(BranchKind(action), BranchText(action, a.name), BranchSeverity(action), now);
  }

  /** handleAction (after its simulated delay): the recognised branch's message,
      status and writes, then the closing ALERT; returns the message it speaks and
      the status it chose. */
  method HandleAction(store: Store, a: Asset, action: string, year: nat, serial: nat, now: nat)
    returns (message: string, newStatus: AssetStatus)
    requires serial < 1000
    modifies store
    ensures message == ActionMessage(action, a.name)
    ensures newStatus == StatusFor(action).GetOr(a.status)
    ensures store.Snapshot() == ActionEffect(old(store.Snapshot()), a, action, year, serial, now)
  {
    message := ActionMessage(action, a.name);
    newStatus := StatusFor(action).GetOr(a.status);
    if Recognised(action) {
      WriteBranch(store, a, action, year, serial, now);
    }
    var e := store.LogEvent(EvAlert, message, if action == URGENT_OS then SevCritical else SevInfo, now);
  }

  /** A recognised action leaves the stored asset with the action's status and
      changes no other asset; an unrecognised one changes no asset. */
  lemma ActionSetsStatus(db: Db, a: Asset, action: string, year: nat, serial: nat, now: nat)
    requires serial < 1000
    ensures var r := ActionEffect(db, a, action, year, serial, now);
      var i := IndexOf(db.assets, AssetId, a.id);
      && |r.assets| == |db.assets|
      && (Recognised(action) && i >= 0 ==> r.assets[i] == db.assets[i].(status := StatusFor(action).value))
      && (forall j :: 0 <= j < |db.assets| && (j != i || !Recognised(action)) ==> r.assets[j] == db.assets[j])
  {
  }

  /** urgent_os opens exactly one order, first in the list, for this asset, critical
      and OPEN; every other action opens none. */
  lemma OnlyUrgentOpensOrder(db: Db, a: Asset, action: string, year: nat, serial: nat, now: nat)
    requires serial < 1000
    ensures var r := ActionEffect(db, a, action, year, serial, now);
      && (action == URGENT_OS ==>
            |r.orders| == |db.orders| + 1 && r.orders[1..] == db.orders
            && r.orders[0].assetId == Some(a.id) && r.orders[0].assetName == a.name
            && r.orders[0].location == a.location && r.orders[0].priority == Top && r.orders[0].status == Open)
      && (action != URGENT_OS ==> r.orders == db.orders)
  {
  }

  /** Below the log's cap, a recognised action logs exactly two events and an
      unrecognised one exactly one; the last is an ALERT, critical only for
      urgent_os, and for an unrecognised action its message is empty. */
  lemma ActionEventCount(db: Db, a: Asset, action: string, year: nat, serial: nat, now: nat)
    requires serial < 1000
    requires |StoredEvents(db, now)| + 2 <= EVENT_CAP
    ensures var r := ActionEffect(db, a, action, year, serial, now);
      && r.events.Some?
      && |r.events.value| == |StoredEvents(db, now)| + (if Recognised(action) then 2 else 1)
      && r.events.value[0].kind == EvAlert
      && (r.events.value[0].severity == SevCritical <==> action == URGENT_OS)
      && (!Recognised(action) ==> r.events.value[0].message == "")
  {
    var d := Acted(db, a, action, year, serial, now);
    assert |StoredEvents(d, now)| == |StoredEvents(db, now)| + (if Recognised(action) then 1 else 0);
  }

  /** The history the modal lists (the asset's completed orders) is the same after
      any quick action: urgent_os adds an OPEN order, never a completed one. */
  lemma {:induction false} ActionKeepsHistory(db: Db, a: Asset, action: string, year: nat, serial: nat, now: nat,
                                              id: string)
    requires serial < 1000
    ensures MaintenanceHistory(ActionEffect(db, a, action, year, serial, now), id) == MaintenanceHistory(db, id)
  {
    if action == URGENT_OS {
      var o := OrderOf(UrgentDraft(a), OrderCode(year, serial), now);
      FilterAppend([o], db.orders, CompletedFor(id));
      FilterSingle(o, CompletedFor(id));
    }
  }
}
