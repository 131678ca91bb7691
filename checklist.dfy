/** pages/Checklist.tsx: the three per-item edits (status, date of the last
    check, observations), each persisted through saveChecklistItem, the critical
    alert on a failure, the manual-sync button and the sections by category. */
module ChecklistPage {
  import opened Types
  import opened Text
  import opened Lists
  import opened StoreSpec
  import opened Storage
  import opened Grouping

  /** Which field one of the three handlers changes. */
  datatype CheckEdit =
    | NewStatus(status: CheckStatus)  // updateStatus
    | NewDate(day: int)               // updateDate
    | NewNote(note: string)           // handleNoteSave

  /** `{ ...item, <field>: value }`. */
  function ApplyCheck(item: ChecklistItem, e: CheckEdit): (r: ChecklistItem)
    ensures r.id == item.id && r.labelText == item.labelText && r.category == item.category
    ensures r.status == (if e.NewStatus? then e.status else item.status)
    ensures r.lastChecked == (if e.NewDate? then e.day else item.lastChecked)
    ensures r.observations == (if e.NewNote? then e.note else item.observations)
  {
    match e
    case NewStatus(s) => item.(status := s)
    case NewDate(d) => item.(lastChecked := d)
    case NewNote(n) => item.(observations := n)
  }

  function FailAlertText(labelText: string): string {
    "HospGuardian alerta: falha detectada em " + labelText + ". Abrindo ordem de serviço prioritária."
  }

  /** The store effect of one row of the `map`: the matching row is saved and, when
      its status is set to FAIL, a critical ALERT naming it is logged. */
  function CheckRow(db: Db, item: ChecklistItem, id: string, e: CheckEdit, now: nat): Db {
    if item.id != id then db
    else
      var saved := SaveChecklistItem(db, ApplyCheck(item, e), now);
      if e == NewStatus(Fail) then LogEvent(saved, EvAlert, FailAlertText(item.labelText), SevCritical, now)
      else saved
  }

  function CheckStep(id: string, e: CheckEdit, now: nat): (Db, ChecklistItem) -> Db {
    (db: Db, item: ChecklistItem) => CheckRow(db, item, id, e, now)
  }

  /** The row the new view shows.  saveChecklistItem sanitizes the observations of
      the very object the `map` returns, so the view holds the sanitized copy. */
  function CheckedRow(item: ChecklistItem, id: string, e: CheckEdit): ChecklistItem {
    if item.id == id then SanitizedItem(ApplyCheck(item, e)) else item
  }

  /** The new view list. */
  function CheckedView(view: seq<ChecklistItem>, id: string, e: CheckEdit): (r: seq<ChecklistItem>)
    ensures |r| == |view|
    ensures forall i :: 0 <= i < |view| ==> r[i] == CheckedRow(view[i], id, e)
  {
    if view == [] then []
    else CheckedView(view[..|view| - 1], id, e) + [CheckedRow(view[|view| - 1], id, e)]
  }

  /** One row of the `map`. */
  method CheckOneRow(store: Store, item: ChecklistItem, id: string, e: CheckEdit, now: nat)
    returns (row: ChecklistItem)
    modifies store
    ensures row == CheckedRow(item, id, e)
    ensures store.Snapshot() == CheckRow(old(store.Snapshot()), item, id, e, now)
  {
    if item.id != id {
      return item;
    }
    var updated := match e
      case NewStatus(s) => item.(status := s)
      case NewDate(d) => item.(lastChecked := d)
      case NewNote(n) => item.(observations := n);
    row := store.SaveChecklistItem(updated, now);
    if e == NewStatus(Fail) {
      var ev := store.LogEvent(EvAlert, FailAlertText(item.labelText), SevCritical, now);
    }
  }

  /** The `setItems(prev => prev.map(...))` shared by the three handlers. */
  method HandleEdit(store: Store, view: seq<ChecklistItem>, id: string, e: CheckEdit, now: nat)
    returns (next: seq<ChecklistItem>)
    modifies store
    ensures next == CheckedView(view, id, e)
    ensures store.Snapshot() == Replay(old(store.Snapshot()), view, CheckStep(id, e, now))
  {
    next := [];
    for k := 0 to |view|
      invariant next == CheckedView(view[..k], id, e)
      invariant store.Snapshot() == Replay(old(store.Snapshot()), view[..k], CheckStep(id, e, now))
    {
      assert view[..k + 1][..k] == view[..k];
      var row := CheckOneRow(store, view[k], id, e, now);
      next := next + [row];
    }
    assert view[..|view|] == view;
  }

  /** updateStatus. */
  method UpdateStatus(store: Store, view: seq<ChecklistItem>, id: string, status: CheckStatus, now: nat)
    returns (next: seq<ChecklistItem>)
    modifies store
    ensures next == CheckedView(view, id, NewStatus(status))
    ensures store.Snapshot() == Replay(old(store.Snapshot()), view, CheckStep(id, NewStatus(status), now))
  {
    next := HandleEdit(store, view, id, NewStatus(status), now);
  }

  /** updateDate. */
  method UpdateDate(store: Store, view: seq<ChecklistItem>, id: string, day: int, now: nat)
    returns (next: seq<ChecklistItem>)
    modifies store
    ensures next == CheckedView(view, id, NewDate(day))
    ensures store.Snapshot() == Replay(old(store.Snapshot()), view, CheckStep(id, NewDate(day), now))
  {
    next := HandleEdit(store, view, id, NewDate(day), now);
  }

  /** handleNoteSave. */
  method HandleNoteSave(store: Store, view: seq<ChecklistItem>, id: string, note: string, now: nat)
    returns (next: seq<ChecklistItem>)
    modifies store
    ensures next == CheckedView(view, id, NewNote(note))
    ensures store.Snapshot() == Replay(old(store.Snapshot()), view, CheckStep(id, NewNote(note), now))
  {
    next := HandleEdit(store, view, id, NewNote(note), now);
  }

  /** A status or date edit changes only that field of the matching rows: rows read
      from the store already carry sanitized observations, which saving leaves as
      they are. */
  lemma EditChangesOnlyItsField(view: seq<ChecklistItem>, id: string, e: CheckEdit, i: int)
    requires 0 <= i < |view| && view[i].id == id
    requires Sanitize(view[i].observations) == view[i].observations
    requires !e.NewNote?
    ensures CheckedView(view, id, e)[i] == ApplyCheck(view[i], e)
  {
  }

  /** A saved note is stored and shown without angle brackets or surrounding blanks,
      and saving it a second time changes nothing more. */
  lemma NoteIsSanitized(view: seq<ChecklistItem>, id: string, note: string, i: int)
    requires 0 <= i < |view| && view[i].id == id
    ensures var row := CheckedView(view, id, NewNote(note))[i];
      && row == view[i].(observations := Sanitize(note))
      && SanitizedItem(row) == row
  {
    SanitizeIdempotent(note);
  }

  /** With the id on exactly one row, setting FAIL saves the row and logs exactly
      one critical ALERT naming the item. */
  lemma FailLogsOneAlert(db: Db, view: seq<ChecklistItem>, k: int, now: nat)
    requires 0 <= k < |view|
    requires forall j :: 0 <= j < |view| && j != k ==> view[j].id != view[k].id
    ensures Replay(db, view, CheckStep(view[k].id, NewStatus(Fail), now)) ==
      LogEvent(SaveChecklistItem(db, view[k].(status := Fail), now),
               EvAlert, FailAlertText(view[k].labelText), SevCritical, now)
  {
    ReplaySingle(db, view, CheckStep(view[k].id, NewStatus(Fail), now), k);
  }

  /** OK, PENDING, a date and a note only save the row; nothing is logged. */
  lemma OtherEditsOnlySave(db: Db, view: seq<ChecklistItem>, k: int, e: CheckEdit, now: nat)
    requires 0 <= k < |view|
    requires forall j :: 0 <= j < |view| && j != k ==> view[j].id != view[k].id
    requires e != NewStatus(Fail)
    ensures Replay(db, view, CheckStep(view[k].id, e, now)) == SaveChecklistItem(db, ApplyCheck(view[k], e), now)
  {
    ReplaySingle(db, view, CheckStep(view[k].id, e, now), k);
  }

  /** An id on no row changes neither the store nor the view. */
  lemma UnknownItemNoEffect(db: Db, view: seq<ChecklistItem>, id: string, e: CheckEdit, now: nat)
    requires forall j :: 0 <= j < |view| ==> view[j].id != id
    ensures Replay(db, view, CheckStep(id, e, now)) == db
    ensures CheckedView(view, id, e) == view
  {
    ReplayNone(db, view, CheckStep(id, e, now));
  }

  /** The "Sincronizar Agora" button. */
  method ManualSync(store: Store, now: nat)
    modifies store
    ensures store.Snapshot() ==
      StoreSpec.LogEvent(old(store.Snapshot()), EvSystem, "Sincronização manual efetuada.", SevInfo, now)
  {
    var ev := store.LogEvent(EvSystem, "Sincronização manual efetuada.", SevInfo, now);
  }

  /** `categories.map(cat => items.filter(i => i.category === cat))`. */
  function Sections(items: seq<ChecklistItem>): (r: seq<seq<ChecklistItem>>)
    ensures |r| == |Categories(items)|
    ensures forall j, x :: 0 <= j < |r| ==> (x in r[j] <==> x in items && x.category == Categories(items)[j])
  {
    SectionsOf(Categories(items), items)
  }

  function SectionsOf(cats: seq<string>, items: seq<ChecklistItem>): (r: seq<seq<ChecklistItem>>)
    ensures |r| == |cats|
    ensures forall j :: 0 <= j < |r| ==> r[j] == Filter(items, InCategory(cats[j]))
  {
    if cats == [] then []
    else SectionsOf(cats[..|cats| - 1], items) + [Filter(items, InCategory(cats[|cats| - 1]))]
  }

  /** Each item is listed in exactly one section: the one of its own category. */
  lemma EachItemInOneSection(items: seq<ChecklistItem>, x: ChecklistItem)
    requires x in items
    ensures exists j :: 0 <= j < |Sections(items)| && x in Sections(items)[j]
    ensures forall j, k :: 0 <= j < k < |Sections(items)| ==> !(x in Sections(items)[j] && x in Sections(items)[k])
  {
    var cats := Categories(items);
    var i :| 0 <= i < |items| && items[i] == x;
    var j :| 0 <= j < |cats| && cats[j] == x.category;
    assert x in Sections(items)[j];
  }
}
