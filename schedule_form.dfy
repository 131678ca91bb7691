/** components/WorkScheduleForm.tsx: the submit that turns the form into a
    preventive-maintenance task. */
module ScheduleForm {
  import opened Types
  import opened Lists
  import opened Dates
  import opened StoreSpec
  import opened Storage
  import opened AssetLookup

  /** The form state; a cleared date input is `None`, and an interval the number
      input cannot parse is left out (see README). */
  datatype ScheduleFormData = ScheduleFormData(
    assetId: string,
    assetName: string,
    location: string,
    startDate: Option<Date>,
    intervalMonths: int,
    technician: string,
    status: TaskStatus)

  /** The form as it opens: no asset, today's date, every 3 months, planned. */
  function InitialForm(today: Date): ScheduleFormData {
    ScheduleFormData("", "", "", Some(today), 3, "", Planned)
  }

  /** The name and location the new schedule entry gets: the linked asset's when the id is set and
      an asset has it, the manually typed ones otherwise. */
  function Target(f: ScheduleFormData, assets: seq<Asset>): (r: (string, string))
    ensures f.assetId == "" || (forall a :: a in assets ==> a.id != f.assetId) ==>
      r == (f.assetName, f.location)
    ensures forall k :: 0 <= k < |assets| && f.assetId != "" && assets[k].id == f.assetId
                        && (forall i :: 0 <= i < k ==> assets[i].id != f.assetId) ==>
      r == (assets[k].name, assets[k].location)
  {
    var asset := FindAsset(assets, f.assetId);
    if f.assetId != "" && asset.Some? then (asset.value.name, asset.value.location)
    else (f.assetName, f.location)
  }

  /** The draft handleSubmit hands to createWorkScheduleTask. */
  function FormDraft(f: ScheduleFormData, assets: seq<Asset>): (d: TaskDraft)
    ensures d.assetId.None? <==> f.assetId == ""
    ensures d.assetId.Some? ==> d.assetId.value == f.assetId
    ensures (d.assetName, d.location) == Target(f, assets)
    ensures d.startDate == f.startDate && d.intervalMonths == f.intervalMonths
    ensures d.technician == f.technician && d.status == Some(f.status)
  {
    var (name, location) := Target(f, assets);
    TaskDraft(if f.assetId == "" then None else Some(f.assetId), name, location,
              f.startDate, f.intervalMonths, f.technician, Some(f.status))
  }

  /** handleSubmit: resolves the name and location, then creates the schedule task. */
  method HandleSubmit(store: Store, f: ScheduleFormData, assets: seq<Asset>, today: Date, now: nat)
    returns (t: ScheduleTask)
    requires f.startDate.Some? ==> ValidDate(f.startDate.value)
    modifies store
    ensures t == TaskOf(FormDraft(f, assets), today, now)
    ensures store.Snapshot() == CreateWorkScheduleTask(old(store.Snapshot()), FormDraft(f, assets), today, now)
  {
    var finalAssetName := f.assetName;
    var finalLocation := f.location;
    if f.assetId != "" {
      var asset := FindAsset(assets, f.assetId);
      if asset.Some? {
        finalAssetName := asset.value.name;
        finalLocation := asset.value.location;
      }
    }
    var draft := TaskDraft(if f.assetId == "" then None else Some(f.assetId), finalAssetName,
                           finalLocation, f.startDate, f.intervalMonths, f.technician, Some(f.status));
    t := store.CreateWorkScheduleTask(draft, today, now);
  }

  /** Submitting the form as it opens schedules a planned task every 3 months with
      four occurrences, the first today, and no linked asset. */
  lemma InitialFormTask(today: Date, assets: seq<Asset>, now: nat)
    requires ValidDate(today)
    ensures var t := TaskOf(FormDraft(InitialForm(today), assets), today, now);
      && t.assetId.None? && t.intervalMonths == 3 && t.status == Planned
      && |t.occurrences| == 4 && t.occurrences[0] == today && t.startDate == today
  {
  }

  /** A submitted form adds exactly one task, first in the list, and changes no other
      list; that schedule task carries the asset's name and location when it links one. */
  lemma SubmitAddsOneTask(db: Db, f: ScheduleFormData, assets: seq<Asset>, today: Date, now: nat, k: int)
    requires f.startDate.Some? ==> ValidDate(f.startDate.value)
    requires 0 <= k < |assets| && assets[k].id == f.assetId && f.assetId != ""
    requires forall i :: 0 <= i < k ==> assets[i].id != f.assetId
    ensures var r := CreateWorkScheduleTask(db, FormDraft(f, assets), today, now);
      && |r.schedule| == |db.schedule| + 1 && r.schedule[1..] == db.schedule
      && r.schedule[0].assetId == Some(f.assetId)
      && r.schedule[0].assetName == assets[k].name && r.schedule[0].location == assets[k].location
      && r.assets == db.assets && r.orders == db.orders && r.events == db.events
  {
  }
}
