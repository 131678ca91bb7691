/** components/OSQuickForm.tsx: linking an asset to a new service order (by QR or
    by the select), and the submit that creates the order and logs it. */
module OSQuickForm {
  import opened Types
  import opened Lists
  import opened StoreSpec
  import opened Storage
  import opened AssetLookup

  /** The form state the handlers read and write. The purchase texts
      (`equipmentReplacement`, `partsUsed`, `materialNeeds`) are left out: the
      modelled `Order` does not carry them. */
  datatype QuickForm = QuickForm(
    showScanner: bool,
    assetId: string,
    location: string,
    serviceType: string,
    requesterName: string,
    technician: string,
    priority: Priority,
    description: string,
    isWaitingPurchase: bool,
    deadline: string)

  /** The QR tick with a decoded text: the first asset the text designates fills in
      the asset and its location and closes the scanner; no match, nothing changes. */
  function QrMatch(f: QuickForm, assets: seq<Asset>, code: string): (r: QuickForm)
    ensures FindByCode(assets, code).None? ==> r == f
    ensures FindByCode(assets, code).Some? ==>
      exists k :: 0 <= k < |assets| && ScanMatches(assets[k], code)
        && (forall i :: 0 <= i < k ==> !ScanMatches(assets[i], code))
        && r == f.(showScanner := false, assetId := assets[k].id, location := assets[k].location)
  {
    match FindByCode(assets, code)
    case None => f
    case Some(a) => f.(showScanner := false, assetId := a.id, location := a.location)
  }

  /** The select's onChange: the asset id is the chosen value; the location becomes
      the asset's when one has that id and a non-empty location (`a?.location ||
      formData.location`), otherwise it stays. */
  function SelectAsset(f: QuickForm, assets: seq<Asset>, id: string): (r: QuickForm)
    ensures r == f.(assetId := id, location := r.location)
    ensures forall k :: 0 <= k < |assets| && assets[k].id == id
                        && (forall i :: 0 <= i < k ==> assets[i].id != id) ==>
      r.location == if assets[k].location != "" then assets[k].location else f.location
    ensures (forall a :: a in assets ==> a.id != id) ==> r.location == f.location
  {
    var found := FindAsset(assets, id);
    var loc := if found.Some? && found.value.location != "" then found.value.location else f.location;
    f.(assetId := id, location := loc)
  }

  const GENERAL_SERVICE := "Serviço Geral / Infraestrutura"

  /** The draft handleSubmit hands to createOrder. */
  function SubmitDraft(f: QuickForm, assets: seq<Asset>): (d: OrderDraft)
    ensures d.assetId.None? <==> f.assetId == ""
    ensures d.assetId.Some? ==> d.assetId.value == f.assetId
    ensures (forall a :: a in assets ==> a.id != f.assetId) ==> d.assetName == GENERAL_SERVICE
    ensures forall k :: 0 <= k < |assets| && assets[k].id == f.assetId
                        && (forall i :: 0 <= i < k ==> assets[i].id != f.assetId) ==>
      d.assetName == if assets[k].name != "" then assets[k].name else GENERAL_SERVICE
    ensures d.location == f.location && d.priority == f.priority && d.status == Some(Open)
    ensures d.requesterName == f.requesterName && d.description == f.description
  {
    var asset := FindAsset(assets, f.assetId);
    OrderDraft(if f.assetId == "" then None else Some(f.assetId),
               if asset.Some? && asset.value.name != "" then asset.value.name else GENERAL_SERVICE,
               f.location, f.serviceType, f.requesterName, f.technician, f.priority,
               f.isWaitingPurchase, f.deadline, f.description, Some(Open))
  }

  function SubmitText(id: string, f: QuickForm): string {
    "Ordem de serviço " + id + " registrada. Setor: " + f.location + ". Solicitante: " + f.requesterName + "."
  }

  /** A critical order is announced as critical, any other as a warning. */
  function SubmitSeverity(p: Priority): Severity {
    if p == Top then SevCritical else SevWarning
  }

  /** The store writes of handleSubmit: the order, then the OS event naming it. */
  function SubmitEffect(db: Db, f: QuickForm, assets: seq<Asset>, year: nat, serial: nat, now: nat): Db
    requires serial < 1000
  {
    LogEvent(CreateOrder(db, SubmitDraft(f, assets), year, serial, now), EvOrder,
             SubmitText(OrderCode(year, serial), f), SubmitSeverity(f.priority), now)
  }

  /** handleSubmit; returns the order it created. */
  method HandleSubmit(store: Store, f: QuickForm, assets: seq<Asset>, year: nat, serial: nat, now: nat)
    returns (o: Order)
    requires serial < 1000
    modifies store
    ensures o == OrderOf(SubmitDraft(f, assets), OrderCode(year, serial), now)
    ensures store.Snapshot() == SubmitEffect(old(store.Snapshot()), f, assets, year, serial, now)
  {
    ghost var before := store.Snapshot();
    var asset := FindAsset(assets, f.assetId);
    var name := GENERAL_SERVICE;
    if asset.Some? && asset.value.name != "" {
      name := asset.value.name;
    }
    var draft := OrderDraft(if f.assetId == "" then None else Some(f.assetId), name,
                            f.location, f.serviceType, f.requesterName, f.technician, f.priority,
                            f.isWaitingPurchase, f.deadline, f.description, Some(Open));
    assert draft == SubmitDraft(f, assets);
    o := store.CreateOrder(draft, year, serial, now);
    assert store.Snapshot() == CreateOrder(before, draft, year, serial, now);
    var e := store.LogEvent(EvOrder, SubmitText(o.id, f), SubmitSeverity(f.priority), now);
  }

  /** A submit prepends exactly one OPEN order and logs exactly one OS event, first
      in the log, critical exactly for a critical order. */
  lemma SubmitOpensOneOrder(db: Db, f: QuickForm, assets: seq<Asset>, year: nat, serial: nat, now: nat)
    requires serial < 1000
    ensures var r := SubmitEffect(db, f, assets, year, serial, now);
      && |r.orders| == |db.orders| + 1 && r.orders[1..] == db.orders
      && r.orders[0].status == Open && r.orders[0].location == f.location
      && (r.orders[0].assetId.None? <==> f.assetId == "")
      && r.events.Some? && r.events.value[0].kind == EvOrder
      && (r.events.value[0].severity == SevCritical <==> f.priority == Top)
      && r.events.value[0].severity in {SevCritical, SevWarning}
      && r.assets == db.assets
  {
  }

  /** Picking an asset with a name and a location in the select and submitting gives
      an order for that asset, carrying its name and location. */
  lemma SelectThenSubmit(f: QuickForm, assets: seq<Asset>, k: int)
    requires 0 <= k < |assets| && DistinctKeys(assets, AssetId)
    requires assets[k].id != "" && assets[k].name != "" && assets[k].location != ""
    ensures var d := SubmitDraft(SelectAsset(f, assets, assets[k].id), assets);
      d.assetId == Some(assets[k].id) && d.assetName == assets[k].name && d.location == assets[k].location
  {
    assert forall i :: 0 <= i < k ==> AssetId(assets[i]) != AssetId(assets[k]);
  }

  /** A QR match followed by a submit links the order to the designated asset. */
  lemma QrThenSubmit(f: QuickForm, assets: seq<Asset>, code: string)
    requires FindByCode(assets, code).Some?
    ensures var g := QrMatch(f, assets, code);
      && SubmitDraft(g, assets).location == FindByCode(assets, code).value.location
      && (FindByCode(assets, code).value.id != "" ==> SubmitDraft(g, assets).assetId == Some(FindByCode(assets, code).value.id))
  {
  }
}
