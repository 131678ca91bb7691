/** The two asset lookups the views share: `assets.find(a => a.id === id)` (the
    manual selection in components/OSQuickForm.tsx and components/WorkScheduleForm.tsx)
    and the QR rule `assets.find(a => a.id === code || code.includes(a.id))`
    (pages/Scanner.tsx and the scanner inside components/OSQuickForm.tsx). */
module AssetLookup {
  import opened Types
  import opened Text
  import opened Lists
  import opened StoreSpec

  /** `assets.find(a => a.id === id)`. */
  function FindAsset(assets: seq<Asset>, id: string): (r: Option<Asset>)
    ensures r.None? <==> forall i :: 0 <= i < |assets| ==> assets[i].id != id
    ensures r.Some? ==> r.value in assets && r.value.id == id
    ensures r.Some? ==> r.value == assets[IndexOf(assets, AssetId, id)]
  {
    var i := IndexOf(assets, AssetId, id);
    if i == -1 then None else Some(assets[i])
  }

  /** The QR rule: the asset's id is the scanned text or occurs inside it. */
  predicate ScanMatches(a: Asset, code: string) {
    a.id == code || Contains(code, a.id)
  }

  /** The position of the first asset the scanned text designates, or -1. */
  function ScanIndex(assets: seq<Asset>, code: string): (r: int)
    ensures -1 <= r < |assets|
    ensures r == -1 <==> forall i :: 0 <= i < |assets| ==> !ScanMatches(assets[i], code)
    ensures 0 <= r ==> ScanMatches(assets[r], code) && forall i :: 0 <= i < r ==> !ScanMatches(assets[i], code)
    decreases |assets|
  {
    if assets == [] then -1
    else if ScanMatches(assets[0], code) then 0
    else
      var r := ScanIndex(assets[1..], code);
      if r == -1 then -1 else r + 1
  }

  /** The asset the scanned text designates: the first that matches. */
  function FindByCode(assets: seq<Asset>, code: string): (r: Option<Asset>)
    ensures r.None? <==> ScanIndex(assets, code) == -1
    ensures r.Some? ==> r.value == assets[ScanIndex(assets, code)] && ScanMatches(r.value, code)
  {
    var i := ScanIndex(assets, code);
    if i == -1 then None else Some(assets[i])
  }

  /** A label holding just an asset's id always finds an asset: that one, or an
      earlier one whose id occurs inside the label. */
  lemma ExactIdIsFound(assets: seq<Asset>, k: int)
    requires 0 <= k < |assets|
    ensures FindByCode(assets, assets[k].id).Some?
  {
    assert ScanMatches(assets[k], assets[k].id);
  }

  /** Containment lets a shorter id shadow a longer one: with AST-1 listed before
      AST-12, the label AST-12 designates AST-1. */
  lemma ShorterIdShadows(a1: Asset, a12: Asset)
    requires a1.id == "AST-1" && a12.id == "AST-12"
    ensures FindByCode([a1, a12], "AST-12") == Some(a1)
  {
    assert "AST-1" <= "AST-12";
    assert ScanMatches(a1, "AST-12");
  }
}
