/** pages/Scanner.tsx: what handleScan does with a decoded QR text. */
module ScannerPage {
  import opened Types
  import opened Text
  import opened Lists
  import opened StoreSpec
  import opened AssetLookup

  /** The page state handleScan touches. */
  datatype ScanPage = ScanPage(scanning: bool, scanned: Option<Asset>, recent: seq<Asset>)

  const RECENT_SCANS := 3

  function OtherId(id: string): Asset -> bool { (a: Asset) => a.id != id }

  /** `[asset, ...prev.filter(a => a.id !== asset.id)].slice(0, 3)`. */
  function RecentAfter(prev: seq<Asset>, a: Asset): (r: seq<Asset>)
    ensures 1 <= |r| <= RECENT_SCANS && r[0] == a
    ensures forall i :: 1 <= i < |r| ==> r[i] in prev && r[i].id != a.id
    ensures r[1..] == Take(Filter(prev, OtherId(a.id)), RECENT_SCANS - 1)
  {
    var rest := Filter(prev, OtherId(a.id));
    var all := [a] + rest;
    var r := Take(all, RECENT_SCANS);
    assert r[0] == all[0] == a;
    assert forall i :: 1 <= i < |r| ==> r[i] == all[i] == rest[i - 1] && rest[i - 1] in rest;
    assert r[1..] == all[1..|r|] == rest[..|r| - 1];
    r
  }

  /** Scanning the asset at the head of the list again leaves the list as it is. */
  lemma RescanKeepsList(prev: seq<Asset>, a: Asset)
    ensures RecentAfter(RecentAfter(prev, a), a) == RecentAfter(prev, a)
  {
    var r := RecentAfter(prev, a);
    var t := r[1..];
    assert r == [a] + t;
    FilterAppend([a], t, OtherId(a.id));
    assert Filter([a], OtherId(a.id)) == [];
    FilterAll(t, OtherId(a.id));
    assert Filter(r, OtherId(a.id)) == t;
    var r2 := RecentAfter(r, a);
    assert r2 == [a] + r2[1..];
  }

  /** Once three different assets have been scanned, the list stays full. */
  lemma RecentAfterStaysFull(prev: seq<Asset>, a: Asset)
    requires DistinctKeys(prev, AssetId) && |prev| >= RECENT_SCANS
    ensures |RecentAfter(prev, a)| == RECENT_SCANS
  {
    AtMostOneWithId(prev, a.id);
  }

  /** Filtering on one id removes at most one entry from a list without repeated ids. */
  lemma {:induction false} AtMostOneWithId(s: seq<Asset>, id: string)
    requires DistinctKeys(s, AssetId)
    ensures |Filter(s, OtherId(id))| + 1 >= |s|
  {
    if s != [] {
      assert DistinctKeys(s[1..], AssetId) by {
        forall i, j | 0 <= i < j < |s[1..]| ensures s[1..][i].id != s[1..][j].id {
          assert AssetId(s[i + 1]) != AssetId(s[j + 1]);
        }
      }
      AtMostOneWithId(s[1..], id);
      if s[0].id == id {
        forall i | 0 <= i < |s[1..]| ensures OtherId(id)(s[1..][i]) {
          assert AssetId(s[0]) != AssetId(s[i + 1]);
        }
        FilterAll(s[1..], OtherId(id));
      }
    }
  }

  /** A scan list built only by RecentAfter starting from the empty list never
      repeats an id. */
  lemma RecentAfterDistinct(prev: seq<Asset>, a: Asset)
    requires DistinctKeys(prev, AssetId)
    ensures DistinctKeys(RecentAfter(prev, a), AssetId)
  {
    var rest := Filter(prev, OtherId(a.id));
    FilterDistinct(prev, AssetId, OtherId(a.id));
    var all := [a] + rest;
    assert DistinctKeys(all, AssetId) by {
      forall i, j | 0 <= i < j < |all| ensures AssetId(all[i]) != AssetId(all[j]) {
        assert all[j] == rest[j - 1] && all[j] in rest;
        if i > 0 {
          assert all[i] == rest[i - 1];
        }
      }
    }
    var r := RecentAfter(prev, a);
    assert r == Take(all, RECENT_SCANS);
    forall i, j | 0 <= i < j < |r| ensures AssetId(r[i]) != AssetId(r[j]) {
      assert r[i] == all[i] && r[j] == all[j];
    }
  }

  function ScanText(id: string): string {
    "Ativo " + id + " reconhecido via scanner."
  }

  /** handleScan (with the timer's callback run): a matching asset is shown, the
      scanner stops, the asset heads the recent list and one info SYSTEM event is
      logged; text that designates no asset changes nothing. */
  function HandleScan(page: ScanPage, assets: seq<Asset>, db: Db, code: string, now: nat): (r: (ScanPage, Db))
    ensures FindByCode(assets, code).None? ==> r == (page, db)
    ensures FindByCode(assets, code).Some? ==>
      && !r.0.scanning && r.0.scanned.Some?
      && r.0.scanned.value in assets && ScanMatches(r.0.scanned.value, code)
      && r.0.recent == RecentAfter(page.recent, r.0.scanned.value)
      && r.1 == LogEvent(db, EvSystem, ScanText(r.0.scanned.value.id), SevInfo, now)
  {
    match FindByCode(assets, code)
    case None => (page, db)
    case Some(a) =>
      (ScanPage(false, Some(a), RecentAfter(page.recent, a)), LogEvent(db, EvSystem, ScanText(a.id), SevInfo, now))
  }

  /** A scan adds exactly one event to the log (below the cap) and the scanned
      asset is the one the label designates: it carries an id the label contains. */
  lemma ScanLogsOneEvent(page: ScanPage, assets: seq<Asset>, db: Db, code: string, now: nat)
    requires FindByCode(assets, code).Some?
    requires |StoredEvents(db, now)| < EVENT_CAP
    ensures var r := HandleScan(page, assets, db, code, now);
      && r.1.events.Some? && |r.1.events.value| == |StoredEvents(db, now)| + 1
      && r.0.scanned.Some? && (Contains(code, r.0.scanned.value.id) || r.0.scanned.value.id == code)
  {
  }
}
