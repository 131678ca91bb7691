/** pages/Assets.tsx: the fuzzy search, the day-count classifiers, the filtered
    list and the two handlers that write to the store. */
module AssetsPage {
  import opened Types
  import opened Text
  import opened Lists
  import opened StoreSpec
  import opened Storage

  // ------------------------------------------------------------- fuzzy search

  /** The scan of fuzzyMatch's second step: each character of `t` is read once,
      and the next query character is consumed when it equals it. */
  function Greedy(q: string, t: string): bool
    decreases |t|
  {
    if q == [] then true
    else if t == [] then false
    else if q[0] == t[0] then Greedy(q[1..], t[1..])
    else Greedy(q, t[1..])
  }

  /** `idx` places the characters of `q` at strictly increasing positions of `t`. */
  ghost predicate Embedding(q: string, t: string, idx: seq<int>) {
    && |idx| == |q|
    && (forall k :: 0 <= k < |idx| ==> 0 <= idx[k] < |t| && t[idx[k]] == q[k])
    && (forall k :: 0 < k < |idx| ==> idx[k - 1] < idx[k])
  }

  /** `q` is an in-order subsequence of `t`, gaps allowed. */
  ghost predicate IsSubsequence(q: string, t: string) {
    exists idx :: Embedding(q, t, idx)
  }

  lemma {:induction false} GreedySound(q: string, t: string)
    requires Greedy(q, t)
    ensures IsSubsequence(q, t)
    decreases |t|
  {
    if q == [] {
      assert Embedding(q, t, []);
    } else if q[0] == t[0] {
      GreedySound(q[1..], t[1..]);
      var tail :| Embedding(q[1..], t[1..], tail);
      var idx := seq(|q|, k requires 0 <= k < |q| => if k == 0 then 0 else tail[k - 1] + 1);
      assert Embedding(q, t, idx) by {
        forall k | 0 < k < |idx| ensures t[idx[k]] == q[k] {
          assert t[1..][tail[k - 1]] == q[1..][k - 1];
        }
      }
    } else {
      GreedySound(q, t[1..]);
      var tail :| Embedding(q, t[1..], tail);
      var idx := seq(|q|, k requires 0 <= k < |q| => tail[k] + 1);
      assert Embedding(q, t, idx) by {
        forall k | 0 <= k < |idx| ensures t[idx[k]] == q[k] {
          assert t[1..][tail[k]] == q[k];
        }
      }
    }
  }

  lemma {:induction false} GreedyComplete(q: string, t: string, idx: seq<int>)
    requires Embedding(q, t, idx)
    ensures Greedy(q, t)
    decreases |t|
  {
    if q != [] {
      assert 0 <= idx[0] < |t|;
      if q[0] == t[0] {
        var tail := seq(|q| - 1, k requires 0 <= k < |q| - 1 => idx[k + 1] - 1);
        assert Embedding(q[1..], t[1..], tail) by {
          forall k | 0 <= k < |tail| ensures 0 <= tail[k] < |t| - 1 && t[1..][tail[k]] == q[1..][k] {
            assert idx[0] < idx[k + 1] by { IncreasingFrom(idx, 0, k + 1); }
          }
        }
        GreedyComplete(q[1..], t[1..], tail);
      } else {
        assert idx[0] != 0;
        var tail := seq(|q|, k requires 0 <= k < |q| => idx[k] - 1);
        assert Embedding(q, t[1..], tail) by {
          forall k | 0 <= k < |tail| ensures 0 <= tail[k] < |t| - 1 && t[1..][tail[k]] == q[k] {
            if k > 0 {
              assert idx[0] < idx[k] by { IncreasingFrom(idx, 0, k); }
            }
          }
        }
        GreedyComplete(q, t[1..], tail);
      }
    }
  }

  lemma {:induction false} IncreasingFrom(idx: seq<int>, i: int, j: int)
    requires 0 <= i < j < |idx|
    requires forall k :: 0 < k < |idx| ==> idx[k - 1] < idx[k]
    ensures idx[i] < idx[j]
    decreases j - i
  {
    if j > i + 1 {
      IncreasingFrom(idx, i, j - 1);
    }
  }

  /** The greedy scan succeeds exactly on subsequences. */
  lemma GreedyIffSubsequence(q: string, t: string)
    ensures Greedy(q, t) <==> IsSubsequence(q, t)
  {
    if Greedy(q, t) {
      GreedySound(q, t);
    }
    if IsSubsequence(q, t) {
      var idx :| Embedding(q, t, idx);
      GreedyComplete(q, t, idx);
    }
  }

  /** A substring is also a subsequence. */
  lemma ContainsIsSubsequence(t: string, q: string)
    requires Contains(t, q)
    ensures IsSubsequence(q, t)
  {
    ContainsIffOccurs(t, q);
    var k :| OccursAt(t, q, k);
    var idx := seq(|q|, i requires 0 <= i < |q| => k + i);
    assert Embedding(q, t, idx) by {
      forall i | 0 <= i < |q| ensures t[idx[i]] == q[i] {
        assert t[k..k + |q|][i] == t[k + i];
      }
    }
  }

  /** The query fuzzyMatch compares: lowercased, with every whitespace removed. */
  function SearchKey(query: string): string {
    StripSpaces(ToLower(query))
  }

  /** Every whitespace-separated word of the lowercased query occurs in `t`, and
      there are at least two of them. */
  predicate AllWordsIn(query: string, t: string) {
    var ws := Words(ToLower(query));
    |ws| > 1 && forall w :: w in ws ==> Contains(t, w)
  }

  /** fuzzyMatch: substring, then subsequence, then the multi-word fallback. */
  predicate Fuzzy(query: string, target: string) {
    var q := SearchKey(query);
    var t := ToLower(target);
    Contains(t, q) || Greedy(q, t) || AllWordsIn(query, t)
  }

  /** fuzzyMatch as written: an early return per step and the index-walking loop. */
  method FuzzyMatch(query: string, target: string) returns (m: bool)
    ensures m == Fuzzy(query, target)
  {
    var q := StripSpaces(ToLower(query));
    var t := ToLower(target);
    if Contains(t, q) {
      return true;
    }
    var qIdx, tIdx := 0, 0;
    while qIdx < |q| && tIdx < |t|
      invariant 0 <= qIdx <= |q| && 0 <= tIdx <= |t|
      invariant Greedy(q, t) == Greedy(q[qIdx..], t[tIdx..])
    {
      if q[qIdx] == t[tIdx] {
        qIdx := qIdx + 1;
      }
      tIdx := tIdx + 1;
    }
    if qIdx == |q| {
      return true;
    }
    var words := Words(ToLower(query));
    if |words| > 1 {
      return forall w :: w in words ==> Contains(t, w);
    }
    return false;
  }

  /** A query that is empty or all whitespace matches every target. */
  lemma BlankQueryMatches(query: string, target: string)
    requires forall c :: c in query ==> IsSpace(c)
    ensures Fuzzy(query, target)
  {
    var lq := ToLower(query);
    forall i | 0 <= i < |lq| ensures IsSpace(lq[i]) {
      assert query[i] in query;
      LowerKeepsSpaces(query[i]);
    }
    StripSpacesOfBlank(lq);
    ContainsEmpty(ToLower(target));
  }

  /** The search reduces to: the lowercased, space-free query is an in-order
      subsequence of the lowercased target, or the query has two or more words
      that all occur in the target. */
  lemma FuzzyCharacterization(query: string, target: string)
    ensures Fuzzy(query, target) <==>
      IsSubsequence(SearchKey(query), ToLower(target)) || AllWordsIn(query, ToLower(target))
  {
    var q, t := SearchKey(query), ToLower(target);
    GreedyIffSubsequence(q, t);
    if Contains(t, q) {
      ContainsIsSubsequence(t, q);
    }
  }

  /** A one-word query that is not a subsequence of the target does not match. */
  lemma SingleWordNeedsSubsequence(query: string, target: string)
    requires |Words(ToLower(query))| <= 1
    requires !IsSubsequence(SearchKey(query), ToLower(target))
    ensures !Fuzzy(query, target)
  {
    FuzzyCharacterization(query, target);
  }

  lemma LowerMonitor()
    ensures ToLower("Monitor") == "monitor"
  {
    var t := ToLower("Monitor");
    assert t[0] == Lower('M') == 'm';
    forall i | 1 <= i < 7 ensures t[i] == "monitor"[i] {
      assert !IsUpper("Monitor"[i]);
    }
  }

  lemma KeyMnt()
    ensures SearchKey("mnt") == "mnt"
  {
    var q := ToLower("mnt");
    forall i | 0 <= i < 3 ensures q[i] == "mnt"[i] {
      assert !IsUpper("mnt"[i]);
    }
    assert q == "mnt";
    assert StripSpaces(q) == "mnt";
  }

  /** "mnt" finds "Monitor". */
  lemma AbbreviationExample()
    ensures Fuzzy("mnt", "Monitor")
  {
    LowerMonitor();
    KeyMnt();
    assert Greedy("t", "tor");
    assert Greedy("t", "itor");
    assert Greedy("nt", "nitor");
    assert Greedy("nt", "onitor");
    assert Greedy("mnt", "monitor");
  }

  // ------------------------------------------------------- day-count classifiers

  /** Milliseconds per day. */
  const DAY_MS: int := 86400000

  /** `Math.ceil(a / b)` for a positive divisor. */
  function CeilDiv(a: int, b: int): (r: int)
    requires b > 0
    ensures (r - 1) * b < a <= r * b
  {
    var q := (-a) / b;
    assert -a == b * q + (-a) % b;
    -q
  }

  function Abs(x: int): nat {
    if x < 0 then -x else x
  }

  /** `Math.ceil((day - now) / DAY_MS)`: whole days from the clock to midnight of
      `day` (days since the epoch), rounded up. */
  function DaysUntil(day: int, now: int): int {
    CeilDiv(day * DAY_MS - now, DAY_MS)
  }

  /** `Math.ceil(Math.abs(now - day) / DAY_MS)`: whole days between the clock and
      `day`, in either direction, rounded up. */
  function DaysApart(day: int, now: int): nat {
    var d := CeilDiv(Abs(now - day * DAY_MS), DAY_MS);
    assert d >= 0;
    d
  }

  datatype HealthGrade = HealthGrade(title: string, score: int)

  /** calculateHealth. */
  function CalculateHealth(lastMaintenance: int, now: int): (h: HealthGrade)
    ensures h.score in {20, 60, 95}
  {
    var diff := DaysApart(lastMaintenance, now);
    if diff > 180 then HealthGrade("Risco Alto", 20)
    else if diff > 90 then HealthGrade("Risco Médio", 60)
    else HealthGrade("Saudável", 95)
  }

  /** The score bands: beyond 180 days 20, beyond 90 days 60, otherwise 95. */
  lemma HealthBands(lastMaintenance: int, now: int)
    ensures var h := CalculateHealth(lastMaintenance, now);
      var diff := DaysApart(lastMaintenance, now);
      && (h.score == 20 <==> diff > 180)
      && (h.score == 60 <==> 90 < diff <= 180)
      && (h.score == 95 <==> diff <= 90)
  {
  }

  /** The grade depends on the distance only: a date as far in the future as
      another is in the past grades the same. */
  lemma HealthSymmetric(past: int, future: int, now: int)
    requires now - past * DAY_MS == future * DAY_MS - now
    ensures CalculateHealth(past, now) == CalculateHealth(future, now)
  {
  }

  /** A maintenance further away never grades better. */
  lemma HealthMonotone(near: int, far: int, now: int)
    requires Abs(now - near * DAY_MS) <= Abs(now - far * DAY_MS)
    ensures CalculateHealth(far, now).score <= CalculateHealth(near, now).score
  {
  }

  datatype MaintenanceAlert = Overdue | Urgent | Upcoming

  /** checkMaintenanceAlert: ATRASADO, URGENTE, PRÓXIMO or none. */
  function CheckMaintenanceAlert(nextMaintenance: int, now: int): (r: Option<MaintenanceAlert>)
    ensures r == Some(Overdue) <==> DaysUntil(nextMaintenance, now) < 0
    ensures r == Some(Urgent) <==> 0 <= DaysUntil(nextMaintenance, now) <= 7
    ensures r == Some(Upcoming) <==> 8 <= DaysUntil(nextMaintenance, now) <= 30
    ensures r.None? <==> DaysUntil(nextMaintenance, now) > 30
  {
    var diff := DaysUntil(nextMaintenance, now);
    if diff < 0 then Some(Overdue)
    else if diff <= 7 then Some(Urgent)
    else if diff <= 30 then Some(Upcoming)
    else None
  }

  /** Label of each alert as shown. */
  function AlertLabel(a: MaintenanceAlert): string {
    match a
    case Overdue => "ATRASADO"
    case Urgent => "URGENTE"
    case Upcoming => "PRÓXIMO"
  }

  // ------------------------------------------------------------- filtered list

  /** The filter test: an empty filter keeps everything; otherwise fuzzy on
      name, id, location or manufacturer (a missing manufacturer is ''). */
  function MatchesFilter(filter: string): Asset -> bool {
    (a: Asset) => filter == "" || Fuzzy(filter, a.name) || Fuzzy(filter, a.id)
      || Fuzzy(filter, a.location) || Fuzzy(filter, a.manufacturer.GetOr(""))
  }

  /** filteredAssets. */
  function FilteredAssets(view: seq<Asset>, filter: string): (r: seq<Asset>)
    ensures forall a :: a in r <==> (a in view &&
      (filter == "" || Fuzzy(filter, a.name) || Fuzzy(filter, a.id)
        || Fuzzy(filter, a.location) || Fuzzy(filter, a.manufacturer.GetOr(""))))
    ensures filter == "" ==> r == view
  {
    if filter == "" then
      FilterAll(view, MatchesFilter(filter));
      Filter(view, MatchesFilter(filter))
    else Filter(view, MatchesFilter(filter))
  }

  // ---------------------------------------------------------- update handler

  /** `{ ...a, [field]: value }` for each field the table edits. */
  datatype AssetEdit =
    | SetName(name: string)
    | SetCategory(category: string)
    | SetLocation(location: string)
    | SetManufacturer(manufacturer: string)
    | SetModel(model: string)
    | SetSerialNumber(serialNumber: string)
    | SetWarrantyUntil(warrantyUntil: string)
    | SetLastMaintenance(lastDay: int)
    | SetNextMaintenance(nextDay: int)
    | SetStatus(status: AssetStatus)

  /** The edited copy: the named field takes the value, every other field stays. */
  function ApplyEdit(a: Asset, e: AssetEdit): (r: Asset)
    ensures r.id == a.id
    ensures e.SetStatus? ==> r == a.(status := e.status)
    ensures e.SetNextMaintenance? ==> r == a.(nextMaintenance := e.nextDay)
    ensures e.SetLastMaintenance? ==> r == a.(lastMaintenance := e.lastDay)
    ensures e.SetName? ==> r == a.(name := e.name)
    ensures e.SetLocation? ==> r == a.(location := e.location)
    ensures e.SetCategory? ==> r == a.(category := e.category)
    ensures e.SetManufacturer? ==> r == a.(manufacturer := Some(e.manufacturer))
    ensures e.SetModel? ==> r == a.(model := e.model)
    ensures e.SetSerialNumber? ==> r == a.(serialNumber := e.serialNumber)
    ensures e.SetWarrantyUntil? ==> r == a.(warrantyUntil := e.warrantyUntil)
  {
    match e
    case SetName(v) => a.(name := v)
    case SetCategory(v) => a.(category := v)
    case SetLocation(v) => a.(location := v)
    case SetManufacturer(v) => a.(manufacturer := Some(v))
    case SetModel(v) => a.(model := v)
    case SetSerialNumber(v) => a.(serialNumber := v)
    case SetWarrantyUntil(v) => a.(warrantyUntil := v)
    case SetLastMaintenance(v) => a.(lastMaintenance := v)
    case SetNextMaintenance(v) => a.(nextMaintenance := v)
    case SetStatus(v) => a.(status := v)
  }

  function CriticalAlertText(name: string): string {
    "Alerta: O ativo " + name + " foi marcado como crítico. Verifique o painel de ordens de serviço."
  }

  /** `dateText` is the browser's `toLocaleDateString` of the new date. */
  function MaintenanceSoonText(name: string, dateText: string): string {
    "Manutenção programada para " + name + " está próxima: dia " + dateText + "."
  }

  /** The store effect of one row of handleUpdateAsset: rows with another id do
      nothing; the matching row saves its edited copy, then logs a critical
      ALERT when marked CRITICAL, or a warning ALERT when its next maintenance
      is moved to 0..7 days ahead. */
  function UpdateRow(db: Db, a: Asset, id: string, e: AssetEdit, dateText: string, now: nat): Db {
    if a.id != id then db
    else
      var d1 := SaveAsset(db, ApplyEdit(a, e), now);
      var d2 := if e.SetStatus? && e.status == Critical
                then LogEvent(d1, EvAlert, CriticalAlertText(a.name), SevCritical, now) else d1;
      if e.SetNextMaintenance? && 0 <= DaysUntil(e.nextDay, now) <= 7
      then LogEvent(d2, EvAlert, MaintenanceSoonText(a.name, dateText), SevWarning, now)
      else d2
  }

  function UpdateStep(id: string, e: AssetEdit, dateText: string, now: nat): (Db, Asset) -> Db {
    (db: Db, a: Asset) => UpdateRow(db, a, id, e, dateText, now)
  }

  /** The new view list: every row with the id is replaced by its edited copy. */
  function UpdatedView(view: seq<Asset>, id: string, e: AssetEdit): (r: seq<Asset>)
    ensures |r| == |view|
    ensures forall i :: 0 <= i < |view| ==>
      r[i] == if view[i].id == id then ApplyEdit(view[i], e) else view[i]
  {
    if view == [] then []
    else
      var last := view[|view| - 1];
      UpdatedView(view[..|view| - 1], id, e) + [if last.id == id then ApplyEdit(last, e) else last]
  }

  /** One row of handleUpdateAsset's `map`: returns the row as the new view shows it. */
  method UpdateOneRow(store: Store, a: Asset, id: string, e: AssetEdit, dateText: string, now: nat)
    returns (row: Asset)
    modifies store
    ensures row == if a.id == id then ApplyEdit(a, e) else a
    ensures store.Snapshot() == UpdateRow(old(store.Snapshot()), a, id, e, dateText, now)
  {
    if a.id != id {
      return a;
    }
    row := ApplyEdit(a, e);
    store.SaveAsset(row, now);
    if e.SetStatus? && e.status == Critical {
      var ev := store.LogEvent(EvAlert, CriticalAlertText(a.name), SevCritical, now);
    }
    if e.SetNextMaintenance? {
      var diffDays := DaysUntil(e.nextDay, now);
      if diffDays <= 7 && diffDays >= 0 {
        var ev := store.LogEvent(EvAlert, MaintenanceSoonText(a.name, dateText), SevWarning, now);
      }
    }
  }

  /** handleUpdateAsset. */
  method HandleUpdateAsset(store: Store, view: seq<Asset>, id: string, e: AssetEdit,
                           dateText: string, now: nat) returns (next: seq<Asset>)
    modifies store
    ensures next == UpdatedView(view, id, e)
    ensures store.Snapshot() == Replay(old(store.Snapshot()), view, UpdateStep(id, e, dateText, now))
  {
    next := [];
    for k := 0 to |view|
      invariant next == UpdatedView(view[..k], id, e)
      invariant store.Snapshot() == Replay(old(store.Snapshot()), view[..k], UpdateStep(id, e, dateText, now))
    {
      assert view[..k + 1][..k] == view[..k];
      var row := UpdateOneRow(store, view[k], id, e, dateText, now);
      next := next + [row];
    }
    assert view[..|view|] == view;
  }

  /** With the id on exactly one row, marking it CRITICAL saves the change and logs
      exactly one critical ALERT naming the asset. */
  lemma MarkCriticalLogsOneAlert(db: Db, view: seq<Asset>, k: int, dateText: string, now: nat)
    requires 0 <= k < |view|
    requires forall j :: 0 <= j < |view| && j != k ==> view[j].id != view[k].id
    ensures var r := Replay(db, view, UpdateStep(view[k].id, SetStatus(Critical), dateText, now));
      var saved := SaveAsset(db, view[k].(status := Critical), now);
      r == LogEvent(saved, EvAlert, CriticalAlertText(view[k].name), SevCritical, now)
  {
    ReplaySingle(db, view, UpdateStep(view[k].id, SetStatus(Critical), dateText, now), k);
  }

  /** With the id on exactly one row, moving its next maintenance logs a warning
      exactly when the new date raises the URGENTE alert, and nothing else. */
  lemma RescheduleWarnsWhenUrgent(db: Db, view: seq<Asset>, k: int, day: int, dateText: string, now: nat)
    requires 0 <= k < |view|
    requires forall j :: 0 <= j < |view| && j != k ==> view[j].id != view[k].id
    ensures var r := Replay(db, view, UpdateStep(view[k].id, SetNextMaintenance(day), dateText, now));
      var saved := SaveAsset(db, view[k].(nextMaintenance := day), now);
      && (CheckMaintenanceAlert(day, now) == Some(Urgent) ==>
            r == LogEvent(saved, EvAlert, MaintenanceSoonText(view[k].name, dateText), SevWarning, now))
      && (CheckMaintenanceAlert(day, now) != Some(Urgent) ==> r == saved)
  {
    ReplaySingle(db, view, UpdateStep(view[k].id, SetNextMaintenance(day), dateText, now), k);
  }

  /** Other edits only save the asset. */
  lemma PlainEditOnlySaves(db: Db, view: seq<Asset>, k: int, e: AssetEdit, dateText: string, now: nat)
    requires 0 <= k < |view|
    requires forall j :: 0 <= j < |view| && j != k ==> view[j].id != view[k].id
    requires !e.SetNextMaintenance? && !(e.SetStatus? && e.status == Critical)
    ensures Replay(db, view, UpdateStep(view[k].id, e, dateText, now)) == SaveAsset(db, ApplyEdit(view[k], e), now)
  {
    ReplaySingle(db, view, UpdateStep(view[k].id, e, dateText, now), k);
  }

  /** An id on no row changes nothing in the store. */
  lemma UnknownIdNoEffect(db: Db, view: seq<Asset>, id: string, e: AssetEdit, dateText: string, now: nat)
    requires forall j :: 0 <= j < |view| ==> view[j].id != id
    ensures Replay(db, view, UpdateStep(id, e, dateText, now)) == db
    ensures UpdatedView(view, id, e) == view
  {
    ReplayNone(db, view, UpdateStep(id, e, dateText, now));
  }

  // ---------------------------------------------------------- create handler

  /** handleCreateAsset: without a name or a location nothing is created;
      otherwise the store adds the asset and the view shows it first. */
  method HandleCreateAsset(store: Store, view: seq<Asset>, draft: Asset, code: string,
                           today: int, now: int) returns (next: seq<Asset>)
    modifies store
    ensures draft.name == "" || draft.location == "" ==>
      next == view && store.Snapshot() == old(store.Snapshot())
    ensures draft.name != "" && draft.location != "" ==>
      && next == [draft.(id := "AST-" + code)] + view
      && store.Snapshot() == AddAsset(old(store.Snapshot()), draft, code, today, now)
  {
    if draft.name == "" || draft.location == "" {
      return view;
    }
    var created := store.AddAsset(draft, code, today, now);
    next := [created] + view;
  }
}
