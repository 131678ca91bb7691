/** Role gating: the route table with its ProtectedRoute guards (App.tsx) and the
    navigation the sidebar shows each role (components/Sidebar.tsx). */
module Access {
  import opened Types
  import opened Lists
  import opened StoreSpec

  /** A route; `guard` is the `allowedRoles` of its ProtectedRoute, `None` when the
      page is not wrapped in one. */
  datatype Route = Route(path: string, guard: Option<seq<string>>)

  /** What the router renders for a path. */
  datatype Outcome = Show(path: string) | RedirectHome

  const MANAGERS: seq<string> := [ADMIN, MANAGER]
  const EVERYONE: seq<string> := [ADMIN, MANAGER, TECHNICIAN]

  /** The `<Routes>` table, in declaration order (the `*` route is the fallback). */
  const ROUTES: seq<Route> := [
    Route("/", None),
    Route("/checklist", None),
    Route("/scanner", None),
    Route("/orders", None),
    Route("/assets", Some(MANAGERS)),
    Route("/work-schedule", Some(MANAGERS)),
    Route("/stock", Some(MANAGERS)),
    Route("/reports", Some(MANAGERS)),
    Route("/security", Some([ADMIN]))
  ]

  function RoutePath(r: Route): string { r.path }

  /** No two routes share a path. */
  lemma DistinctPaths()
    ensures forall i, j :: 0 <= i < j < |ROUTES| ==> ROUTES[i].path != ROUTES[j].path
  {
  }

  /** ProtectedRoute: the children when the role is allowed, `Navigate to "/"` otherwise. */
  function Protect(allowed: seq<string>, role: string, path: string): (r: Outcome)
    ensures r == Show(path) <==> role in allowed
    ensures r != Show(path) ==> r == RedirectHome
  {
    if role in allowed then Show(path) else RedirectHome
  }

  /** The page a path leads to for a role: the matching route, through its guard if
      it has one; an unknown path goes home. */
  function Resolve(path: string, role: string): (r: Outcome)
    ensures r.Show? ==> r.path == path
    ensures r == Show(path) <==>
      exists k :: 0 <= k < |ROUTES| && ROUTES[k].path == path
        && (ROUTES[k].guard.None? || role in ROUTES[k].guard.value)
  {
    var k := IndexOf(ROUTES, RoutePath, path);
    if k == -1 then RedirectHome
    else
      DistinctPaths();
      var route := ROUTES[k];
      match route.guard
      case None => Show(path)
      case Some(allowed) => Protect(allowed, role, path)
  }

  /** The route table in one statement: four open pages, four pages for
      administrators and managers, one for administrators only. */
  lemma {:induction false} RouteTable(path: string, role: string)
    ensures Resolve(path, role) == Show(path) <==>
      || path in ["/", "/checklist", "/scanner", "/orders"]
      || (path in ["/assets", "/work-schedule", "/stock", "/reports"] && (role == ADMIN || role == MANAGER))
      || (path == "/security" && role == ADMIN)
  {
    var k := IndexOf(ROUTES, RoutePath, path);
    if k == -1 {
      assert forall i :: 0 <= i < |ROUTES| ==> RoutePath(ROUTES[i]) != path;
      assert RoutePath(ROUTES[0]) != path && RoutePath(ROUTES[1]) != path && RoutePath(ROUTES[2]) != path;
      assert RoutePath(ROUTES[3]) != path && RoutePath(ROUTES[4]) != path && RoutePath(ROUTES[5]) != path;
      assert RoutePath(ROUTES[6]) != path && RoutePath(ROUTES[7]) != path && RoutePath(ROUTES[8]) != path;
    } else {
      assert path == ROUTES[k].path;
      assert k in {0, 1, 2, 3, 4, 5, 6, 7, 8};
    }
  }

  /** With no role stored the user is a technician, so every guarded page sends
      them home. */
  lemma NoRoleIsTechnician(db: Db, path: string)
    requires db.role == ""
    requires path in ["/assets", "/work-schedule", "/stock", "/reports", "/security"]
    ensures Resolve(path, UserRole(db)) == RedirectHome
  {
    RouteTable(path, UserRole(db));
  }

  /** One entry of the sidebar's `navItems`. */
  datatype NavItem = NavItem(name: string, path: string, roles: seq<string>)

  const NAV_ITEMS: seq<NavItem> := [
    NavItem("Dashboard", "/", EVERYONE),
    NavItem("Scanner", "/scanner", EVERYONE),
    NavItem("Checklist", "/checklist", EVERYONE),
    NavItem("Ordens", "/orders", EVERYONE),
    NavItem("Ativos", "/assets", MANAGERS),
    NavItem("Estoque", "/stock", MANAGERS),
    NavItem("Relatórios", "/reports", MANAGERS),
    NavItem("Segurança", "/security", [ADMIN])
  ]

  function VisibleTo(role: string): NavItem -> bool { (item: NavItem) => role in item.roles }

  function ItemName(item: NavItem): string { item.name }

  /** filteredItems: the items whose roles include the current role, in table order. */
  function FilteredItems(role: string): (r: seq<NavItem>)
    ensures forall item :: item in r <==> item in NAV_ITEMS && role in item.roles
  {
    Filter(NAV_ITEMS, VisibleTo(role))
  }

  function Names(items: seq<NavItem>): (r: seq<string>)
    ensures |r| == |items| && forall k :: 0 <= k < |items| ==> r[k] == items[k].name
  {
    seq(|items|, k requires 0 <= k < |items| => items[k].name)
  }

  /** Administrators see all eight items. */
  lemma AdminItems()
    ensures FilteredItems(ADMIN) == NAV_ITEMS
  {
    FilterAll(NAV_ITEMS, VisibleTo(ADMIN));
  }

  /** Managers see all but the last, Segurança. */
  lemma ManagerItems()
    ensures FilteredItems(MANAGER) == NAV_ITEMS[..7]
  {
    var m := NAV_ITEMS[..7];
    assert NAV_ITEMS == m + [NAV_ITEMS[7]];
    FilterAll(m, VisibleTo(MANAGER));
    FilterAppend(m, [NAV_ITEMS[7]], VisibleTo(MANAGER));
    FilterSingle(NAV_ITEMS[7], VisibleTo(MANAGER));
  }

  /** Technicians see the first four: Dashboard, Scanner, Checklist, Ordens. */
  lemma TechnicianItems()
    ensures FilteredItems(TECHNICIAN) == NAV_ITEMS[..4]
  {
    var t := NAV_ITEMS[..4];
    var rest := NAV_ITEMS[4..];
    assert NAV_ITEMS == t + rest;
    FilterAll(t, VisibleTo(TECHNICIAN));
    assert forall i :: 0 <= i < |rest| ==> !VisibleTo(TECHNICIAN)(rest[i]);
    CountNone(rest, VisibleTo(TECHNICIAN));
    FilterAppend(t, rest, VisibleTo(TECHNICIAN));
  }

  /** What each role sees, by name: all eight items for administrators, all but
      Segurança for managers, the four field pages for technicians. */
  lemma VisibleItems()
    ensures |FilteredItems(ADMIN)| == 8 && |FilteredItems(MANAGER)| == 7
    ensures Names(FilteredItems(MANAGER)) ==
      ["Dashboard", "Scanner", "Checklist", "Ordens", "Ativos", "Estoque", "Relatórios"]
    ensures Names(FilteredItems(TECHNICIAN)) == ["Dashboard", "Scanner", "Checklist", "Ordens"]
  {
    AdminItems();
    ManagerItems();
    TechnicianItems();
    PrefixNames();
  }

  /** The names of the first seven and the first four items. */
  lemma PrefixNames()
    ensures Names(NAV_ITEMS[..7]) == ["Dashboard", "Scanner", "Checklist", "Ordens", "Ativos", "Estoque", "Relatórios"]
    ensures Names(NAV_ITEMS[..4]) == ["Dashboard", "Scanner", "Checklist", "Ordens"]
  {
    var m := Names(NAV_ITEMS[..7]);
    assert m[0] == "Dashboard" && m[1] == "Scanner" && m[2] == "Checklist" && m[3] == "Ordens";
    assert m[4] == "Ativos" && m[5] == "Estoque" && m[6] == "Relatórios";
    var t := Names(NAV_ITEMS[..4]);
    assert t[0] == "Dashboard" && t[1] == "Scanner" && t[2] == "Checklist" && t[3] == "Ordens";
  }

  const MOBILE_SLOTS := 4

  /** The mobile bar: the first four visible items. */
  function MobileBar(role: string): (r: seq<NavItem>)
    ensures |r| <= MOBILE_SLOTS && r <= FilteredItems(role)
    ensures |FilteredItems(role)| <= MOBILE_SLOTS ==> r == FilteredItems(role)
  {
    Take(FilteredItems(role), MOBILE_SLOTS)
  }

  /** On the mobile bar every role sees the same four field pages, so the manager
      pages are reachable there only by address. */
  lemma MobileBarSame(role: string)
    requires role in EVERYONE
    ensures Names(MobileBar(role)) == ["Dashboard", "Scanner", "Checklist", "Ordens"]
  {
    var f := FilteredItems(role);
    if role == ADMIN {
      AdminItems();
      assert f[..4] == NAV_ITEMS[..4];
    } else if role == MANAGER {
      ManagerItems();
      assert f[..4] == NAV_ITEMS[..4];
    } else {
      TechnicianItems();
    }
    assert MobileBar(role) == NAV_ITEMS[..4];
    PrefixNames();
  }

  /** The sidebar never offers a page its route would refuse: for every role the
      three known ones, an item is shown exactly when its route renders. */
  lemma NavAgreesWithRoutes(role: string, item: NavItem)
    requires role in EVERYONE && item in NAV_ITEMS
    ensures item in FilteredItems(role) <==> Resolve(item.path, role) == Show(item.path)
  {
    RouteTable(item.path, role);
    var i :| 0 <= i < |NAV_ITEMS| && NAV_ITEMS[i] == item;
    NavItemAgrees(role, i);
  }

  /** One item of the table at a time. */
  lemma NavItemAgrees(role: string, i: int)
    requires role in EVERYONE && 0 <= i < |NAV_ITEMS|
    ensures var item := NAV_ITEMS[i];
      role in item.roles <==>
        || item.path in ["/", "/checklist", "/scanner", "/orders"]
        || (item.path in ["/assets", "/work-schedule", "/stock", "/reports"] && (role == ADMIN || role == MANAGER))
        || (item.path == "/security" && role == ADMIN)
  {
    assert i in {0, 1, 2, 3, 4, 5, 6, 7};
  }

  /** The pending badge and the queue line: shown, with the count, exactly when
      something is queued. */
  function QueueNotice(pending: nat): (r: Option<nat>)
    ensures r.Some? <==> pending > 0
    ensures r.Some? ==> r.value == pending
  {
    if pending > 0 then Some(pending) else None
  }

  /** Reconnecting clears the badge. */
  lemma ReconnectClearsBadge(db: Db, now: int)
    ensures QueueNotice(SyncQueueCount(Reconnect(db, now))).None?
  {
  }

  /** Each change made offline shows in the badge. */
  lemma OfflineChangeShows(db: Db, kind: string, data: Payload, now: int)
    requires !db.online
    ensures QueueNotice(SyncQueueCount(Push(db, kind, data, now))) == Some(|db.queue| + 1)
  {
  }
}
