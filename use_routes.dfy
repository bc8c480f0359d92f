/**
 * The menu and lookup derivations of the `useRoutes` hook (src/hooks/useRoutes.ts):
 * `generateMenuData` turns the registry's menu-ordered configurations into menu
 * items, and `getRouteByPath` finds a flattened route by its full path. Both
 * are pure functions of the registry's `getMenuRoutes` and `getAllRoutes`
 * results, which are their parameters here.
 */
module UseRoutes {
  import opened Wrappers
  import opened RouteTypes
  import opened StableSort
  import opened JsString

  /** A sub-menu entry: a child route's title and full path. */
  datatype SubItem = SubItem(title: string, path: string)

  /**
   * A menu entry; `itemLabel` is the source's `label`. `subItems` is absent when
   * the main route has no `children` property.
   */
  datatype MenuItem = MenuItem(itemLabel: string, path: string, subItems: Option<seq<SubItem>>)

  /** `routes.find(route => route.showInMenu)`. */
  function FirstMenuRoute(routes: seq<Route>): (r: Option<Route>)
    ensures r.None? <==> forall i :: 0 <= i < |routes| ==> !routes[i].showInMenu
    ensures r.Some? ==> r.value in routes && r.value.showInMenu
  {
    if routes == [] then None
    else if routes[0].showInMenu then Some(routes[0])
    else
      assert forall i :: 1 <= i < |routes| ==> routes[i] == routes[1..][i - 1];
      FirstMenuRoute(routes[1..])
  }

  /** The route found is the first shown one. */
  lemma {:induction false} FirstMenuRouteAt(routes: seq<Route>, i: nat)
    requires i < |routes| && routes[i].showInMenu
    requires forall j :: 0 <= j < i ==> !routes[j].showInMenu
    ensures FirstMenuRoute(routes) == Some(routes[i])
  {
    if i > 0 {
      assert routes[1..][i - 1] == routes[i];
      forall j | 0 <= j < i - 1 ensures !routes[1..][j].showInMenu {
        assert routes[1..][j] == routes[j + 1];
      }
      FirstMenuRouteAt(routes[1..], i - 1);
    }
  }

  /** `module.routes.some(route => route.showInMenu)`. */
  predicate InMenu(m: ModuleConfig) {
    exists i :: 0 <= i < |m.routes| && m.routes[i].showInMenu
  }

  /** `children.filter(child => child.showInMenu)`. */
  function ShownChildren(cs: seq<Route>): (r: seq<Route>)
    ensures forall c :: c in r <==> c in cs && c.showInMenu
  {
    if cs == [] then []
    else (if cs[0].showInMenu then [cs[0]] else []) + ShownChildren(cs[1..])
  }

  /** The filter works piecewise: the kept children of a concatenation, in their order. */
  lemma {:induction false} ShownChildrenConcat(a: seq<Route>, b: seq<Route>)
    ensures ShownChildren(a + b) == ShownChildren(a) + ShownChildren(b)
  {
    if a == [] {
      assert a + b == b;
    } else {
      assert (a + b)[0] == a[0];
      assert (a + b)[1..] == a[1..] + b;
      ShownChildrenConcat(a[1..], b);
    }
  }

  /** A single child is kept exactly when it is shown. */
  lemma ShownChildrenOne(c: Route)
    ensures ShownChildren([c]) == if c.showInMenu then [c] else []
  {
    assert [c][1..] == [];
  }

  /** The label: the group label, else the main route's title, else "Unknown" (empty strings count as missing). */
  function ItemLabel(m: ModuleConfig, main: Option<Route>): (r: string)
    ensures r != ""
  {
    if m.menuGroup.Some? && m.menuGroup.value.groupLabel != "" then m.menuGroup.value.groupLabel
    else if main.Some? && main.value.title != "" then main.value.title
    else "Unknown"
  }

  /**
   * The sub-menu entries of the main route: its shown children by menu order,
   * one entry per shown child, each under the main route's full path.
   */
  function SubItemsOf(m: ModuleConfig, main: Route): (r: seq<SubItem>)
    ensures |r| == |ShownChildren(main.children)|
    ensures forall k :: 0 <= k < |r| ==>
      exists c :: c in main.children && c.showInMenu && r[k] == SubItem(c.title, m.basePath + main.path + c.path)
    ensures forall k :: 0 <= k < |r| ==> StartsWith(r[k].path, m.basePath + main.path)
  {
    var shown := ShownChildren(main.children);
    var sorted := SortBy(shown, RouteOrder);
    assert |sorted| == |shown| && forall k :: 0 <= k < |sorted| ==> sorted[k] in shown by {
      SortByPermutes(shown, RouteOrder);
      forall k | 0 <= k < |sorted| ensures sorted[k] in shown {
        assert sorted[k] in multiset(sorted);
      }
    }
    var r := seq(|sorted|, i requires 0 <= i < |sorted| =>
      SubItem(sorted[i].title, m.basePath + main.path + sorted[i].path));
    assert forall k :: 0 <= k < |r| ==> StartsWith(r[k].path, m.basePath + main.path) by {
      forall k | 0 <= k < |r| ensures StartsWith(r[k].path, m.basePath + main.path) {
        assert r[k].path == (m.basePath + main.path) + sorted[k].path;
      }
    }
    r
  }

  /**
   * The menu entry of one module, built around its first shown route: a
   * non-empty label, a path under the module's base path, and sub-entries only
   * for a module with a shown route, each under the entry's own path.
   */
  function ModuleItem(m: ModuleConfig): (r: MenuItem)
    ensures r.itemLabel != ""
    ensures StartsWith(r.path, m.basePath)
    ensures r.subItems.Some? ==>
      && InMenu(m)
      && forall k :: 0 <= k < |r.subItems.value| ==> StartsWith(r.subItems.value[k].path, r.path)
  {
    var main := FirstMenuRoute(m.routes);
    var path := m.basePath + (if main.Some? then main.value.path else "");
    assert StartsWith(path, m.basePath);
    MenuItem(
      ItemLabel(m, main),
      path,
      if main.Some? && main.value.hasChildren then Some(SubItemsOf(m, main.value)) else None)
  }

  /**
   * The entries of the modules that have a shown route, in the given order:
   * exactly those modules contribute an entry, each its own.
   */
  function Items(ms: seq<ModuleConfig>): (r: seq<MenuItem>)
    ensures |r| <= |ms|
    ensures forall it :: it in r ==> exists m :: m in ms && InMenu(m) && it == ModuleItem(m)
    ensures forall m :: m in ms && InMenu(m) ==> ModuleItem(m) in r
  {
    if ms == [] then []
    else
      var rest := Items(ms[1..]);
      assert forall m :: m in ms ==> m == ms[0] || m in ms[1..];
      assert forall m :: m in ms[1..] ==> m in ms;
      (if InMenu(ms[0]) then [ModuleItem(ms[0])] else []) + rest
  }

  /** The first module whose group label is `name`. */
  function FindGroup(ms: seq<ModuleConfig>, name: string): (r: Option<ModuleConfig>)
    ensures r.Some? ==> r.value in ms && r.value.menuGroup.Some? && r.value.menuGroup.value.groupLabel == name
    ensures r.None? <==> forall i :: 0 <= i < |ms| ==> ms[i].menuGroup.None? || ms[i].menuGroup.value.groupLabel != name
  {
    if ms == [] then None
    else if ms[0].menuGroup.Some? && ms[0].menuGroup.value.groupLabel == name then Some(ms[0])
    else
      assert forall i :: 1 <= i < |ms| ==> ms[i] == ms[1..][i - 1];
      FindGroup(ms[1..], name)
  }

  /** The module filter and map work piecewise: the entries of a concatenation, in module order. */
  lemma {:induction false} ItemsConcat(a: seq<ModuleConfig>, b: seq<ModuleConfig>)
    ensures Items(a + b) == Items(a) + Items(b)
  {
    if a == [] {
      assert a + b == b;
    } else {
      assert (a + b)[0] == a[0];
      assert (a + b)[1..] == a[1..] + b;
      ItemsConcat(a[1..], b);
    }
  }

  /** A single module gives its own entry exactly when it has a shown route, and nothing otherwise. */
  lemma ItemsOne(m: ModuleConfig)
    ensures Items([m]) == if InMenu(m) then [ModuleItem(m)] else []
  {
    assert [m][1..] == [];
  }

  /** The order an entry is sorted by: that of the first module carrying its label as group label, else 999. */
  function ItemOrder(ms: seq<ModuleConfig>, item: MenuItem): (o: int)
    ensures (forall i :: 0 <= i < |ms| ==> ms[i].menuGroup.None? || ms[i].menuGroup.value.groupLabel != item.itemLabel) ==>
      o == 999
    ensures o == 999 || exists m :: m in ms && m.menuGroup.Some? && m.menuGroup.value.groupLabel == item.itemLabel && o == MenuOrder(m)
    ensures forall i :: 0 <= i < |ms| && ms[i].menuGroup.Some? && ms[i].menuGroup.value.groupLabel == item.itemLabel ==>
      (forall j :: 0 <= j < i ==> ms[j].menuGroup.None? || ms[j].menuGroup.value.groupLabel != item.itemLabel) ==>
        o == MenuOrder(ms[i])
  {
    var g := FindGroup(ms, item.itemLabel);
    assert forall i :: 0 <= i < |ms| && ms[i].menuGroup.Some? && ms[i].menuGroup.value.groupLabel == item.itemLabel ==>
      (forall j :: 0 <= j < i ==> ms[j].menuGroup.None? || ms[j].menuGroup.value.groupLabel != item.itemLabel) ==>
        g == Some(ms[i]) by {
      forall i | 0 <= i < |ms| && ms[i].menuGroup.Some? && ms[i].menuGroup.value.groupLabel == item.itemLabel
        && (forall j :: 0 <= j < i ==> ms[j].menuGroup.None? || ms[j].menuGroup.value.groupLabel != item.itemLabel)
        ensures g == Some(ms[i]) {
        FindGroupFirst(ms, item.itemLabel, i);
      }
    }
    if g.Some? then MenuOrder(g.value) else 999
  }

  /** The comparator's key for the entries built from `ms`. */
  function ItemKey(ms: seq<ModuleConfig>): MenuItem -> int {
    item => ItemOrder(ms, item)
  }

  /**
   * `generateMenuData`: the entries ascending by their order, entries of equal
   * order in the order of the configurations they come from.
   */
  function GenerateMenuData(menuRoutes: seq<ModuleConfig>): (r: seq<MenuItem>)
    ensures SortedBy(r, ItemKey(menuRoutes))
    ensures multiset(r) == multiset(Items(menuRoutes))
    ensures forall k :: WithKey(r, ItemKey(menuRoutes), k) == WithKey(Items(menuRoutes), ItemKey(menuRoutes), k)
  {
    var key := ItemKey(menuRoutes);
    var items := Items(menuRoutes);
    SortBySorted(items, key);
    SortByPermutes(items, key);
    forall k ensures WithKey(SortBy(items, key), key, k) == WithKey(items, key, k) {
      SortByStable(items, key, k);
    }
    SortBy(items, key)
  }

  /**
   * The entry of a module with a shown route: its path is the base path joined
   * with the first shown route's path, its label falls back from the group label
   * to that route's title to "Unknown", and its sub-entries are the route's shown
   * children, ascending by menu order, with paths joined onto the route's.
   */
  lemma ModuleItemShape(m: ModuleConfig, i: nat)
    requires i < |m.routes| && m.routes[i].showInMenu
    requires forall j :: 0 <= j < i ==> !m.routes[j].showInMenu
    ensures var main := m.routes[i];
      var item := ModuleItem(m);
      && item.path == m.basePath + main.path
      && item.itemLabel == ItemLabel(m, Some(main))
      && (item.subItems.Some? <==> main.hasChildren)
      && (main.hasChildren ==>
        var sorted := SortBy(ShownChildren(main.children), RouteOrder);
        && SortedBy(sorted, RouteOrder)
        && multiset(sorted) == multiset(ShownChildren(main.children))
        && (forall o :: WithKey(sorted, RouteOrder, o) == WithKey(ShownChildren(main.children), RouteOrder, o))
        && |item.subItems.value| == |sorted|
        && forall k :: 0 <= k < |sorted| ==>
             item.subItems.value[k] == SubItem(sorted[k].title, m.basePath + main.path + sorted[k].path))
  {
    FirstMenuRouteAt(m.routes, i);
    var sorted := SortBy(ShownChildren(m.routes[i].children), RouteOrder);
    SortBySorted(ShownChildren(m.routes[i].children), RouteOrder);
    SortByPermutes(ShownChildren(m.routes[i].children), RouteOrder);
    forall o ensures WithKey(sorted, RouteOrder, o) == WithKey(ShownChildren(m.routes[i].children), RouteOrder, o) {
      SortByStable(ShownChildren(m.routes[i].children), RouteOrder, o);
    }
  }

  /**
   * An entry labelled by its own group is ordered by its own module's order when
   * no earlier module uses that label; a later module reusing a label takes the
   * order of the first.
   */
  lemma ItemOrderOfGroup(ms: seq<ModuleConfig>, i: nat)
    requires i < |ms| && ms[i].menuGroup.Some? && ms[i].menuGroup.value.groupLabel != ""
    ensures var l := ms[i].menuGroup.value.groupLabel;
      (forall j :: 0 <= j < i ==> ms[j].menuGroup.None? || ms[j].menuGroup.value.groupLabel != l) ==>
        ItemOrder(ms, ModuleItem(ms[i])) == MenuOrder(ms[i])
  {
    var l := ms[i].menuGroup.value.groupLabel;
    if forall j :: 0 <= j < i ==> ms[j].menuGroup.None? || ms[j].menuGroup.value.groupLabel != l {
      FindGroupFirst(ms, l, i);
    }
  }

  /** The first module with a given group label is the one found. */
  lemma {:induction false} FindGroupFirst(ms: seq<ModuleConfig>, l: string, i: nat)
    requires i < |ms| && ms[i].menuGroup.Some? && ms[i].menuGroup.value.groupLabel == l
    requires forall j :: 0 <= j < i ==> ms[j].menuGroup.None? || ms[j].menuGroup.value.groupLabel != l
    ensures FindGroup(ms, l) == Some(ms[i])
  {
    if i > 0 {
      assert ms[1..][i - 1] == ms[i];
      forall j | 0 <= j < i - 1 ensures ms[1..][j].menuGroup.None? || ms[1..][j].menuGroup.value.groupLabel != l {
        assert ms[1..][j] == ms[j + 1];
      }
      FindGroupFirst(ms[1..], l, i - 1);
    }
  }

  /** `getRouteByPath`: a route with exactly that path, if any. */
  function GetRouteByPath(allRoutes: seq<Route>, path: string): (r: Option<Route>)
    ensures r.None? <==> forall i :: 0 <= i < |allRoutes| ==> allRoutes[i].path != path
    ensures r.Some? ==> r.value in allRoutes && r.value.path == path
  {
    if allRoutes == [] then None
    else if allRoutes[0].path == path then Some(allRoutes[0])
    else
      assert forall i :: 1 <= i < |allRoutes| ==> allRoutes[i] == allRoutes[1..][i - 1];
      GetRouteByPath(allRoutes[1..], path)
  }

  /** When several routes share a path, the first of them is found. */
  lemma {:induction false} GetRouteByPathFirst(allRoutes: seq<Route>, path: string, i: nat)
    requires i < |allRoutes| && allRoutes[i].path == path
    requires forall j :: 0 <= j < i ==> allRoutes[j].path != path
    ensures GetRouteByPath(allRoutes, path) == Some(allRoutes[i])
  {
    if i > 0 {
      assert allRoutes[1..][i - 1] == allRoutes[i];
      forall j | 0 <= j < i - 1 ensures allRoutes[1..][j].path != path {
        assert allRoutes[1..][j] == allRoutes[j + 1];
      }
      GetRouteByPathFirst(allRoutes[1..], path, i - 1);
    }
  }
}
