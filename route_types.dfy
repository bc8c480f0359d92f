/**
 * The route configuration records of the application (src/routes/types.ts): a
 * route with its optional menu settings and nested child routes, and a module's
 * route configuration with its base path and optional menu group. The lazily
 * loaded page component, the icon, the access fields (`requiresAuth`, `roles`)
 * and the `meta` block are carried by the source but read by no part of this
 * model, so they are not fields here.
 */
module RouteTypes {
  import opened Wrappers

  /**
   * A route. `hasChildren` says whether the `children` property is present at
   * all; when it is absent `children` is empty. A missing `showInMenu` is false.
   */
  datatype Route = Route(
    path: string,
    title: string,
    showInMenu: bool,
    menuOrder: Option<int>,
    hasChildren: bool,
    children: seq<Route>)

  /** A module's menu group; `groupLabel` is the source's `label`. */
  datatype MenuGroup = MenuGroup(groupLabel: string, order: Option<int>)

  /** A module's routes: its name, the prefix of its top-level paths, its route trees. */
  datatype ModuleConfig = ModuleConfig(
    moduleName: string,
    basePath: string,
    routes: seq<Route>,
    menuGroup: Option<MenuGroup>)

  /** `order || 999`: a missing order, or 0, sorts as 999. */
  function OrderOr999(order: Option<int>): (r: int)
    ensures r != 0
    ensures order.Some? && order.value != 0 ==> r == order.value
    ensures order.None? || order.value == 0 ==> r == 999
  {
    if order.Some? && order.value != 0 then order.value else 999
  }

  /** The order a module is sorted by: `menuGroup?.order || 999`. */
  function MenuOrder(m: ModuleConfig): int {
    OrderOr999(if m.menuGroup.Some? then m.menuGroup.value.order else None)
  }

  /** The order a child route is sorted by: `menuOrder || 999`. */
  function RouteOrder(r: Route): int {
    OrderOr999(r.menuOrder)
  }
}
