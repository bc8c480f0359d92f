/**
 * The route registry (src/routes/RouteRegistry.ts): a `Map` from module name to
 * module route configuration, kept in insertion order, and an `initialized`
 * flag. Registration ignores a name already present; the routes of all modules
 * are flattened in pre-order with paths joined onto their parents'; the menu
 * view sorts the configurations by their menu order.
 */
module RouteRegistry {
  import opened Wrappers
  import opened RouteTypes
  import opened StableSort

  // ---------------------------------------------------------------------------
  // The map of modules

  /** No module name occurs twice: the entries of a `Map` keyed by name. */
  predicate NamesDistinct(ms: seq<ModuleConfig>) {
    forall i, j :: 0 <= i < j < |ms| ==> ms[i].moduleName != ms[j].moduleName
  }

  /** `modules.get(name)`. */
  function Find(ms: seq<ModuleConfig>, name: string): (r: Option<ModuleConfig>)
    ensures r.None? <==> forall i :: 0 <= i < |ms| ==> ms[i].moduleName != name
    ensures r.Some? ==> r.value in ms && r.value.moduleName == name
  {
    if ms == [] then None
    else if ms[0].moduleName == name then Some(ms[0])
    else
      var r := Find(ms[1..], name);
      assert forall i :: 1 <= i < |ms| ==> ms[i] == ms[1..][i - 1];
      r
  }

  /** A lookup after appending a new entry finds the old entries and the new one. */
  lemma {:induction false} FindAppend(ms: seq<ModuleConfig>, c: ModuleConfig, name: string)
    ensures Find(ms + [c], name) ==
      if Find(ms, name).Some? then Find(ms, name)
      else if c.moduleName == name then Some(c)
      else None
  {
    if ms == [] {
      assert ms + [c] == [c];
    } else {
      assert (ms + [c])[1..] == ms[1..] + [c];
      FindAppend(ms[1..], c, name);
    }
  }

  /** With distinct names, the entry found under a name is the one with that name. */
  lemma FindDistinct(ms: seq<ModuleConfig>, i: nat)
    requires NamesDistinct(ms) && i < |ms|
    ensures Find(ms, ms[i].moduleName) == Some(ms[i])
  {
    var r := Find(ms, ms[i].moduleName);
    var j :| 0 <= j < |ms| && ms[j] == r.value;
    assert ms[j].moduleName == ms[i].moduleName;
  }

  // ---------------------------------------------------------------------------
  // Flattening the route trees

  /**
   * The routes of a list of trees in pre-order, each route's path joined onto
   * its parent's full path and the top level onto `base`.
   */
  function Flatten(routes: seq<Route>, base: string): (out: seq<Route>)
    ensures |out| >= |routes|
    ensures routes != [] ==> out[0] == routes[0].(path := base + routes[0].path)
    decreases routes
  {
    if routes == [] then []
    else
      var r := routes[0];
      var full := base + r.path;
      [r.(path := full)]
        + (if r.hasChildren then Flatten(r.children, full) else [])
        + Flatten(routes[1..], base)
  }

  /** The number of routes in a list of trees. */
  function Nodes(routes: seq<Route>): nat
    decreases routes
  {
    if routes == [] then 0
    else 1 + (if routes[0].hasChildren then Nodes(routes[0].children) else 0) + Nodes(routes[1..])
  }

  /** The routes of all modules, module by module in registration order. */
  function FlattenModules(ms: seq<ModuleConfig>): seq<Route>
  {
    if ms == [] then []
    else
      var last := ms[|ms| - 1];
      FlattenModules(ms[..|ms| - 1]) + Flatten(last.routes, last.basePath)
  }

  /** The number of routes of all modules. */
  function ModuleNodes(ms: seq<ModuleConfig>): nat
  {
    if ms == [] then 0 else ModuleNodes(ms[..|ms| - 1]) + Nodes(ms[|ms| - 1].routes)
  }

  /** Flattening keeps every route: one entry per tree node. */
  lemma {:induction false} FlattenCount(routes: seq<Route>, base: string)
    ensures |Flatten(routes, base)| == Nodes(routes)
    decreases routes
  {
    if routes != [] {
      var r := routes[0];
      if r.hasChildren {
        FlattenCount(r.children, base + r.path);
      }
      FlattenCount(routes[1..], base);
    }
  }

  /** Every flattened path extends the base path. */
  lemma {:induction false} FlattenUnderBase(routes: seq<Route>, base: string)
    ensures forall x :: x in Flatten(routes, base) ==> base <= x.path
    decreases routes
  {
    if routes != [] {
      var r := routes[0];
      var full := base + r.path;
      if r.hasChildren {
        FlattenUnderBase(r.children, full);
      }
      FlattenUnderBase(routes[1..], base);
      forall x | x in Flatten(routes, base) ensures base <= x.path {
        if x in Flatten(r.children, full) && r.hasChildren {
          assert full <= x.path;
        }
      }
    }
  }

  /**
   * Pre-order: the first tree's root comes first, with its full path, and its
   * subtree follows it before the next tree.
   */
  lemma ParentFirst(routes: seq<Route>, base: string)
    requires routes != []
    ensures var r := routes[0];
      var full := base + r.path;
      var out := Flatten(routes, base);
      var sub := if r.hasChildren then Nodes(r.children) else 0;
      && |out| > sub
      && out[0] == r.(path := full)
      && out[1..1 + sub] == (if r.hasChildren then Flatten(r.children, full) else [])
  {
    var r := routes[0];
    var full := base + r.path;
    var kids := if r.hasChildren then Flatten(r.children, full) else [];
    if r.hasChildren {
      FlattenCount(r.children, full);
    }
    var out := Flatten(routes, base);
    assert out == [r.(path := full)] + kids + Flatten(routes[1..], base);
    assert out[1..1 + |kids|] == kids;
  }

  /** All modules together give one route per node of every registered tree. */
  lemma {:induction false} FlattenModulesCount(ms: seq<ModuleConfig>)
    ensures |FlattenModules(ms)| == ModuleNodes(ms)
  {
    if ms != [] {
      FlattenModulesCount(ms[..|ms| - 1]);
      FlattenCount(ms[|ms| - 1].routes, ms[|ms| - 1].basePath);
    }
  }

  /**
   * The recursive `processRoutes` closure: pushes the flattened `routes` onto
   * the accumulator.
   */
  method ProcessRoutes(routes: seq<Route>, base: string, acc: seq<Route>) returns (out: seq<Route>)
    ensures out == acc + Flatten(routes, base)
    decreases routes
  {
    out := acc;
    var i := 0;
    while i < |routes|
      invariant 0 <= i <= |routes|
      invariant out + Flatten(routes[i..], base) == acc + Flatten(routes, base)
    {
      var route := routes[i];
      var fullPath := base + route.path;
      FlattenFrom(routes, i, base);
      out := out + [route.(path := fullPath)];
      if route.hasChildren {
        out := ProcessRoutes(route.children, fullPath, out);
      }
      i := i + 1;
    }
    assert routes[i..] == [];
  }

  /** Flattening from tree `i` on: tree `i`'s root, its subtree, then the rest. */
  lemma FlattenFrom(routes: seq<Route>, i: nat, base: string)
    requires i < |routes|
    ensures var r := routes[i];
      var full := base + r.path;
      Flatten(routes[i..], base) ==
        [r.(path := full)] + (if r.hasChildren then Flatten(r.children, full) else []) + Flatten(routes[i + 1..], base)
  {
    assert routes[i..][0] == routes[i];
    assert routes[i..][1..] == routes[i + 1..];
  }

  // ---------------------------------------------------------------------------
  // The registry object

  class Registry {
    /** The `Map`'s entries, in insertion order; each is keyed by its `moduleName`. */
    var modules: seq<ModuleConfig>
    var initialized: bool

    predicate Valid()
      reads this
    {
      NamesDistinct(modules)
    }

    constructor()
      ensures modules == [] && !initialized && Valid()
    {
      modules := [];
      initialized := false;
    }

    /**
     * `register`: a configuration whose name is already registered is ignored;
     * otherwise it is added at the end, and nothing else changes.
     */
    method Register(config: ModuleConfig)
      requires Valid()
      modifies this
      ensures Valid()
      ensures initialized == old(initialized)
      ensures Find(old(modules), config.moduleName).Some? ==> modules == old(modules)
      ensures Find(old(modules), config.moduleName).None? ==> modules == old(modules) + [config]
    {
      if Find(modules, config.moduleName).Some? {
        return;
      }
      modules := modules + [config];
    }

    /** `getAllRoutes`: every module's route trees flattened, module by module. */
    method GetAllRoutes() returns (allRoutes: seq<Route>)
      ensures allRoutes == FlattenModules(modules)
      ensures |allRoutes| == ModuleNodes(modules)
    {
      allRoutes := [];
      var i := 0;
      while i < |modules|
        invariant 0 <= i <= |modules|
        invariant allRoutes == FlattenModules(modules[..i])
      {
        var moduleConfig := modules[i];
        allRoutes := ProcessRoutes(moduleConfig.routes, moduleConfig.basePath, allRoutes);
        assert modules[..i + 1][..i] == modules[..i];
        i := i + 1;
      }
      assert modules[..i] == modules;
      FlattenModulesCount(modules);
    }

    /**
     * `getMenuRoutes`: the configurations sorted by menu order, stably, so those
     * with equal order stay in registration order.
     */
    function GetMenuRoutes(): (r: seq<ModuleConfig>)
      reads this
      ensures SortedBy(r, MenuOrder)
      ensures multiset(r) == multiset(modules)
      ensures forall k :: WithKey(r, MenuOrder, k) == WithKey(modules, MenuOrder, k)
    {
      SortBySorted(modules, MenuOrder);
      SortByPermutes(modules, MenuOrder);
      forall k ensures WithKey(SortBy(modules, MenuOrder), MenuOrder, k) == WithKey(modules, MenuOrder, k) {
        SortByStable(modules, MenuOrder, k);
      }
      SortBy(modules, MenuOrder)
    }

    /** `getModuleRoutes`: the configuration registered under a name, if any. */
    function GetModuleRoutes(moduleName: string): (r: Option<ModuleConfig>)
      reads this
      ensures r.None? <==> forall i :: 0 <= i < |modules| ==> modules[i].moduleName != moduleName
      ensures r.Some? ==> r.value in modules && r.value.moduleName == moduleName
      ensures Valid() ==> forall i :: 0 <= i < |modules| && modules[i].moduleName == moduleName ==> r == Some(modules[i])
    {
      if Valid() then
        assert forall i :: 0 <= i < |modules| && modules[i].moduleName == moduleName ==>
          Find(modules, moduleName) == Some(modules[i]) by {
          forall i | 0 <= i < |modules| && modules[i].moduleName == moduleName
            ensures Find(modules, moduleName) == Some(modules[i]) {
            FindDistinct(modules, i);
          }
        }
        Find(modules, moduleName)
      else
        Find(modules, moduleName)
    }

    /**
     * `initialize`: once initialized it does nothing; otherwise the module the
     * dynamic import delivered (`loaded`, nothing when the import failed or had
     * no route provider) is registered and the flag is set.
     */
    method Initialize(loaded: Option<ModuleConfig>)
      requires Valid()
      modifies this
      ensures Valid()
      ensures initialized
      ensures old(initialized) || loaded.None? ==> modules == old(modules)
      ensures !old(initialized) && loaded.Some? ==>
        modules == if Find(old(modules), loaded.value.moduleName).Some? then old(modules)
                   else old(modules) + [loaded.value]
    {
      if initialized {
        return;
      }
      if loaded.Some? {
        Register(loaded.value);
      }
      initialized := true;
    }

    /** `clear`: no modules, not initialized. */
    method Clear()
      modifies this
      ensures modules == [] && !initialized && Valid()
    {
      modules := [];
      initialized := false;
    }
  }

  /**
   * After registering a new name, looking it up gives the new configuration and
   * every other name gives what it gave before.
   */
  lemma RegisteredLookup(ms: seq<ModuleConfig>, c: ModuleConfig, name: string)
    requires Find(ms, c.moduleName).None?
    ensures Find(ms + [c], c.moduleName) == Some(c)
    ensures name != c.moduleName ==> Find(ms + [c], name) == Find(ms, name)
  {
    FindAppend(ms, c, c.moduleName);
    FindAppend(ms, c, name);
  }

  /** Registering a new name keeps the names distinct. */
  lemma RegisterKeepsDistinct(ms: seq<ModuleConfig>, c: ModuleConfig)
    requires NamesDistinct(ms) && Find(ms, c.moduleName).None?
    ensures NamesDistinct(ms + [c])
  {
  }
}
