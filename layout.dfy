/**
 * The drawer state of the application layout (src/components/layout/Layout.tsx):
 * whether the viewport is below the `md` breakpoint, whether the drawer is open
 * and whether it is collapsed to its narrow form, the handlers the app bar and
 * the drawer call, and the width left to the main content. The two drawer
 * widths come from a constants module that is not part of this model; they are
 * parameters.
 */
module Layout {
  import opened JsString

  /** The layout's state: the media query's answer and the two drawer flags. */
  datatype Drawer = Drawer(isMobile: bool, open: bool, collapsed: bool)

  /** The state the handlers keep: on a desktop the drawer is always open. */
  predicate Coherent(d: Drawer) {
    !d.isMobile ==> d.open
  }

  /**
   * The state after mounting: open exactly on a desktop, not collapsed (the
   * mount run of the media effect changes nothing of it).
   */
  function Initial(isMobile: bool): (d: Drawer)
    ensures Coherent(d)
    ensures d.isMobile == isMobile && (d.open <==> !isMobile) && !d.collapsed
  {
    Drawer(isMobile, !isMobile, false)
  }

  /**
   * The media query's answer becomes `mobile`. The effect runs only when the
   * answer changed: going mobile closes and expands the drawer, going desktop
   * opens it and keeps its collapse.
   */
  function MediaChange(d: Drawer, mobile: bool): (r: Drawer)
    requires Coherent(d)
    ensures Coherent(r) && r.isMobile == mobile
    ensures mobile != d.isMobile && mobile ==> !r.open && !r.collapsed
    ensures !mobile ==> r.collapsed == d.collapsed
    ensures mobile == d.isMobile ==> r == d
  {
    if mobile == d.isMobile then d
    else if mobile then Drawer(true, false, false)
    else Drawer(false, true, d.collapsed)
  }

  /**
   * `handleDrawerToggle`: on a phone the drawer opens or closes; on a desktop a
   * closed drawer opens expanded, an open one toggles its collapse.
   */
  function Toggle(d: Drawer): (r: Drawer)
    ensures Coherent(r) && r.isMobile == d.isMobile
    ensures d.isMobile ==> r.open != d.open && r.collapsed == d.collapsed
  {
    if d.isMobile then d.(open := !d.open)
    else if !d.open then d.(open := true, collapsed := false)
    else d.(collapsed := !d.collapsed)
  }

  /** `handleDrawerClose`: closes the drawer on a phone; a desktop drawer stays as it is. */
  function Close(d: Drawer): (r: Drawer)
    requires Coherent(d)
    ensures Coherent(r) && r.isMobile == d.isMobile && r.collapsed == d.collapsed
    ensures d.isMobile <==> !r.open
  {
    if d.isMobile then d.(open := false) else d
  }

  /** `handleToggleCollapse`: flips the collapse, on a phone too. */
  function ToggleCollapse(d: Drawer): (r: Drawer)
    requires Coherent(d)
    ensures Coherent(r) && r.isMobile == d.isMobile && r.open == d.open
    ensures r.collapsed != d.collapsed
  {
    d.(collapsed := !d.collapsed)
  }

  /**
   * `getMainContentWidth`: the whole width on a phone or beside a closed drawer,
   * otherwise the width less the drawer's current width in pixels.
   */
  function MainWidth(d: Drawer, collapsedWidth: nat, drawerWidth: nat): (w: string)
    ensures w == "100%" <==> d.isMobile || !d.open
    ensures w != "100%" ==>
      && StartsWith(w, "calc(100% - ")
      && Digits(w) == "100" + NatToString(if d.collapsed then collapsedWidth else drawerWidth)
  {
    if d.isMobile then "100%"
    else if !d.open then "100%"
    else
      var n := if d.collapsed then collapsedWidth else drawerWidth;
      var w := "calc(100% - " + NatToString(n) + "px)";
      assert w[0] != "100%"[0];
      CalcDigits(NatToString(n));
      w
  }

  /** The digits of a `calc` width are the hundred of `100%` followed by the pixel count. */
  lemma CalcDigits(px: string)
    requires AllDigits(px)
    ensures Digits("calc(100% - " + px + "px)") == "100" + px
  {
    assert "calc(100% - " + px + "px)" == "calc(" + "100" + "% - " + px + "px)";
    DigitsBetween("calc(", "100", "% - ", px, "px)");
  }

  /** The digits of five pieces where the first, third and last have none. */
  lemma DigitsBetween(a: string, b: string, c: string, d: string, e: string)
    requires forall i :: 0 <= i < |a| ==> !IsDigit(a[i])
    requires forall i :: 0 <= i < |c| ==> !IsDigit(c[i])
    requires forall i :: 0 <= i < |e| ==> !IsDigit(e[i])
    requires AllDigits(b) && AllDigits(d)
    ensures Digits(a + b + c + d + e) == b + d
  {
    assert a + b + c + d + e == (a + b + c) + (d + e);
    KeepIfConcat(a + b + c, d + e, IsDigit);
    DigitsInside(a, b, c);
    DigitsInside([], d, e);
    assert [] + d + e == d + e;
  }

  /** The digits of three pieces where the outer two have none. */
  lemma DigitsInside(a: string, b: string, c: string)
    requires forall i :: 0 <= i < |a| ==> !IsDigit(a[i])
    requires forall i :: 0 <= i < |c| ==> !IsDigit(c[i])
    requires AllDigits(b)
    ensures KeepIf(a + b + c, IsDigit) == b
  {
    var ab := a + b;
    KeepIfConcat(ab, c, IsDigit);
    KeepIfConcat(a, b, IsDigit);
    KeepIfAll(b, IsDigit);
    DigitFree(a);
    DigitFree(c);
    assert KeepIf(ab, IsDigit) == [] + b == b;
    assert KeepIf(ab + c, IsDigit) == b + [];
  }

  /** A string without digits has no digits to keep. */
  lemma {:induction false} DigitFree(s: string)
    requires forall i :: 0 <= i < |s| ==> !IsDigit(s[i])
    ensures KeepIf(s, IsDigit) == []
  {
    if s != [] {
      DigitFree(s[1..]);
    }
  }

  /** The width the main area is given: `isMobile ? '100%' : getMainContentWidth()`. */
  function MainAreaWidth(d: Drawer, collapsedWidth: nat, drawerWidth: nat): (w: string)
    ensures w == MainWidth(d, collapsedWidth, drawerWidth)
  {
    if d.isMobile then "100%" else MainWidth(d, collapsedWidth, drawerWidth)
  }

  /**
   * In every state the handlers reach, the desktop toggle only flips the
   * collapse: its branch that opens a closed drawer is never taken.
   */
  lemma DesktopToggleCollapses(d: Drawer)
    requires Coherent(d) && !d.isMobile
    ensures Toggle(d) == d.(collapsed := !d.collapsed)
  {
  }

  /** Toggling twice from a reachable state returns to it. */
  lemma ToggleTwice(d: Drawer)
    requires Coherent(d)
    ensures Toggle(Toggle(d)) == d
  {
  }

  /**
   * A closed drawer need not come back to itself: on a desktop (a state the
   * handlers never leave the drawer in) two toggles leave it open and expanded.
   */
  lemma ToggleClosedDesktop(collapsed: bool)
    ensures var d := Drawer(false, false, collapsed);
      Toggle(Toggle(d)) == Drawer(false, true, true)
  {
  }

  /** On a desktop in a reachable state the main content never takes the whole width. */
  lemma DesktopWidthBesideDrawer(d: Drawer, collapsedWidth: nat, drawerWidth: nat)
    requires Coherent(d) && !d.isMobile
    ensures MainAreaWidth(d, collapsedWidth, drawerWidth) != "100%"
  {
  }

  /** The layout component's state, updated in place by its handlers. */
  class DrawerLayout {
    var isMobile: bool
    var drawerOpen: bool
    var drawerCollapsed: bool

    function State(): Drawer
      reads this
    {
      Drawer(isMobile, drawerOpen, drawerCollapsed)
    }

    predicate Valid()
      reads this
    {
      Coherent(State())
    }

    constructor(isMobile: bool)
      ensures State() == Initial(isMobile) && Valid()
    {
      this.isMobile := isMobile;
      drawerOpen := !isMobile;
      drawerCollapsed := false;
    }

    /** The media query reports `mobile`; the effect on `isMobile` runs when it changed. */
    method MediaQueryChange(mobile: bool)
      requires Valid()
      modifies this
      ensures State() == MediaChange(old(State()), mobile) && Valid()
    {
      if mobile == isMobile {
        return;
      }
      isMobile := mobile;
      if isMobile {
        drawerOpen := false;
        drawerCollapsed := false;
      } else {
        drawerOpen := true;
      }
    }

    method HandleDrawerToggle()
      modifies this
      ensures State() == Toggle(old(State())) && Valid()
    {
      if isMobile {
        drawerOpen := !drawerOpen;
      } else if !drawerOpen {
        drawerOpen := true;
        drawerCollapsed := false;
      } else {
        drawerCollapsed := !drawerCollapsed;
      }
    }

    method HandleDrawerClose()
      requires Valid()
      modifies this
      ensures State() == Close(old(State())) && Valid()
    {
      if isMobile {
        drawerOpen := false;
      }
    }

    method HandleToggleCollapse()
      requires Valid()
      modifies this
      ensures State() == ToggleCollapse(old(State())) && Valid()
    {
      drawerCollapsed := !drawerCollapsed;
    }

    /** `getMainContentWidth` on the current state. */
    function MainContentWidth(collapsedWidth: nat, drawerWidth: nat): (w: string)
      reads this
      ensures w == "100%" <==> isMobile || !drawerOpen
    {
      MainWidth(State(), collapsedWidth, drawerWidth)
    }
  }
}
