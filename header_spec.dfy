/**
 * The decisions that both versions of `ApexHeader` take the same way: scroll-driven
 * hiding, accordion exclusivity and the drawer's focus trap, as functions of the old state.
 */
module HeaderSpec {
  import opened Config

  /** `scrollThreshold`: pixels scrolled before the header hides. */
  const ScrollThreshold := 50

  /** Window width above which an open mobile drawer is closed. */
  const DesktopWidth := 989

  datatype Key = Escape | Tab | OtherKey

  /** Keyboard focus: the hamburger toggle, the i-th focusable element of the mobile drawer, or elsewhere. */
  datatype Focus = Elsewhere | OnToggle | InDrawer(index: nat)

  /** The drawer's close button comes right after its logo link. */
  const CloseButtonIndex := 1

  /** A `.js-cart-count` element: its text and its `has-items` class. */
  datatype CountBadge = CountBadge(count: int, hasItems: bool)

  /** The header's `is-hidden` class and `lastScrollY`. */
  datatype ScrollState = ScrollState(hidden: bool, lastY: int)

  /**
   * `handleScroll` with the effective `hideHeader`/`showHeader`: while the drawer is open
   * only the position is remembered; near the top the header shows; moving down past the
   * threshold hides it; moving up shows it; otherwise it stays as it was.
   */
  function ScrollStep(s: ScrollState, drawerOpen: bool, y: int): (r: ScrollState)
    ensures r.lastY == y
    ensures drawerOpen ==> r.hidden == s.hidden
    ensures !drawerOpen && y < ScrollThreshold ==> !r.hidden
    ensures !drawerOpen && y > ScrollThreshold && y > s.lastY ==> r.hidden
    ensures !drawerOpen && y < s.lastY ==> !r.hidden
    ensures !drawerOpen && y >= ScrollThreshold && y == s.lastY ==> r.hidden == s.hidden
    ensures !drawerOpen && y == ScrollThreshold && y > s.lastY ==> r.hidden == s.hidden
  {
    if drawerOpen then s.(lastY := y)
    else if y < ScrollThreshold then ScrollState(false, y)
    else if y > s.lastY && y > ScrollThreshold then ScrollState(true, y)
    else if y < s.lastY then ScrollState(false, y)
    else s.(lastY := y)
  }

  /** From the top: 30 keeps the header, 80 hides it, 60 brings it back. */
  lemma ScrollScenario()
    ensures var s1 := ScrollStep(ScrollState(false, 0), false, 30);
            var s2 := ScrollStep(s1, false, 80);
            var s3 := ScrollStep(s2, false, 60);
            !s1.hidden && s2.hidden && !s3.hidden && s3.lastY == 60
  {
  }

  /** The header only ever becomes hidden by a downward move that ends past the threshold. */
  lemma {:induction false} HiddenOnlyAfterScrollDown(s: ScrollState, ys: seq<int>)
    requires !s.hidden
    ensures ScrollRun(s, ys).hidden ==>
      exists k :: 0 <= k < |ys| && ys[k] > ScrollThreshold && ys[k] > ScrollRun(s, ys[..k]).lastY
  {
    if ys != [] {
      var init := ys[..|ys| - 1];
      var last := ys[|ys| - 1];
      assert ys[..|ys| - 1] == init;
      var before := ScrollRun(s, init);
      if ScrollRun(s, ys).hidden {
        if before.hidden {
          HiddenOnlyAfterScrollDown(s, init);
          var k :| 0 <= k < |init| && init[k] > ScrollThreshold && init[k] > ScrollRun(s, init[..k]).lastY;
          assert ys[..k] == init[..k];
        } else {
          assert ys[..|ys| - 1] == init;
        }
      }
    }
  }

  /** A run of scroll events with the drawer closed. */
  function ScrollRun(s: ScrollState, ys: seq<int>): ScrollState
  {
    if ys == [] then s else ScrollStep(ScrollRun(s, ys[..|ys| - 1]), false, ys[|ys| - 1])
  }

  /** No two accordion items are expanded together. */
  predicate AtMostOneExpanded(e: seq<bool>)
  {
    forall i, j :: 0 <= i < j < |e| ==> !(e[i] && e[j])
  }

  /**
   * `toggleAccordion` on item `k`: every item collapses, then `k` expands iff it was
   * collapsed before the click.
   */
  function Toggled(e: seq<bool>, k: nat): (r: seq<bool>)
    requires k < |e|
    ensures |r| == |e|
    ensures r[k] == !e[k]
    ensures forall j :: 0 <= j < |e| && j != k ==> !r[j]
    ensures AtMostOneExpanded(r)
  {
    seq(|e|, j requires 0 <= j < |e| => j == k && !e[k])
  }

  /** Expanding item `b` while item `a` is expanded leaves only `b` expanded. */
  lemma ExpandAnother(e: seq<bool>, a: nat, b: nat)
    requires a < |e| && b < |e| && a != b
    requires AtMostOneExpanded(e) && e[a]
    ensures Toggled(e, b) == seq(|e|, j requires 0 <= j < |e| => j == b)
  {
    if a < b {
      assert !(e[a] && e[b]);
    } else {
      assert !(e[a] && e[b]);
    }
  }

  /** Clicking the expanded item collapses every item. */
  lemma CollapseExpanded(e: seq<bool>, k: nat)
    requires k < |e| && e[k]
    ensures forall j :: 0 <= j < |e| ==> !Toggled(e, k)[j]
  {
  }

  /**
   * `trapFocus` on a Tab key in the drawer: Shift+Tab on the first focusable element
   * wraps to the last, Tab on the last wraps to the first, any other focus stays.
   */
  function TrapFocus(f: Focus, count: nat, shift: bool): (r: Focus)
    ensures count > 0 && shift && f == InDrawer(0) ==> r == InDrawer(count - 1)
    ensures count > 0 && !shift && f == InDrawer(count - 1) ==> r == InDrawer(0)
    ensures !(count > 0 && shift && f == InDrawer(0)) && !(count > 0 && !shift && f == InDrawer(count - 1)) ==> r == f
    ensures f.InDrawer? && f.index < count ==> r.InDrawer? && r.index < count
  {
    if count > 0 && shift && f == InDrawer(0) then InDrawer(count - 1)
    else if count > 0 && !shift && f == InDrawer(count - 1) then InDrawer(0)
    else f
  }

  /**
   * Each wrap is undone by the opposite key: when Tab wraps, Shift+Tab brings focus
   * back, and when Shift+Tab wraps, Tab brings it back.
   */
  lemma TrapFocusRoundTrip(f: Focus, count: nat)
    requires count > 1 && f.InDrawer? && f.index < count
    ensures var r := TrapFocus(f, count, false); r != f ==> TrapFocus(r, count, true) == f
    ensures var r := TrapFocus(f, count, true); r != f ==> TrapFocus(r, count, false) == f
  {
  }

  /** Pending `setTimeout` callbacks with the `i`-th one, which has just fired, taken out. */
  function WithoutTimer<T>(timers: seq<T>, i: nat): (r: seq<T>)
    requires i < |timers|
    ensures |r| == |timers| - 1
    ensures forall j :: 0 <= j < i ==> r[j] == timers[j]
    ensures forall j :: i <= j < |r| ==> r[j] == timers[j + 1]
  {
    timers[..i] + timers[i + 1..]
  }

  /** Focusable elements inside the mobile drawer's nav list: a link, or an accordion button with its sub-links. */
  function NavFocusables(nav: seq<NavItem>): nat
  {
    if nav == [] then 0
    else (if |nav[0].submenu| > 0 then 2 + |nav[0].submenu| else 1) + NavFocusables(nav[1..])
  }

  /**
   * The focusable elements of the mobile drawer in document order: logo link, close
   * button, the cart button when it is emitted, the nav list, one per footer action.
   */
  function DrawerFocusables(nav: seq<NavItem>, actions: seq<ActionItem>, cartShown: bool): (n: nat)
    ensures n > CloseButtonIndex
  {
    2 + (if cartShown then 1 else 0) + NavFocusables(nav) + |actions|
  }
}
