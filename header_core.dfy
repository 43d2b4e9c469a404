/**
 * The state that both versions of `ApexHeader` keep, and the transitions they share:
 * opening and closing the mobile drawer, scrolling, resizing, keys, accordions,
 * the cart badges and the `apex-header:action` event.
 */
module HeaderCore {
  import opened HeaderSpec

  /** `setTimeout` callbacks of the controller: focusing the close button 50 ms after opening, re-querying the contact drawer after 100 ms. */
  datatype HeaderTimer = FocusCloseButton | RetryContactDrawer

  /**
   * `isDrawerOpen` (mirrored by the drawer's and backdrop's `is-open`, `aria-expanded`
   * and the body's `apex-menu-open`), the header's `is-hidden`, `lastScrollY`, the
   * `is-expanded` flag of each accordion item, keyboard focus, the `.js-cart-count`
   * badges, the actions dispatched so far and the pending timers.
   */
  datatype HeaderState = HeaderState(
    drawerOpen: bool,
    hidden: bool,
    lastY: int,
    expanded: seq<bool>,
    focus: Focus,
    badges: seq<CountBadge>,
    dispatched: seq<string>,
    timers: seq<HeaderTimer>)

  /** The freshly constructed controller: one collapsed item per accordion, two badges reading 0 when the cart button is emitted. */
  function InitialHeader(accordions: nat, cartShown: bool): HeaderState
  {
    HeaderState(false, false, 0, seq(accordions, _ => false), Elsewhere,
                if cartShown then [CountBadge(0, false), CountBadge(0, false)] else [], [], [])
  }

  /**
   * What every event keeps: the header is hidden while the drawer is open, at most one
   * accordion item is expanded, and focus inside the drawer is on one of its elements.
   */
  predicate HeaderInv(h: HeaderState, focusables: nat)
  {
    && (h.drawerOpen ==> h.hidden)
    && AtMostOneExpanded(h.expanded)
    && (h.focus.InDrawer? ==> h.focus.index < focusables)
  }

  /** The header part of `openDrawer`: open, hide the header, schedule the close-button focus. */
  function DrawerOpened(h: HeaderState): HeaderState
  {
    h.(drawerOpen := true, hidden := true, timers := h.timers + [FocusCloseButton])
  }

  /** `closeDrawer`: closed, header shown, focus back on the toggle. */
  function DrawerClosed(h: HeaderState): HeaderState
  {
    h.(drawerOpen := false, hidden := false, focus := OnToggle)
  }

  /** `handleScroll` at scroll position `y`. */
  function Scrolled(h: HeaderState, y: int): HeaderState
  {
    var s := ScrollStep(ScrollState(h.hidden, h.lastY), h.drawerOpen, y);
    h.(hidden := s.hidden, lastY := s.lastY)
  }

  /** The `resize` listener: a window wider than 989 pixels closes an open drawer. */
  function Resized(h: HeaderState, width: int): HeaderState
  {
    if width > DesktopWidth && h.drawerOpen then DrawerClosed(h) else h
  }

  /**
   * A key pressed: the document's listener closes an open drawer on Escape; the drawer's
   * own listener, reached only from focus inside the drawer, traps Tab while it is open.
   */
  function KeyPressed(h: HeaderState, key: Key, shift: bool, focusables: nat): HeaderState
  {
    if key == Escape && h.drawerOpen then DrawerClosed(h)
    else if key == Tab && h.drawerOpen && h.focus.InDrawer? then h.(focus := TrapFocus(h.focus, focusables, shift))
    else h
  }

  /** `updateCartCount(n)`: every badge reads `n` and has `has-items` iff `n > 0`. */
  function CountUpdated(h: HeaderState, n: int): (r: HeaderState)
    ensures |r.badges| == |h.badges|
    ensures forall i :: 0 <= i < |r.badges| ==> r.badges[i].count == n && (r.badges[i].hasItems <==> n > 0)
    ensures r.(badges := h.badges) == h
  {
    h.(badges := seq(|h.badges|, _ => CountBadge(n, n > 0)))
  }

  /** The part of `handleAction` both versions share: close an open drawer, then dispatch `apex-header:action`. */
  function ActionDispatched(h: HeaderState, action: string): HeaderState
  {
    var closed := if h.drawerOpen then DrawerClosed(h) else h;
    closed.(dispatched := h.dispatched + [action])
  }

  /** The 50 ms timer of `openDrawer` fires: focus goes to the close button. */
  function FocusTimerFired(h: HeaderState, i: nat): HeaderState
    requires i < |h.timers| && h.timers[i] == FocusCloseButton
  {
    h.(focus := InDrawer(CloseButtonIndex), timers := WithoutTimer(h.timers, i))
  }

  /** Every shared transition keeps the invariant, for a drawer with at least the logo link and close button. */
  lemma HeaderInvPreserved(h: HeaderState, focusables: nat, y: int, width: int, key: Key, shift: bool, n: int, action: string)
    requires HeaderInv(h, focusables) && focusables > CloseButtonIndex
    ensures HeaderInv(DrawerOpened(h), focusables)
    ensures HeaderInv(DrawerClosed(h), focusables)
    ensures HeaderInv(Scrolled(h, y), focusables)
    ensures HeaderInv(Resized(h, width), focusables)
    ensures HeaderInv(KeyPressed(h, key, shift, focusables), focusables)
    ensures HeaderInv(CountUpdated(h, n), focusables)
    ensures HeaderInv(ActionDispatched(h, action), focusables)
    ensures forall i :: 0 <= i < |h.timers| && h.timers[i] == FocusCloseButton ==> HeaderInv(FocusTimerFired(h, i), focusables)
    ensures forall k :: 0 <= k < |h.expanded| ==> HeaderInv(h.(expanded := Toggled(h.expanded, k)), focusables)
  {
  }

  /** Scrolling never reveals the header while the drawer is open, however far and in whichever direction. */
  lemma {:induction false} HiddenWhileDrawerOpen(h: HeaderState, ys: seq<int>)
    requires h.drawerOpen && h.hidden
    ensures var r := ScrollAll(h, ys); r.drawerOpen && r.hidden && (ys != [] ==> r.lastY == ys[|ys| - 1])
  {
    if ys != [] {
      HiddenWhileDrawerOpen(h, ys[..|ys| - 1]);
    }
  }

  /** A run of scroll events. */
  function ScrollAll(h: HeaderState, ys: seq<int>): HeaderState
  {
    if ys == [] then h else Scrolled(ScrollAll(h, ys[..|ys| - 1]), ys[|ys| - 1])
  }

  /** Closing the drawer always shows the header and keeps the last scroll position. */
  lemma ClosingShowsHeader(h: HeaderState)
    ensures !DrawerClosed(h).hidden && !DrawerClosed(h).drawerOpen && DrawerClosed(h).lastY == h.lastY
  {
  }

  /**
   * Closing the drawer shows the header even where the scroll position had hidden it:
   * scrolled down past the threshold, opened and closed, the header is back in view.
   */
  lemma CloseShowsScrolledHeader(h: HeaderState)
    requires !h.drawerOpen && h.lastY == 0 && !h.hidden
    ensures var down := Scrolled(h, 200);
            var after := DrawerClosed(DrawerOpened(down));
            down.hidden && !after.hidden && after.lastY == 200
  {
  }

  /** Escape and a resize to desktop width close an open drawer; on a closed drawer they change nothing. */
  lemma ClosingEvents(h: HeaderState, width: int, shift: bool, focusables: nat)
    ensures h.drawerOpen ==> KeyPressed(h, Escape, shift, focusables) == DrawerClosed(h)
    ensures h.drawerOpen && width > DesktopWidth ==> Resized(h, width) == DrawerClosed(h)
    ensures !h.drawerOpen ==> KeyPressed(h, Escape, shift, focusables) == h && Resized(h, width) == h
    ensures width <= DesktopWidth ==> Resized(h, width) == h
  {
  }

  /** Tab from the last element of an open drawer wraps to the first; Shift+Tab from the first wraps to the last. */
  lemma TabWraps(h: HeaderState, focusables: nat, shift: bool)
    requires h.drawerOpen && focusables > 0
    ensures h.focus == InDrawer(focusables - 1) ==> KeyPressed(h, Tab, false, focusables).focus == InDrawer(0)
    ensures h.focus == InDrawer(0) ==> KeyPressed(h, Tab, true, focusables).focus == InDrawer(focusables - 1)
    ensures !h.focus.InDrawer? ==> KeyPressed(h, Tab, shift, focusables) == h
  {
  }

  /** A run of action clicks, in order. */
  function DispatchAll(h: HeaderState, actions: seq<string>): HeaderState
  {
    if actions == [] then h else ActionDispatched(DispatchAll(h, actions[..|actions| - 1]), actions[|actions| - 1])
  }

  /**
   * Every action is dispatched exactly once, in the order clicked; after at least one
   * the drawer is closed; the accordions, badges and timers are left alone.
   */
  lemma {:induction false} ActionsDispatchedInOrder(h: HeaderState, actions: seq<string>)
    ensures var r := DispatchAll(h, actions);
            && r.dispatched == h.dispatched + actions
            && (actions != [] ==> !r.drawerOpen)
            && r.expanded == h.expanded && r.badges == h.badges && r.timers == h.timers
  {
    if actions != [] {
      var front := actions[..|actions| - 1];
      ActionsDispatchedInOrder(h, front);
      assert front + [actions[|actions| - 1]] == actions;
    }
  }
}
