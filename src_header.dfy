/**
 * The controller of version 1.0.0 (src/apex-header.js): the shared header behaviour
 * alone. It owns no contact drawer, and its actions only close the drawer and dispatch.
 */
module SrcHeader {
  import opened Config
  import opened HeaderSpec
  import opened HeaderCore
  import opened LogoRules
  import opened SrcRules

  /** The logo and nav decisions `getHeaderHTML` makes for a URL. */
  datatype Markup = Markup(desktopLogo: Logo, mobileLogo: Logo, navActive: seq<bool>)

  /** This version schedules no timer other than the close-button focus. */
  predicate OnlyFocusTimers(h: HeaderState)
  {
    forall i :: 0 <= i < |h.timers| ==> h.timers[i] == FocusCloseButton
  }

  /** The open-and-close cycle of this version keeps its invariant. */
  lemma SrcInvPreserved(h: HeaderState, focusables: nat)
    requires HeaderInv(h, focusables) && OnlyFocusTimers(h) && focusables > CloseButtonIndex
    ensures var r := DrawerOpened(h); HeaderInv(r, focusables) && OnlyFocusTimers(r)
    ensures forall i :: 0 <= i < |h.timers| ==>
      HeaderInv(FocusTimerFired(h, i), focusables) && OnlyFocusTimers(FocusTimerFired(h, i))
  {
    forall i | 0 <= i < |h.timers|
      ensures OnlyFocusTimers(FocusTimerFired(h, i))
    {
      var r := FocusTimerFired(h, i);
      forall j | 0 <= j < |r.timers|
        ensures r.timers[j] == FocusCloseButton
      {
        if j < i {
          assert r.timers[j] == h.timers[j];
        } else {
          assert r.timers[j] == h.timers[j + 1];
        }
      }
    }
  }

  class ApexHeader {
    /** The markup injected at construction. */
    const markup: Markup
    /** Number of focusable elements in the mobile drawer. */
    const focusables: nat
    var drawerOpen: bool
    var hidden: bool
    var lastY: int
    var expanded: seq<bool>
    var focus: Focus
    var badges: seq<CountBadge>
    var dispatched: seq<string>
    var timers: seq<HeaderTimer>

    function Snap(): HeaderState
      reads this
    {
      HeaderState(drawerOpen, hidden, lastY, expanded, focus, badges, dispatched, timers)
    }

    ghost predicate Valid()
      reads this
    {
      focusables > CloseButtonIndex && HeaderInv(Snap(), focusables) && OnlyFocusTimers(Snap())
    }

    /** `new ApexHeader()`, which `initApexHeader` runs on every page in this version. */
    constructor (cfg: SiteConfig, href: string)
      ensures Valid()
      ensures focusables == DrawerFocusables(cfg.nav, cfg.actions, CartButtonShown(cfg, href))
      ensures Snap() == InitialHeader(AccordionCount(cfg.nav), CartButtonShown(cfg, href))
      ensures markup.desktopLogo == ActiveLogo(cfg.rules.alternateLogo, href, false, cfg.logo)
      ensures markup.mobileLogo == ActiveLogo(cfg.rules.alternateLogo, href, true, cfg.logo)
      ensures markup.navActive == ActiveFlags(cfg.nav, href)
    {
      var desktop := GetActiveLogo(cfg.rules.alternateLogo, href, false, cfg.logo);
      var mobile := GetActiveLogo(cfg.rules.alternateLogo, href, true, cfg.logo);
      markup := Markup(desktop, mobile, ActiveFlags(cfg.nav, href));
      var cartShown := CartButtonShown(cfg, href);
      focusables := DrawerFocusables(cfg.nav, cfg.actions, cartShown);
      drawerOpen, hidden, lastY := false, false, 0;
      expanded := seq(AccordionCount(cfg.nav), _ => false);
      focus := Elsewhere;
      badges := if cartShown then [CountBadge(0, false), CountBadge(0, false)] else [];
      dispatched, timers := [], [];
    }

    /** `handleScroll` with the window's `scrollY`. */
    method HandleScroll(y: int)
      requires Valid()
      modifies this
      ensures Valid() && Snap() == Scrolled(old(Snap()), y)
    {
      var s := ScrollStep(ScrollState(hidden, lastY), drawerOpen, y);
      hidden, lastY := s.hidden, s.lastY;
    }

    method OpenDrawer()
      requires Valid()
      modifies this
      ensures Valid() && Snap() == DrawerOpened(old(Snap()))
    {
      drawerOpen, hidden := true, true;
      timers := timers + [FocusCloseButton];
    }

    /** `closeDrawer`, also run by the close button, the backdrop and every link in the drawer. */
    method CloseDrawer()
      requires Valid()
      modifies this
      ensures Valid() && Snap() == DrawerClosed(old(Snap()))
    {
      drawerOpen, hidden := false, false;
      focus := OnToggle;
    }

    /** The hamburger toggle's `click`. */
    method ToggleDrawer()
      requires Valid()
      modifies this
      ensures Valid()
      ensures Snap() == if old(drawerOpen) then DrawerClosed(old(Snap())) else DrawerOpened(old(Snap()))
    {
      if drawerOpen {
        CloseDrawer();
      } else {
        OpenDrawer();
      }
    }

    /** A `keydown`: Escape closes an open drawer, Tab inside an open drawer is trapped. */
    method KeyDown(key: Key, shift: bool)
      requires Valid()
      modifies this
      ensures Valid() && Snap() == KeyPressed(old(Snap()), key, shift, focusables)
    {
      if key == Escape && drawerOpen {
        CloseDrawer();
      } else if key == Tab && drawerOpen && focus.InDrawer? {
        focus := TrapFocus(focus, focusables, shift);
      }
    }

    /** The `resize` listener with the window's `innerWidth`. */
    method Resize(width: int)
      requires Valid()
      modifies this
      ensures Valid() && Snap() == Resized(old(Snap()), width)
    {
      if width > DesktopWidth && drawerOpen {
        CloseDrawer();
      }
    }

    /** Focus moved by the browser, for instance by an untrapped Tab. */
    method MoveFocus(f: Focus)
      requires Valid() && (f.InDrawer? ==> f.index < focusables)
      modifies this
      ensures Valid() && Snap() == old(Snap()).(focus := f)
    {
      focus := f;
    }

    /** `toggleAccordion` on the `k`-th accordion button: collapse all items, then expand `k` if it was collapsed. */
    method ToggleAccordion(k: nat)
      requires Valid() && k < |expanded|
      modifies this
      ensures Valid() && Snap() == old(Snap()).(expanded := Toggled(old(expanded), k))
    {
      var wasExpanded := expanded[k];
      var i := 0;
      while i < |expanded|
        invariant 0 <= i <= |expanded| == |old(expanded)|
        invariant forall j :: 0 <= j < i ==> !expanded[j]
        invariant forall j :: i <= j < |expanded| ==> expanded[j] == old(expanded)[j]
        invariant Snap() == old(Snap()).(expanded := expanded)
      {
        expanded := expanded[i := false];
        i := i + 1;
      }
      if !wasExpanded {
        expanded := expanded[k := true];
      }
      assert expanded == Toggled(old(expanded), k);
    }

    /** `updateCartCount`: every `.js-cart-count` badge shows `n`, with `has-items` iff `n > 0`. */
    method UpdateCartCount(n: int)
      requires Valid()
      modifies this
      ensures Valid() && Snap() == CountUpdated(old(Snap()), n)
    {
      var i := 0;
      while i < |badges|
        invariant 0 <= i <= |badges| == |old(badges)|
        invariant forall j :: 0 <= j < i ==> badges[j] == CountBadge(n, n > 0)
        invariant forall j :: i <= j < |badges| ==> badges[j] == old(badges)[j]
        invariant Snap() == old(Snap()).(badges := badges)
      {
        badges := badges[i := CountBadge(n, n > 0)];
        i := i + 1;
      }
      assert badges == CountUpdated(old(Snap()), n).badges;
    }

    /** A click on a `[data-action]` button: close an open drawer and dispatch the action. */
    method HandleAction(action: string)
      requires Valid()
      modifies this
      ensures Valid() && Snap() == ActionDispatched(old(Snap()), action)
    {
      if drawerOpen {
        CloseDrawer();
      }
      dispatched := dispatched + [action];
    }

    /** The `i`-th pending close-button focus fires. */
    method FireTimer(i: nat)
      requires Valid() && i < |timers|
      modifies this
      ensures Valid() && Snap() == FocusTimerFired(old(Snap()), i)
    {
      timers := WithoutTimer(timers, i);
      focus := InDrawer(CloseButtonIndex);
      SrcInvPreserved(old(Snap()), focusables);
    }
  }
}
