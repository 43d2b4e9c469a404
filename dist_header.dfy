/**
 * The controller of version 1.7.0 (dist/apex-header.js): the shared header behaviour plus
 * the contact drawer it owns and the storefront's `cart-drawer` element it asks to open or close.
 */
module DistHeader {
  import opened Config
  import opened HeaderSpec
  import opened HeaderCore
  import opened LogoRules
  import opened DistRules
  import ContactForm

  /** A `cart-drawer` element found by the query: whether it has an `open` and a `close` function. */
  datatype CartWidget = CartWidget(canOpen: bool, canClose: bool)

  /** Calls made on the storefront's cart drawer. */
  datatype CartRequest = OpenCart | CloseCart

  /** The injected markup always holds the contact drawer's form, status line, button and label span. */
  const FullLayout := ContactForm.Layout(true, true, true, true)

  /** The header's state, the contact drawer's when one has been created, and the cart calls made. */
  datatype Page = Page(header: HeaderState, contact: Option<ContactForm.ContactState>, cartRequests: seq<CartRequest>)

  predicate ContactOpen(p: Page)
  {
    p.contact.Some? && p.contact.value.active
  }

  /**
   * The page invariant: the header's own, the contact drawer's, and the two drawers are
   * never open together.
   */
  predicate PageInv(p: Page, focusables: nat)
  {
    && HeaderInv(p.header, focusables)
    && (p.contact.Some? ==> ContactForm.Inv(p.contact.value, FullLayout))
    && !(p.header.drawerOpen && ContactOpen(p))
  }

  /** `close` on the contact drawer when there is one and it is open. */
  function CloseContactIfOpen(c: Option<ContactForm.ContactState>): (r: Option<ContactForm.ContactState>)
    ensures r.Some? <==> c.Some?
    ensures r.Some? ==> !r.value.active
    ensures c.Some? && !c.value.active ==> r == c
  {
    if c.Some? && c.value.active then Some(ContactForm.Closed(c.value)) else c
  }

  /** A `close()` call on the cart drawer when it offers one. */
  function CloseCartIfAble(cart: CartWidget): seq<CartRequest>
  {
    if cart.canClose then [CloseCart] else []
  }

  /** `openDrawer`: the shared part, then the contact drawer and the cart drawer are closed. */
  function DrawerOpenedPage(p: Page, cart: CartWidget): (r: Page)
    ensures r.header.drawerOpen && !ContactOpen(r)
  {
    Page(DrawerOpened(p.header), CloseContactIfOpen(p.contact), p.cartRequests + CloseCartIfAble(cart))
  }

  function DrawerClosedPage(p: Page): Page
  {
    p.(header := DrawerClosed(p.header))
  }

  /** `toggleDrawer` */
  function DrawerToggledPage(p: Page, cart: CartWidget): Page
  {
    if p.header.drawerOpen then DrawerClosedPage(p) else DrawerOpenedPage(p, cart)
  }

  /** The contact drawer as `handleAction` finds it: the existing one, or a new one when the element is now found. */
  function EnsureContact(c: Option<ContactForm.ContactState>, contactFound: bool): Option<ContactForm.ContactState>
  {
    if c.None? && contactFound then Some(ContactForm.Initial()) else c
  }

  /**
   * `handleAction`: close the mobile drawer; on `cart` close the contact drawer and open
   * the cart; on `contact` close the cart and open the contact drawer, creating it first
   * if needed; dispatch the action in every case.
   */
  function ActionHandled(p: Page, action: string, cart: CartWidget, contactFound: bool): (r: Page)
    ensures r.header.dispatched == p.header.dispatched + [action]
    ensures !r.header.drawerOpen
    ensures action == "cart" ==> !ContactOpen(r) && r.cartRequests == p.cartRequests + (if cart.canOpen then [OpenCart] else [])
    ensures action == "contact" ==> (ContactOpen(r) <==> p.contact.Some? || contactFound)
    ensures action == "contact" ==> r.cartRequests == p.cartRequests + CloseCartIfAble(cart)
    ensures action != "cart" && action != "contact" ==> r.contact == p.contact && r.cartRequests == p.cartRequests
  {
    var acted :=
      if action == "cart" then CartActionPage(p, cart)
      else if action == "contact" then ContactActionPage(p, cart, contactFound)
      else p;
    acted.(header := ActionDispatched(p.header, action))
  }

  /** The `cart` branch of `handleAction`: close the contact drawer, ask the cart drawer to open. */
  function CartActionPage(p: Page, cart: CartWidget): Page
  {
    p.(contact := CloseContactIfOpen(p.contact),
       cartRequests := p.cartRequests + (if cart.canOpen then [OpenCart] else []))
  }

  /** The `contact` branch of `handleAction`: close the cart drawer, then open the contact drawer, creating it first if needed. */
  function ContactActionPage(p: Page, cart: CartWidget, contactFound: bool): Page
  {
    var c := EnsureContact(p.contact, contactFound);
    p.(contact := if c.Some? then Some(ContactForm.Opened(c.value, FullLayout)) else None,
       cartRequests := p.cartRequests + CloseCartIfAble(cart))
  }

  /**
   * A controller timer fires: the close button takes focus, or the contact drawer is
   * queried again and, when found, a new controller is made for it.
   */
  function TimerFiredPage(p: Page, i: nat, contactFound: bool): Page
    requires i < |p.header.timers|
  {
    match p.header.timers[i]
    case FocusCloseButton => p.(header := FocusTimerFired(p.header, i))
    case RetryContactDrawer =>
      Page(p.header.(timers := WithoutTimer(p.header.timers, i)),
           if contactFound then Some(ContactForm.Initial()) else p.contact,
           p.cartRequests)
  }

  /** The page right after `new ApexHeader()`: a contact drawer if its element is found, otherwise a retry pending. */
  function InitialPage(accordions: nat, cartShown: bool, contactFound: bool): Page
  {
    var h := InitialHeader(accordions, cartShown);
    if contactFound then Page(h, Some(ContactForm.Initial()), [])
    else Page(h.(timers := [RetryContactDrawer]), None, [])
  }

  /** The page-level transitions keep the page invariant. */
  lemma PageInvPreserved(p: Page, focusables: nat, cart: CartWidget, action: string, contactFound: bool)
    requires PageInv(p, focusables) && focusables > CloseButtonIndex
    ensures PageInv(DrawerOpenedPage(p, cart), focusables)
    ensures PageInv(DrawerClosedPage(p), focusables)
    ensures PageInv(ActionHandled(p, action, cart, contactFound), focusables)
    ensures forall i :: 0 <= i < |p.header.timers| ==> PageInv(TimerFiredPage(p, i, contactFound), focusables)
  {
    HeaderInvPreserved(p.header, focusables, 0, 0, Escape, false, 0, action);
    assert ActionHandled(p, action, cart, contactFound).header == ActionDispatched(p.header, action);
  }

  /** Opening the contact drawer from the mobile drawer leaves only the contact drawer open, and the header shown. */
  lemma ContactFromDrawer(p: Page, cart: CartWidget, contactFound: bool)
    requires p.header.drawerOpen && p.contact.Some?
    ensures var r := ActionHandled(p, "contact", cart, contactFound);
            ContactOpen(r) && !r.header.drawerOpen && !r.header.hidden && r.header.focus == OnToggle
            && r.contact.value.overflowLocked
  {
  }

  /** Reopening the mobile drawer over the contact drawer closes it and queues its scroll unlock. */
  lemma DrawerOverContact(p: Page, cart: CartWidget)
    requires ContactOpen(p)
    ensures var r := DrawerOpenedPage(p, cart);
            r.header.drawerOpen && r.header.hidden && !ContactOpen(r)
            && r.contact.value.timers == p.contact.value.timers + [ContactForm.UnlockScroll]
  {
  }

  /** An absent contact drawer that is still not found on `contact` stays absent; the action is dispatched all the same. */
  lemma ContactNeverFound(p: Page, cart: CartWidget)
    requires p.contact.None?
    ensures var r := ActionHandled(p, "contact", cart, false);
            r.contact.None? && r.header.dispatched == p.header.dispatched + ["contact"]
  {
  }

  /** The logo and nav decisions `getHeaderHTML` makes for a location. */
  datatype Markup = Markup(desktopLogo: Logo, mobileLogo: Logo, alternate: bool, navActive: seq<bool>)

  class ApexHeader {
    /** The markup injected at construction. */
    const markup: Markup
    /** Number of focusable elements in the mobile drawer. */
    const focusables: nat
    var drawerOpen: bool
    var hidden: bool
    var lastY: int
    var expanded: seq<bool>
    var focus: Focus
    var badges: seq<CountBadge>
    var dispatched: seq<string>
    var timers: seq<HeaderTimer>
    var contact: ContactForm.ContactDrawer?
    var cartRequests: seq<CartRequest>

    function Snap(): HeaderState
      reads this
    {
      HeaderState(drawerOpen, hidden, lastY, expanded, focus, badges, dispatched, timers)
    }

    function ContactSnap(): Option<ContactForm.ContactState>
      reads this, contact
    {
      if contact == null then None else Some(contact.Snap())
    }

    function PageSnap(): Page
      reads this, contact
    {
      Page(Snap(), ContactSnap(), cartRequests)
    }

    ghost predicate Valid()
      reads this, contact
    {
      && (contact != null ==> contact.layout == FullLayout && contact.Valid())
      && focusables > CloseButtonIndex
      && PageInv(PageSnap(), focusables)
    }

    /**
     * `new ApexHeader()`: the markup's logos, alternate flag and active nav items, then
     * `initContactDrawer`.
     */
    constructor (cfg: SiteConfig, loc: Location, contactFound: bool)
      ensures Valid()
      ensures focusables == DrawerFocusables(cfg.nav, cfg.actions, CartButtonShown(cfg, loc))
      ensures PageSnap() == InitialPage(AccordionCount(cfg.nav), CartButtonShown(cfg, loc), contactFound)
      ensures markup.desktopLogo == ActiveLogo(cfg.rules.alternateLogo, loc.href, false, cfg.logo)
      ensures markup.mobileLogo == ActiveLogo(cfg.rules.alternateLogo, loc.href, true, cfg.logo)
      ensures markup.navActive == ActiveFlags(cfg.nav, loc)
      ensures markup.alternate <==> exists i :: 0 <= i < |cfg.rules.alternateLogo| && RuleMatches(cfg.rules.alternateLogo[i], loc.href)
    {
      var desktop := GetActiveLogo(cfg.rules.alternateLogo, loc.href, false, cfg.logo);
      var mobile := GetActiveLogo(cfg.rules.alternateLogo, loc.href, true, cfg.logo);
      var alternate := IsAlternateLogo(cfg.rules.alternateLogo, loc.href);
      markup := Markup(desktop, mobile, alternate, ActiveFlags(cfg.nav, loc));
      var cartShown := CartButtonShown(cfg, loc);
      focusables := DrawerFocusables(cfg.nav, cfg.actions, cartShown);
      drawerOpen, hidden, lastY := false, false, 0;
      expanded := seq(AccordionCount(cfg.nav), _ => false);
      focus := Elsewhere;
      badges := if cartShown then [CountBadge(0, false), CountBadge(0, false)] else [];
      dispatched, cartRequests := [], [];
      new;
      if contactFound {
        contact := new ContactForm.ContactDrawer(FullLayout);
        timers := [];
      } else {
        contact := null;
        timers := [RetryContactDrawer];
      }
    }

    /** `handleScroll` with the window's `scrollY`. */
    method HandleScroll(y: int)
      requires Valid()
      modifies this
      ensures Valid() && PageSnap() == old(PageSnap()).(header := Scrolled(old(Snap()), y))
    {
      var s := ScrollStep(ScrollState(hidden, lastY), drawerOpen, y);
      hidden, lastY := s.hidden, s.lastY;
      HeaderInvPreserved(old(Snap()), focusables, y, 0, Escape, false, 0, "");
    }

    method OpenDrawer(cart: CartWidget)
      requires Valid()
      modifies this, contact
      ensures Valid() && PageSnap() == DrawerOpenedPage(old(PageSnap()), cart)
    {
      drawerOpen, hidden := true, true;
      if contact != null && contact.IsOpen() {
        contact.Close();
      }
      if cart.canClose {
        cartRequests := cartRequests + [CloseCart];
      }
      timers := timers + [FocusCloseButton];
    }

    /** `closeDrawer`, also run by the close button, the backdrop and every link in the drawer. */
    method CloseDrawer()
      requires Valid()
      modifies this
      ensures Valid() && PageSnap() == DrawerClosedPage(old(PageSnap()))
      ensures contact == old(contact)
    {
      drawerOpen, hidden := false, false;
      focus := OnToggle;
    }

    /** The hamburger toggle's `click`. */
    method ToggleDrawer(cart: CartWidget)
      requires Valid()
      modifies this, contact
      ensures Valid() && PageSnap() == DrawerToggledPage(old(PageSnap()), cart)
    {
      if drawerOpen {
        CloseDrawer();
      } else {
        OpenDrawer(cart);
      }
    }

    /** A `keydown`: Escape closes an open drawer, Tab inside an open drawer is trapped. */
    method KeyDown(key: Key, shift: bool)
      requires Valid()
      modifies this
      ensures Valid() && PageSnap() == old(PageSnap()).(header := KeyPressed(old(Snap()), key, shift, focusables))
    {
      if key == Escape && drawerOpen {
        CloseDrawer();
      } else if key == Tab && drawerOpen && focus.InDrawer? {
        focus := TrapFocus(focus, focusables, shift);
      }
    }

    /** The `resize` listener with the window's `innerWidth`. */
    method Resize(width: int)
      requires Valid()
      modifies this
      ensures Valid() && PageSnap() == old(PageSnap()).(header := Resized(old(Snap()), width))
    {
      if width > DesktopWidth && drawerOpen {
        CloseDrawer();
      }
    }

    /** Focus moved by the browser, for instance by an untrapped Tab. */
    method MoveFocus(f: Focus)
      requires Valid() && (f.InDrawer? ==> f.index < focusables)
      modifies this
      ensures Valid() && PageSnap() == old(PageSnap()).(header := old(Snap()).(focus := f))
    {
      focus := f;
    }

    /** `toggleAccordion` on the `k`-th accordion button: collapse all items, then expand `k` if it was collapsed. */
    method ToggleAccordion(k: nat)
      requires Valid() && k < |expanded|
      modifies this
      ensures Valid() && PageSnap() == old(PageSnap()).(header := old(Snap()).(expanded := Toggled(old(expanded), k)))
    {
      var wasExpanded := expanded[k];
      var i := 0;
      while i < |expanded|
        invariant 0 <= i <= |expanded| == |old(expanded)|
        invariant forall j :: 0 <= j < i ==> !expanded[j]
        invariant forall j :: i <= j < |expanded| ==> expanded[j] == old(expanded)[j]
        invariant contact == old(contact)
        invariant PageSnap() == old(PageSnap()).(header := old(Snap()).(expanded := expanded))
      {
        expanded := expanded[i := false];
        i := i + 1;
      }
      if !wasExpanded {
        expanded := expanded[k := true];
      }
      assert expanded == Toggled(old(expanded), k);
    }

    /** `updateCartCount`: every `.js-cart-count` badge shows `n`, with `has-items` iff `n > 0`. */
    method UpdateCartCount(n: int)
      requires Valid()
      modifies this
      ensures Valid() && PageSnap() == old(PageSnap()).(header := CountUpdated(old(Snap()), n))
    {
      var i := 0;
      while i < |badges|
        invariant 0 <= i <= |badges| == |old(badges)|
        invariant forall j :: 0 <= j < i ==> badges[j] == CountBadge(n, n > 0)
        invariant forall j :: i <= j < |badges| ==> badges[j] == old(badges)[j]
        invariant contact == old(contact)
        invariant PageSnap() == old(PageSnap()).(header := old(Snap()).(badges := badges))
      {
        badges := badges[i := CountBadge(n, n > 0)];
        i := i + 1;
      }
      assert badges == CountUpdated(old(Snap()), n).badges;
    }

    /** A click on a `[data-action]` button; `contactFound` tells whether the contact drawer's element is now in the page. */
    method HandleAction(action: string, cart: CartWidget, contactFound: bool)
      requires Valid()
      modifies this, contact
      ensures Valid() && PageSnap() == ActionHandled(old(PageSnap()), action, cart, contactFound)
    {
      if drawerOpen {
        CloseDrawer();
      }
      if action == "cart" {
        CartAction(cart);
      } else if action == "contact" {
        ContactAction(cart, contactFound);
      }
      dispatched := dispatched + [action];
    }

    method CartAction(cart: CartWidget)
      requires Valid() && !drawerOpen
      modifies this, contact
      ensures Valid() && PageSnap() == CartActionPage(old(PageSnap()), cart)
    {
      if contact != null && contact.IsOpen() {
        contact.Close();
      }
      if cart.canOpen {
        cartRequests := cartRequests + [OpenCart];
      }
    }

    method ContactAction(cart: CartWidget, contactFound: bool)
      requires Valid() && !drawerOpen
      modifies this, contact
      ensures Valid() && PageSnap() == ContactActionPage(old(PageSnap()), cart, contactFound)
    {
      if cart.canClose {
        cartRequests := cartRequests + [CloseCart];
      }
      if contact == null && contactFound {
        contact := new ContactForm.ContactDrawer(FullLayout);
      }
      if contact != null {
        contact.Open();
      }
    }

    /** The `i`-th pending controller timer fires; `contactFound` tells whether the retry finds the contact drawer. */
    method FireTimer(i: nat, contactFound: bool)
      requires Valid() && i < |timers|
      modifies this
      ensures Valid() && PageSnap() == TimerFiredPage(old(PageSnap()), i, contactFound)
    {
      var t := timers[i];
      timers := WithoutTimer(timers, i);
      match t {
        case FocusCloseButton =>
          focus := InDrawer(CloseButtonIndex);
        case RetryContactDrawer =>
          if contactFound {
            contact := new ContactForm.ContactDrawer(FullLayout);
          }
      }
    }

    /** The contact drawer's `keyup` listener. */
    method ContactKeyUp(key: Key)
      requires Valid() && contact != null
      modifies contact
      ensures Valid()
      ensures PageSnap() == old(PageSnap()).(contact := Some(
        if key == Escape && old(contact.active) then ContactForm.Closed(old(contact.Snap())) else old(contact.Snap())))
    {
      contact.KeyUp(key);
    }

    /** A click on the contact drawer's close button or overlay. */
    method ContactClose()
      requires Valid() && contact != null
      modifies contact
      ensures Valid() && PageSnap() == old(PageSnap()).(contact := Some(ContactForm.Closed(old(contact.Snap()))))
    {
      contact.Close();
    }

    /** Typing into field `i` of the contact form. */
    method ContactInput(i: nat, value: string)
      requires Valid() && contact != null && i < |contact.fields|
      modifies contact
      ensures Valid()
      ensures PageSnap() == old(PageSnap()).(contact := Some(old(contact.Snap()).(fields := old(contact.fields)[i := value])))
    {
      contact.Input(i, value);
    }

    /** The contact form's `submit` event. */
    method ContactSubmit()
      requires Valid() && contact != null && !contact.submitDisabled
      modifies contact
      ensures Valid() && PageSnap() == old(PageSnap()).(contact := Some(ContactForm.Submitted(old(contact.Snap()), FullLayout)))
    {
      contact.HandleSubmit();
    }

    /** The reply to the contact form's submission arrives. */
    method ContactReply(outcome: ContactForm.Outcome)
      requires Valid() && contact != null && contact.reply.Some?
      modifies contact
      ensures Valid() && PageSnap() == old(PageSnap()).(contact := Some(ContactForm.Replied(old(contact.Snap()), FullLayout, outcome)))
    {
      contact.ReceiveReply(outcome);
    }

    /** The contact drawer's `i`-th timer fires. */
    method ContactTimer(i: nat)
      requires Valid() && contact != null && i < |contact.timers|
      modifies contact
      ensures Valid() && PageSnap() == old(PageSnap()).(contact := Some(ContactForm.Fired(old(contact.Snap()), i)))
    {
      contact.FireTimer(i);
    }
  }

  /** `initApexHeader`: no controller where `shouldShowHeader` says no, otherwise a new one. */
  method InitApexHeader(cfg: SiteConfig, loc: Location, contactFound: bool) returns (header: ApexHeader?)
    ensures header == null <==> !ShouldShowHeader(cfg.rules, loc)
    ensures header != null ==>
      fresh(header) && header.Valid() &&
      header.PageSnap() == InitialPage(AccordionCount(cfg.nav), CartButtonShown(cfg, loc), contactFound)
  {
    if !ShouldShowHeader(cfg.rules, loc) {
      return null;
    }
    header := new ApexHeader(cfg, loc, contactFound);
  }
}
