# apex-header in Dafny

A model of the decision logic of **apex-header**, a self-injecting site header for storefront
pages, in both versions kept in the repository: the released build `dist/apex-header.js`
(version 1.7.0) and the earlier source `src/apex-header.js` (version 1.0.0).

It covers two parts of the script:

- **The URL rule engine.** It decides from `window.location` whether the header appears at all
  (`shouldShowHeader`, 1.7.0 only) and whether the cart button appears (`shouldShowCart`). It also
  picks which nav items are active (`isNavItemActive`) and which logo is shown
  (`getActiveLogo`, `isAlternateLogo`).
  - In 1.7.0 a pattern without `/` must equal the hostname or its `www.` form, and a pattern
    with `/` is a substring of the URL.
  - In 1.0.0 every pattern is a case-insensitive substring of the URL.
- **The runtime state machines.**
  - The `ApexHeader` controller of each version: the mobile drawer, scroll-driven hiding,
    the accordion, the focus trap, the cart badges and the `apex-header:action` event.
  - The `ContactDrawer` of 1.7.0: open and close with a delayed scroll unlock, and the
    contact form's submit cycle.

The modules are:

| file | module | what it holds |
|---|---|---|
| `text.dfy` | `Text` | ASCII `toLowerCase` and `String.prototype.includes` |
| `config.dfy` | `Config` | the `CONFIG` object's entities and the page location |
| `logo_rules.dfy` | `LogoRules` | `getActiveLogo` (the same code in both versions) and `isAlternateLogo` (1.7.0 only) |
| `dist_rules.dfy` | `DistRules` | the 1.7.0 rule engine |
| `src_rules.dfy` | `SrcRules` | the 1.0.0 rule engine |
| `rule_versions.dfy` | `RuleVersions` | how the two `urlMatches` relate |
| `header_spec.dfy` | `HeaderSpec` | the scroll, accordion and focus-trap decisions |
| `header_core.dfy` | `HeaderCore` | the controller state and the transitions both versions share |
| `contact_drawer.dfy` | `ContactForm` | the contact drawer: pure transitions and the `ContactDrawer` class |
| `dist_header.dfy` | `DistHeader` | the 1.7.0 `ApexHeader` class, with its contact and cart drawers, and `initApexHeader` |
| `src_header.dfy` | `SrcHeader` | the 1.0.0 `ApexHeader` class |

How the model is built:

- **Classes follow the source's classes.** Each class method states its new state as a pure
  function of the old one: `Snap() == F(old(Snap()))`. The lemmas about those functions carry
  the properties.
- **DOM queries and browser values are parameters.** These are whether `#apex-contact-drawer` or
  a `cart-drawer` with `open`/`close` functions is found, `scrollY`, `innerWidth`, the key
  pressed, and where the browser moves focus.
- **Timers are pending lists that the caller fires in any order.** This covers every order real
  delays allow.
- **The server's reply is an event.** A contact-form submission is split into its synchronous
  part (up to `fetch`) and the reply, which arrives as a separate event.

Where the code and the repository's own description of the behaviour disagree, the model
follows the code:

- **`openDrawer` adds `is-hidden` to the header.**
  - So the header is hidden whenever the mobile drawer is open. The model's invariant is
    `drawerOpen ==> hidden`, not the reverse.
  - `closeDrawer` removes the class, so closing the drawer shows the header even where
    scrolling had hidden it (`HeaderCore.CloseShowsScrolledHeader`).
- **The second `hideHeader`/`showHeader` pair is the one in effect.** In both classes a later
  definition of the same name replaces the earlier one, and the later pair only toggles
  `is-hidden`. So `isHeaderHidden` is never set after construction and `is-scrolled-hidden` is
  never applied. The model has no field for them.
- **An empty `showCartOn` shows the cart everywhere** (`dist/apex-header.js:201`). This is what
  the code does, although the comment on the default configuration says otherwise.
- **Repeated submits rely on the browser.** Nothing in `handleSubmit` guards against a second
  submission. What prevents one is that the browser does not submit a form whose submit button
  is disabled, so `ContactDrawer.HandleSubmit` requires `!submitDisabled`.
- **A successful submission restores the button label too.** The `finally` block restores the
  saved label on success as well, while the button stays hidden.
- **`openDrawer` is not idempotent.** Each call schedules another focus timer and another
  cart-drawer close. Only `toggleDrawer` calls it, and only when the drawer is closed.

## Model

| member | source | states |
|---|---|---|
| Text.Lower | dist/apex-header.js:148-151 | `toLowerCase` keeps the length and lower-cases each ASCII capital, leaving every other character alone |
| Text.LowerIdempotent | dist/apex-header.js:148-151 | lower-casing twice is lower-casing once |
| Text.LowerKeepsSlash | dist/apex-header.js:151-153 | a pattern contains `/` after lower-casing iff it did before, so the hostname/path choice does not depend on case |
| Text.ContainsLowered | dist/apex-header.js:157 | a string occurs, lower-cased, in any lower-cased string built around it |
| Config.AccordionCount | dist/apex-header.js:236-241 | the accordion buttons are at most as many as the nav items |
| Config.AccordionCountIsItemsWithSubmenu | dist/apex-header.js:236-241 | there is exactly one accordion button per nav item with a non-empty submenu |
| LogoRules.ActiveLogoFirstMatch | dist/apex-header.js:174-197 | the chosen logo is the first matching rule's (its mobile logo when asked for and present), no earlier rule matching; the default logo when none matches |
| LogoRules.GetActiveLogo | dist/apex-header.js:174-197 | the loop over the rules returns the first-match logo `ActiveLogo` |
| LogoRules.IsAlternateLogo | dist/apex-header.js:300-314 | true iff some alternate-logo rule matches the URL |
| LogoRules.EmptyPatternsNeverMatch | dist/apex-header.js:182-185 | a rule with an empty `patterns` array never matches, even when it also has a `pattern` |
| LogoRules.LogoRulesIgnoreCase | src/apex-header.js:135-145 | logo rules match a URL exactly when they match its lower-cased form |
| DistRules.UrlMatches | dist/apex-header.js:146-159 | a match needs a non-empty pattern array; absent and non-array fields never match |
| DistRules.HostnamePattern | dist/apex-header.js:152-155 | a pattern without `/` matches iff the lower-cased hostname equals it or `www.` followed by it |
| DistRules.PathPattern | dist/apex-header.js:156-157 | a pattern with `/` matches iff the lower-cased URL contains it |
| DistRules.CaseInsensitive | dist/apex-header.js:147-151 | lower-casing the patterns, URL and hostname beforehand changes no verdict |
| DistRules.OrderIrrelevant | dist/apex-header.js:150-158 | two pattern lists with the same members match the same locations |
| DistRules.ConcatMatches | dist/apex-header.js:150-158 | a joined list matches where either part matches |
| DistRules.ShouldShowHeader | dist/apex-header.js:161-172 | a `showHeaderOn` match shows the header; otherwise it shows iff `hideHeaderOn` does not match |
| DistRules.SubdomainShownOverHide | dist/apex-header.js:161-172 | `showHeaderOn: ['tires.apex-one.us']` overrides `hideHeaderOn: ['apex-one.us']` on that host |
| DistRules.HeaderShownByDefault | dist/apex-header.js:161-172 | with no hide pattern the header is shown everywhere |
| DistRules.ShouldShowCart | dist/apex-header.js:199-203 | an absent or empty `showCartOn` shows the cart; a non-empty one shows it iff it matches; a non-array never shows it |
| DistRules.IsNavItemActive | dist/apex-header.js:205-207 | active iff some `activeOn` pattern matches; never without a non-empty array |
| DistRules.ActiveFlags | dist/apex-header.js:213-218 | each nav item's `is-active` flag is decided on its own, one flag per item |
| DistRules.CartButtonShown | dist/apex-header.js:290-291 | the cart button is emitted iff the cart is enabled and `shouldShowCart` holds |
| SrcRules.UrlMatches | src/apex-header.js:127-131 | a match needs a non-empty pattern array; absent and non-array fields never match |
| SrcRules.SubstringPattern | src/apex-header.js:127-131 | any pattern matches iff the lower-cased URL contains it, `/` or not |
| SrcRules.ShouldShowCart | src/apex-header.js:158-161 | the cart is hidden exactly where `hideCartOn` matches; absent, empty or non-array shows it |
| SrcRules.IsNavItemActive | src/apex-header.js:163-165 | active iff some `activeOn` pattern occurs in the URL; never without a non-empty array |
| SrcRules.ActiveFlags | src/apex-header.js:171-176 | one `is-active` flag per nav item, each from `isNavItemActive` |
| SrcRules.CartButtonShown | src/apex-header.js:250-251 | the cart button is emitted iff the cart is enabled and `shouldShowCart` holds |
| SrcRules.SeveralItemsActive | src/apex-header.js:163-165 | on a `/race` page of `apex-one.us` both the home item and the race item are active |
| RuleVersions.DistStricterThanSrc | dist/apex-header.js:146-159 | on a URL containing its hostname, every 1.7.0 match is a 1.0.0 match |
| RuleVersions.PathPatternsAgree | dist/apex-header.js:156-157 | for patterns that all contain `/` the versions agree |
| RuleVersions.SubdomainDiffers | dist/apex-header.js:152-155 | `apex-one.us` matches a `tires.apex-one.us` page in 1.0.0 but not in 1.7.0 |
| RuleVersions.DistSkipsSubdomain | dist/apex-header.js:152-155 | in 1.7.0 the bare domain does not match its subdomain's host |
| RuleVersions.SrcMatchesSubdomain | src/apex-header.js:127-131 | in 1.0.0 the bare domain occurs in every subdomain URL |
| HeaderSpec.ScrollStep | dist/apex-header.js:727-753 | the position is always remembered; open drawer: no change; below 50: shown; down past 50: hidden; up: shown; otherwise kept |
| HeaderSpec.ScrollScenario | dist/apex-header.js:727-753 | scrolling 30, 80, 60 from the top: shown, hidden, shown |
| HeaderSpec.HiddenOnlyAfterScrollDown | dist/apex-header.js:744-746 | a hidden header implies some event moved down and ended past the threshold |
| HeaderSpec.Toggled | dist/apex-header.js:818-832 | the clicked item flips, every other item collapses, at most one stays expanded |
| HeaderSpec.ExpandAnother | dist/apex-header.js:824-831 | expanding another item leaves only that item expanded |
| HeaderSpec.CollapseExpanded | dist/apex-header.js:824-831 | clicking the expanded item collapses them all |
| HeaderSpec.TrapFocus | dist/apex-header.js:834-848 | Shift+Tab on the first element goes to the last, Tab on the last goes to the first, otherwise focus stays; focus stays in range |
| HeaderSpec.TrapFocusRoundTrip | dist/apex-header.js:834-848 | whenever Tab or Shift+Tab wraps, the opposite key brings focus back |
| HeaderSpec.DrawerFocusables | dist/apex-header.js:351-375 | the drawer always has more focusable elements than the close button's index |
| HeaderCore.CountUpdated | dist/apex-header.js:923-928 | every badge reads the count and has `has-items` iff it is positive; nothing else changes |
| HeaderCore.HeaderInvPreserved | dist/apex-header.js:727-848 | open, close, scroll, resize, keys, badges, actions, the focus timer and accordions keep "hidden while open", one expanded item and focus in range |
| HeaderCore.HiddenWhileDrawerOpen | dist/apex-header.js:730-734 | no run of scroll events reveals the header while the drawer is open |
| HeaderCore.ClosingShowsHeader | dist/apex-header.js:804-816 | closing the drawer always shows the header, whatever its state, and keeps the last scroll position |
| HeaderCore.CloseShowsScrolledHeader | dist/apex-header.js:804-816 | in the scenario scroll to 200, open, close, the header hidden by the scroll is shown again |
| HeaderCore.ClosingEvents | dist/apex-header.js:684-696 | Escape and a resize wider than 989 close an open drawer and change nothing otherwise |
| HeaderCore.TabWraps | dist/apex-header.js:704-711 | Tab in an open drawer wraps between the last and first elements; without focus in the drawer nothing changes |
| HeaderCore.ActionsDispatchedInOrder | src/apex-header.js:530-547 | any run of action clicks dispatches each action once, in order, leaves the drawer closed and the accordions, badges and timers alone |
| ContactForm.ErrorSummaryAppend | dist/apex-header.js:545-546 | the error texts are joined in order, separated by `", "` |
| ContactForm.ErrorSummaryMentionsAll | dist/apex-header.js:545-546 | every error's text appears in the joined error status |
| ContactForm.EmptyErrorListGivesEmptyStatus | dist/apex-header.js:545-551 | an empty `errors` array gives an empty error status |
| ContactForm.ContactInvPreserved | dist/apex-header.js:496-603 | open, close, submit, reply and timers keep: button disabled iff a reply is awaited, label `SUBMITTING...` only then |
| ContactForm.ReopenCancelsUnlock | dist/apex-header.js:593-603 | reopening before the unlock fires keeps the page locked |
| ContactForm.UnlockAfterClose | dist/apex-header.js:593-603 | the unlock after a close restores scrolling |
| ContactForm.ReopenAfterSuccess | dist/apex-header.js:565-591 | reopening after a success shows the button again and clears the status |
| ContactForm.SubmitCycleRestoresButton | dist/apex-header.js:556-562 | whatever the reply, the button ends enabled with its original label |
| ContactForm.SuccessClosesDrawer | dist/apex-header.js:529-542 | success: thanks text, fields cleared, button hidden, closed by its timer, then unlocked |
| ContactForm.MissingButtonStillClearsStatus | dist/apex-header.js:499-507 | without a submit button the status is still cleared and nothing else changes |
| ContactForm.ContactDrawer.constructor | dist/apex-header.js:461-464 | a new drawer is closed, with an empty status and an enabled `SUBMIT` button |
| ContactForm.ContactDrawer.Open | dist/apex-header.js:565-591 | button shown, status cleared, `is-active` set, scrolling locked |
| ContactForm.ContactDrawer.Close | dist/apex-header.js:593-603 | `is-active` removed now, unlock queued |
| ContactForm.ContactDrawer.KeyUp | dist/apex-header.js:483-487 | Escape closes an open drawer; anything else changes nothing |
| ContactForm.ContactDrawer.Input | dist/apex-header.js:395-425 | typing changes only the edited field |
| ContactForm.ContactDrawer.HandleSubmit | dist/apex-header.js:496-517 | status cleared, then button disabled and relabelled with its label saved; early exits without status, form or button |
| ContactForm.ContactDrawer.ReceiveReply | dist/apex-header.js:519-562 | success, error-list or failure status; button re-enabled and relabelled |
| ContactForm.ContactDrawer.FireTimer | dist/apex-header.js:598-602 | the unlock restores scrolling only if still closed; the 2000 ms timer closes the drawer |
| DistHeader.CloseContactIfOpen | dist/apex-header.js:789-792 | afterwards no contact drawer is open, and a closed one is untouched |
| DistHeader.DrawerOpenedPage | dist/apex-header.js:777-802 | opening the mobile drawer leaves the contact drawer closed |
| DistHeader.ActionHandled | dist/apex-header.js:850-920 | the drawer closes and the action is dispatched; `cart` closes the contact drawer and opens the cart; `contact` opens the contact drawer iff one exists or is found |
| DistHeader.PageInvPreserved | dist/apex-header.js:777-920 | the page transitions keep the header invariant, the contact invariant and the two drawers' exclusion |
| DistHeader.ContactFromDrawer | dist/apex-header.js:850-908 | `contact` from the open mobile drawer leaves only the contact drawer open, header shown, scrolling locked |
| DistHeader.DrawerOverContact | dist/apex-header.js:777-792 | opening the mobile drawer over the contact drawer closes it and queues its unlock |
| DistHeader.ContactNeverFound | dist/apex-header.js:874-908 | with no contact drawer to be found, `contact` opens nothing but is still dispatched |
| DistHeader.ApexHeader.constructor | dist/apex-header.js:615-648 | desktop and mobile logos are the first-match `ActiveLogo`, alternate flag iff some logo rule matches, active items for the location; closed drawer; contact drawer or a retry pending |
| DistHeader.ApexHeader.HandleScroll | dist/apex-header.js:727-753 | the header follows the scroll decision; nothing else changes |
| DistHeader.ApexHeader.OpenDrawer | dist/apex-header.js:777-802 | the page becomes the opened page |
| DistHeader.ApexHeader.CloseDrawer | dist/apex-header.js:804-816 | closed, header shown, focus on the toggle |
| DistHeader.ApexHeader.ToggleDrawer | dist/apex-header.js:769-775 | closes an open drawer, opens a closed one |
| DistHeader.ApexHeader.KeyDown | dist/apex-header.js:684-711 | Escape closes an open drawer; Tab inside an open drawer is trapped |
| DistHeader.ApexHeader.Resize | dist/apex-header.js:691-696 | a width above 989 closes an open drawer |
| DistHeader.ApexHeader.MoveFocus | dist/apex-header.js:834-848 | the browser moves focus, within the drawer's elements |
| DistHeader.ApexHeader.ToggleAccordion | dist/apex-header.js:818-832 | the accordion flags become the toggled flags |
| DistHeader.ApexHeader.UpdateCartCount | dist/apex-header.js:923-928 | every badge shows the count |
| DistHeader.ApexHeader.HandleAction | dist/apex-header.js:850-920 | the page becomes the handled-action page |
| DistHeader.ApexHeader.FireTimer | dist/apex-header.js:632-648 | the focus timer focuses the close button; the retry creates the contact drawer when found |
| DistHeader.ApexHeader.ContactKeyUp | dist/apex-header.js:483-487 | the contact drawer's Escape handling, the page invariant kept |
| DistHeader.ApexHeader.ContactClose | dist/apex-header.js:470-480 | the close button and overlay close the contact drawer |
| DistHeader.ApexHeader.ContactSubmit | dist/apex-header.js:496-517 | the form's submit, the page invariant kept |
| DistHeader.ApexHeader.ContactReply | dist/apex-header.js:519-562 | the reply, the page invariant kept |
| DistHeader.ApexHeader.ContactTimer | dist/apex-header.js:593-603 | the contact drawer's timers, the page invariant kept |
| DistHeader.ApexHeader.ContactInput | dist/apex-header.js:395-425 | typing into the contact form |
| DistHeader.InitApexHeader | dist/apex-header.js:950-961 | no controller iff `shouldShowHeader` is false, otherwise a fresh one in its initial state |
| SrcHeader.SrcInvPreserved | src/apex-header.js:468-482 | opening and the focus timer keep the invariant and schedule only focus timers |
| SrcHeader.ApexHeader.constructor | src/apex-header.js:326-340 | desktop and mobile logos are the first-match `ActiveLogo`, active items for the URL, closed drawer, badges at 0 when the cart is shown |
| SrcHeader.ApexHeader.HandleScroll | src/apex-header.js:418-444 | the header follows the scroll decision |
| SrcHeader.ApexHeader.OpenDrawer | src/apex-header.js:468-482 | open, header hidden, focus timer queued |
| SrcHeader.ApexHeader.CloseDrawer | src/apex-header.js:484-496 | closed, header shown, focus on the toggle |
| SrcHeader.ApexHeader.ToggleDrawer | src/apex-header.js:460-466 | closes an open drawer, opens a closed one |
| SrcHeader.ApexHeader.KeyDown | src/apex-header.js:375-402 | Escape closes an open drawer; Tab inside an open drawer is trapped |
| SrcHeader.ApexHeader.Resize | src/apex-header.js:382-387 | a width above 989 closes an open drawer |
| SrcHeader.ApexHeader.MoveFocus | src/apex-header.js:514-528 | the browser moves focus, within the drawer's elements |
| SrcHeader.ApexHeader.ToggleAccordion | src/apex-header.js:498-512 | the accordion flags become the toggled flags |
| SrcHeader.ApexHeader.UpdateCartCount | src/apex-header.js:550-555 | every badge shows the count |
| SrcHeader.ApexHeader.HandleAction | src/apex-header.js:530-547 | close an open drawer and dispatch; nothing else |
| SrcHeader.ApexHeader.FireTimer | src/apex-header.js:479-481 | the close button takes focus |

## Left out

- HTML and CSS generation (`injectStyles`, `getHeaderHTML` and the `generate*` functions) and the
  build script. The model keeps only their decisions: logos, the alternate flag, active flags,
  whether the cart button is emitted, and the count of focusable drawer elements.
- `requestAnimationFrame` coalescing of scroll events. Each modelled scroll event is one
  `handleScroll` call.
- `fetch`, `FormData` and the form's endpoint. A submission's result is the abstract `Outcome`.
- `console` logging and the `DOMContentLoaded` wait.
- Real timer delays (50, 100, 300 and 2000 ms). Timers fire in whatever order the caller chooses.
- ASCII only: `Text.Lower` lower-cases ASCII letters only. JavaScript's `toLowerCase` also maps
  non-ASCII capitals.
- `ContactForm.ErrorItem` takes how a non-string error element prints when joined as an input.
  JavaScript's string conversion of arbitrary values is not modelled.
- `DistHeader.ApexHeader.FireTimer`: when the 100 ms retry finds the contact drawer, the model
  gives the new controller a fresh state. The page's earlier controller stays bound to the same
  element, and the new one reads that element's current classes. The model does not capture this
  sharing.
- `DistHeader.ApexHeader.FireTimer`: the 50 ms focus timer moves focus to the close button even
  if the drawer has closed meanwhile. Whether the browser would focus a hidden button is not
  modelled.
- Native Tab movement between drawer elements. It is left to `MoveFocus`.
- The mobile drawer and backdrop `is-open` classes, `aria-expanded`, `aria-hidden` and the
  body's `apex-menu-open` class. All of them equal `drawerOpen` at every step, so they are not
  separate fields.
- `preventDefault` calls.
- The window globals `window.ApexHeader` and `window.updateApexCartCount`. The latter is
  `UpdateCartCount`.
- `ActionItem` values are carried but not interpreted beyond the focus count. The string passed
  to `HandleAction` is the button's `data-action`, which the markup fills from the item's
  `action` or the cart's `action`.
- Non-string patterns. A truthy non-string element of an `activeOn`, `hideHeaderOn`,
  `showHeaderOn`, `showCartOn`, `hideCartOn` or `patterns` array, or a truthy non-string
  `pattern`, makes `toLowerCase` throw a TypeError (dist/apex-header.js:151, 183, 185, 307, 309;
  src/apex-header.js:130, 142, 144), and then no header is injected. `Config.PatternField` holds
  strings only, so the model cannot express this failure.
- A `null` or `undefined` element of a reply's `errors` array makes `error.message` throw
  (dist/apex-header.js:546), and the `catch` shows the generic failure text. In the model such
  a reply is the `ContactForm.Failed` outcome, not `Rejected(ErrorList(...))`.
- `window.scrollY` is a fractional number in browsers that scroll by sub-pixels. The model takes
  scroll positions as `int`.
- DistHeader.ApexHeader.Resize and SrcHeader.ApexHeader.Resize: closing the drawer on a resize
  above 989 pixels moves focus to the hamburger toggle, as `closeDrawer` asks. At that width the
  toggle is `display: none`, so the browser would not actually focus it, and focus stays where
  it was. The model does not capture this.
