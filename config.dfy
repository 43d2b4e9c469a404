/** The header's configuration object (`CONFIG`) and the page location it is matched against. */
module Config {

  datatype Option<T> = None | Some(value: T)

  /**
   * A pattern-list field of the rules as the configuration holds it: absent (or any
   * other falsy value, which the source replaces by `[]`), an array of pattern strings,
   * or a truthy value that is not an array.
   */
  datatype PatternField = Missing | Patterns(ps: seq<string>) | NotAnArray

  /** `window.location.href` and `window.location.hostname`. */
  datatype Location = Location(href: string, hostname: string)

  datatype Logo = Logo(src: string, alt: string, href: string)

  datatype SubLink = SubLink(title: string, href: string)

  /** A navigation item; a `null` submenu is the empty sequence. */
  datatype NavItem = NavItem(title: string, href: string, submenu: seq<SubLink>, activeOn: PatternField)

  datatype ActionKind = LinkAction | ButtonAction

  /** An entry of `CONFIG.actions`; a button carries the action name it dispatches. */
  datatype ActionItem = ActionItem(title: string, href: Option<string>, kind: ActionKind, action: Option<string>)

  datatype CartConfig = CartConfig(enabled: bool, action: string)

  /**
   * An `alternateLogo` rule: a `patterns` array or, failing one, a single `pattern`
   * (`None` when absent), the logo and an optional mobile logo.
   */
  datatype LogoRule = LogoRule(patterns: PatternField, pattern: Option<string>, logo: Logo, mobileLogo: Option<Logo>)

  /** The positions of the nav items that get an accordion button in the mobile drawer. */
  function AccordionItems(nav: seq<NavItem>): set<nat>
  {
    set i: nat | i < |nav| && |nav[i].submenu| > 0
  }

  /** The number of accordion buttons, counted item by item from the end of the list. */
  function AccordionCount(nav: seq<NavItem>): (n: nat)
    ensures n <= |nav|
  {
    if nav == [] then 0
    else AccordionCount(nav[..|nav| - 1]) + (if |nav[|nav| - 1].submenu| > 0 then 1 else 0)
  }

  /** There is one accordion button per nav item with a non-empty submenu, and no other. */
  lemma {:induction false} AccordionCountIsItemsWithSubmenu(nav: seq<NavItem>)
    ensures AccordionCount(nav) == |AccordionItems(nav)|
  {
    if nav != [] {
      var last := |nav| - 1;
      var front := nav[..last];
      AccordionCountIsItemsWithSubmenu(front);
      var tail: set<nat> := if |nav[last].submenu| > 0 then {last} else {};
      assert AccordionItems(nav) == AccordionItems(front) + tail;
      assert last !in AccordionItems(front);
    }
  }
}
