/**
 * The URL rule engine of version 1.0.0 (src/apex-header.js): every pattern is a
 * case-insensitive substring of the URL; the hostname plays no part.
 */
module SrcRules {
  import opened Text
  import opened Config
  import opened LogoRules

  /** `CONFIG.rules` of this version: a cart-hiding list and the logo rules. */
  datatype Rules = Rules(hideCartOn: PatternField, alternateLogo: seq<LogoRule>)

  datatype SiteConfig = SiteConfig(
    logo: Logo,
    nav: seq<NavItem>,
    actions: seq<ActionItem>,
    cart: CartConfig,
    rules: Rules)

  /** `urlMatches`: some pattern of an array, lower-cased, occurs in the lower-cased URL. */
  function UrlMatches(patterns: PatternField, href: string): (r: bool)
    ensures r ==> patterns.Patterns? && |patterns.ps| > 0
  {
    patterns.Patterns? && exists i | 0 <= i < |patterns.ps| :: PatternInUrl(patterns.ps[i], href)
  }

  /** A single pattern matches exactly when the lower-cased URL contains it, `/` or not. */
  lemma SubstringPattern(p: string, href: string)
    ensures UrlMatches(Patterns([p]), href) <==> Contains(Lower(href), Lower(p))
  {
    assert PatternInUrl([p][0], href) ==> UrlMatches(Patterns([p]), href);
  }

  /**
   * `shouldShowCart`: the cart is hidden exactly where `hideCartOn` matches, so an
   * absent, empty or non-array `hideCartOn` shows it everywhere.
   */
  function ShouldShowCart(rules: Rules, href: string): (r: bool)
    ensures rules.hideCartOn == Missing || rules.hideCartOn == Patterns([]) || rules.hideCartOn == NotAnArray ==> r
    ensures rules.hideCartOn.Patterns? ==>
      (!r <==> exists i :: 0 <= i < |rules.hideCartOn.ps| && PatternInUrl(rules.hideCartOn.ps[i], href))
  {
    !UrlMatches(rules.hideCartOn, href)
  }

  /** `isNavItemActive`: the item's `activeOn` matches; a `null` or empty `activeOn` never does. */
  function IsNavItemActive(item: NavItem, href: string): (r: bool)
    ensures r ==> item.activeOn.Patterns? && |item.activeOn.ps| > 0
    ensures item.activeOn.Patterns? ==>
      (r <==> exists i :: 0 <= i < |item.activeOn.ps| && PatternInUrl(item.activeOn.ps[i], href))
  {
    UrlMatches(item.activeOn, href)
  }

  /** The `is-active` class of every nav item, each decided on its own. */
  function ActiveFlags(nav: seq<NavItem>, href: string): (r: seq<bool>)
    ensures |r| == |nav|
    ensures forall i :: 0 <= i < |nav| ==> r[i] == IsNavItemActive(nav[i], href)
  {
    if nav == [] then [] else [IsNavItemActive(nav[0], href)] + ActiveFlags(nav[1..], href)
  }

  /** The guard of `generateCartButton`: emitted iff the cart is enabled and not hidden here. */
  function CartButtonShown(cfg: SiteConfig, href: string): (r: bool)
    ensures r ==> cfg.cart.enabled
    ensures cfg.cart.enabled ==> (r <==> ShouldShowCart(cfg.rules, href))
  {
    cfg.cart.enabled && ShouldShowCart(cfg.rules, href)
  }

  /**
   * Items are judged one by one: on a `/race` page of the main site (any URL of the
   * form `<scheme>apex-one.us/race`) both the first item (`activeOn: ['apex-one.us']`)
   * and the second (`activeOn: ['/race', ...]`) are active.
   */
  lemma SeveralItemsActive(home: NavItem, race: NavItem, scheme: string)
    requires home.activeOn == Patterns(["apex-one.us"])
    requires race.activeOn == Patterns(["/race", "squarespace.com/race", "/marketplace"])
    ensures IsNavItemActive(home, scheme + "apex-one.us" + "/race")
    ensures IsNavItemActive(race, scheme + "apex-one.us" + "/race")
  {
    var href := scheme + "apex-one.us" + "/race";
    ContainsLowered(scheme, "apex-one.us", "/race");
    assert PatternInUrl(home.activeOn.ps[0], href);
    assert href == (scheme + "apex-one.us") + "/race" + "";
    ContainsLowered(scheme + "apex-one.us", "/race", "");
    assert PatternInUrl(race.activeOn.ps[0], href);
  }
}
