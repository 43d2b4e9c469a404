/**
 * The URL rule engine of version 1.7.0 (dist/apex-header.js): a pattern without `/`
 * names a hostname, a pattern with `/` is a substring of the URL.
 */
module DistRules {
  import opened Text
  import opened Config

  /** `CONFIG.rules`; an absent `rules` object has every field `Missing`. */
  datatype Rules = Rules(
    hideHeaderOn: PatternField,
    showHeaderOn: PatternField,
    showCartOn: PatternField,
    alternateLogo: seq<LogoRule>)

  datatype SiteConfig = SiteConfig(
    logo: Logo,
    nav: seq<NavItem>,
    actions: seq<ActionItem>,
    cart: CartConfig,
    rules: Rules)

  /** One pattern against the location, both sides lower-cased. */
  predicate PatternMatches(p: string, loc: Location)
  {
    var q := Lower(p);
    if '/' !in q then Lower(loc.hostname) == q || Lower(loc.hostname) == "www." + q
    else Contains(Lower(loc.href), q)
  }

  /** `urlMatches`: some pattern of an array matches; an absent or non-array field never does. */
  function UrlMatches(patterns: PatternField, loc: Location): (r: bool)
    ensures r ==> patterns.Patterns? && |patterns.ps| > 0
  {
    patterns.Patterns? && exists i | 0 <= i < |patterns.ps| :: PatternMatches(patterns.ps[i], loc)
  }

  /** A pattern without `/` matches exactly the hostname itself and its `www.` form. */
  lemma HostnamePattern(p: string, loc: Location)
    requires '/' !in p
    ensures UrlMatches(Patterns([p]), loc)
        <==> Lower(loc.hostname) == Lower(p) || Lower(loc.hostname) == "www." + Lower(p)
  {
    LowerKeepsSlash(p);
    assert PatternMatches([p][0], loc) ==> UrlMatches(Patterns([p]), loc);
  }

  /** A pattern with `/` matches exactly when the lower-cased URL contains it. */
  lemma PathPattern(p: string, loc: Location)
    requires '/' in p
    ensures UrlMatches(Patterns([p]), loc) <==> Contains(Lower(loc.href), Lower(p))
  {
    LowerKeepsSlash(p);
    assert PatternMatches([p][0], loc) ==> UrlMatches(Patterns([p]), loc);
  }

  /** Matching is case-insensitive in the patterns, the URL and the hostname. */
  lemma CaseInsensitive(ps: seq<string>, loc: Location)
    ensures UrlMatches(Patterns(LowerAll(ps)), Location(Lower(loc.href), Lower(loc.hostname)))
        == UrlMatches(Patterns(ps), loc)
  {
    var low := Location(Lower(loc.href), Lower(loc.hostname));
    LowerIdempotent(loc.href);
    LowerIdempotent(loc.hostname);
    forall i | 0 <= i < |ps|
      ensures PatternMatches(LowerAll(ps)[i], low) == PatternMatches(ps[i], loc)
    {
      LowerIdempotent(ps[i]);
    }
    if UrlMatches(Patterns(ps), loc) {
      var i :| 0 <= i < |ps| && PatternMatches(ps[i], loc);
      assert PatternMatches(LowerAll(ps)[i], low);
    }
  }

  /** Every pattern of a list lower-cased. */
  function LowerAll(ps: seq<string>): (r: seq<string>)
    ensures |r| == |ps|
    ensures forall i :: 0 <= i < |ps| ==> r[i] == Lower(ps[i])
  {
    if ps == [] then [] else [Lower(ps[0])] + LowerAll(ps[1..])
  }

  /** Only which patterns a list holds matters, not their order or repetition. */
  lemma OrderIrrelevant(ps: seq<string>, qs: seq<string>, loc: Location)
    requires forall p :: p in ps <==> p in qs
    ensures UrlMatches(Patterns(ps), loc) == UrlMatches(Patterns(qs), loc)
  {
    if UrlMatches(Patterns(ps), loc) {
      var i :| 0 <= i < |ps| && PatternMatches(ps[i], loc);
      assert ps[i] in qs;
    }
    if UrlMatches(Patterns(qs), loc) {
      var i :| 0 <= i < |qs| && PatternMatches(qs[i], loc);
      assert qs[i] in ps;
    }
  }

  /** Joining two pattern lists matches where either one does. */
  lemma ConcatMatches(ps: seq<string>, qs: seq<string>, loc: Location)
    ensures UrlMatches(Patterns(ps + qs), loc) == (UrlMatches(Patterns(ps), loc) || UrlMatches(Patterns(qs), loc))
  {
    if UrlMatches(Patterns(ps + qs), loc) {
      var i :| 0 <= i < |ps + qs| && PatternMatches((ps + qs)[i], loc);
      if i >= |ps| {
        assert PatternMatches(qs[i - |ps|], loc);
      }
    }
    if UrlMatches(Patterns(qs), loc) {
      var i :| 0 <= i < |qs| && PatternMatches(qs[i], loc);
      assert (ps + qs)[|ps| + i] == qs[i];
    }
    if UrlMatches(Patterns(ps), loc) {
      var i :| 0 <= i < |ps| && PatternMatches(ps[i], loc);
      assert (ps + qs)[i] == ps[i];
    }
  }

  /**
   * `shouldShowHeader`: a match in `showHeaderOn` shows the header whatever
   * `hideHeaderOn` says; otherwise a match in `hideHeaderOn` hides it; otherwise it shows.
   */
  function ShouldShowHeader(rules: Rules, loc: Location): (r: bool)
    ensures UrlMatches(rules.showHeaderOn, loc) ==> r
    ensures !UrlMatches(rules.showHeaderOn, loc) ==> (r <==> !UrlMatches(rules.hideHeaderOn, loc))
  {
    if UrlMatches(rules.showHeaderOn, loc) then true
    else if UrlMatches(rules.hideHeaderOn, loc) then false
    else true
  }

  /**
   * `showHeaderOn: ['tires.apex-one.us']` keeps the header on that subdomain even when
   * `hideHeaderOn: ['apex-one.us']` is set.
   */
  lemma SubdomainShownOverHide(rules: Rules, loc: Location)
    requires rules.showHeaderOn == Patterns(["tires.apex-one.us"])
    requires rules.hideHeaderOn == Patterns(["apex-one.us"])
    requires loc.hostname == "tires.apex-one.us"
    ensures ShouldShowHeader(rules, loc)
  {
    HostnamePattern("tires.apex-one.us", loc);
  }

  /** With no hide pattern the header is shown everywhere, whatever `showHeaderOn` holds. */
  lemma HeaderShownByDefault(rules: Rules, loc: Location)
    requires rules.hideHeaderOn == Missing || rules.hideHeaderOn == Patterns([])
    ensures ShouldShowHeader(rules, loc)
  {
  }

  /**
   * `shouldShowCart`: an absent or empty `showCartOn` shows the cart everywhere;
   * a non-empty array shows it exactly where it matches; a non-array value never matches.
   */
  function ShouldShowCart(rules: Rules, loc: Location): (r: bool)
    ensures rules.showCartOn == Missing || rules.showCartOn == Patterns([]) ==> r
    ensures rules.showCartOn.Patterns? && |rules.showCartOn.ps| > 0 ==> (r <==> UrlMatches(rules.showCartOn, loc))
    ensures rules.showCartOn == NotAnArray ==> !r
  {
    match rules.showCartOn
    case Missing => true
    case Patterns(ps) => if |ps| == 0 then true else UrlMatches(rules.showCartOn, loc)
    case NotAnArray => UrlMatches(rules.showCartOn, loc)
  }

  /** `isNavItemActive`: the item's `activeOn` matches; an absent or empty `activeOn` never does. */
  function IsNavItemActive(item: NavItem, loc: Location): (r: bool)
    ensures r ==> item.activeOn.Patterns? && |item.activeOn.ps| > 0
    ensures item.activeOn.Patterns? ==>
      (r <==> exists i :: 0 <= i < |item.activeOn.ps| && PatternMatches(item.activeOn.ps[i], loc))
  {
    UrlMatches(item.activeOn, loc)
  }

  /**
   * The `is-active` class of every nav item, each decided on its own: several items
   * may be active at once.
   */
  function ActiveFlags(nav: seq<NavItem>, loc: Location): (r: seq<bool>)
    ensures |r| == |nav|
    ensures forall i :: 0 <= i < |nav| ==> r[i] == IsNavItemActive(nav[i], loc)
  {
    if nav == [] then [] else [IsNavItemActive(nav[0], loc)] + ActiveFlags(nav[1..], loc)
  }

  /** The guard of `generateCartButton`: the cart button is emitted iff the cart is enabled and shown here. */
  function CartButtonShown(cfg: SiteConfig, loc: Location): (r: bool)
    ensures r ==> cfg.cart.enabled
    ensures cfg.cart.enabled ==> (r <==> ShouldShowCart(cfg.rules, loc))
  {
    cfg.cart.enabled && ShouldShowCart(cfg.rules, loc)
  }
}
