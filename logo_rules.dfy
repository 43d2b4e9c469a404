/**
 * The alternate-logo rules, which both versions of the header evaluate the same way:
 * every pattern is a case-insensitive substring of the URL, whatever the hostname.
 */
module LogoRules {
  import opened Text
  import opened Config

  /** `url.includes(p.toLowerCase())` with `url` the lower-cased location. */
  predicate PatternInUrl(p: string, href: string)
  {
    Contains(Lower(href), Lower(p))
  }

  /**
   * A rule matches through its `patterns` array when it has one (an empty array never
   * matches); otherwise through its single `pattern`, which must be a non-empty string.
   */
  predicate RuleMatches(rule: LogoRule, href: string)
  {
    match rule.patterns
    case Patterns(ps) => exists i | 0 <= i < |ps| :: PatternInUrl(ps[i], href)
    case _ => rule.pattern.Some? && rule.pattern.value != "" && PatternInUrl(rule.pattern.value, href)
  }

  /** The logo a matching rule supplies: the mobile one when asked for and present. */
  function LogoFor(rule: LogoRule, forMobile: bool): Logo
  {
    if forMobile && rule.mobileLogo.Some? then rule.mobileLogo.value else rule.logo
  }

  /** The logo chosen for a URL: the first matching rule's, else the default. */
  function ActiveLogo(rules: seq<LogoRule>, href: string, forMobile: bool, fallback: Logo): Logo
  {
    if rules == [] then fallback
    else if RuleMatches(rules[0], href) then LogoFor(rules[0], forMobile)
    else ActiveLogo(rules[1..], href, forMobile, fallback)
  }

  /**
   * `ActiveLogo` is first-match: the logo of the first rule, in list order, that matches
   * the URL, and the default logo when none does.
   */
  lemma {:induction false} ActiveLogoFirstMatch(rules: seq<LogoRule>, href: string, forMobile: bool, fallback: Logo)
    ensures forall i :: 0 <= i < |rules| && RuleMatches(rules[i], href)
              && (forall j :: 0 <= j < i ==> !RuleMatches(rules[j], href))
              ==> ActiveLogo(rules, href, forMobile, fallback) == LogoFor(rules[i], forMobile)
    ensures (forall i :: 0 <= i < |rules| ==> !RuleMatches(rules[i], href))
              ==> ActiveLogo(rules, href, forMobile, fallback) == fallback
  {
    if rules != [] {
      ActiveLogoFirstMatch(rules[1..], href, forMobile, fallback);
      forall i | 0 < i < |rules| && RuleMatches(rules[i], href)
                 && (forall j :: 0 <= j < i ==> !RuleMatches(rules[j], href))
        ensures ActiveLogo(rules, href, forMobile, fallback) == LogoFor(rules[i], forMobile)
      {
        assert !RuleMatches(rules[0], href);
        assert rules[1..][i - 1] == rules[i];
        forall j | 0 <= j < i - 1
          ensures !RuleMatches(rules[1..][j], href)
        {
          assert rules[1..][j] == rules[j + 1];
        }
      }
      if forall i :: 0 <= i < |rules| ==> !RuleMatches(rules[i], href) {
        forall j | 0 <= j < |rules| - 1
          ensures !RuleMatches(rules[1..][j], href)
        {
          assert rules[1..][j] == rules[j + 1];
        }
      }
    }
  }

  /** `getActiveLogo`: the rules are tried in list order and the first match decides. */
  method GetActiveLogo(rules: seq<LogoRule>, href: string, forMobile: bool, fallback: Logo) returns (logo: Logo)
    ensures logo == ActiveLogo(rules, href, forMobile, fallback)
  {
    var k := 0;
    while k < |rules|
      invariant 0 <= k <= |rules|
      invariant ActiveLogo(rules[k..], href, forMobile, fallback) == ActiveLogo(rules, href, forMobile, fallback)
    {
      if RuleMatches(rules[k], href) {
        return LogoFor(rules[k], forMobile);
      }
      assert rules[k..][1..] == rules[k + 1..];
      k := k + 1;
    }
    return fallback;
  }

  /** `isAlternateLogo`: some rule matches the URL, by the same test `GetActiveLogo` uses. */
  method IsAlternateLogo(rules: seq<LogoRule>, href: string) returns (alternate: bool)
    ensures alternate <==> exists i :: 0 <= i < |rules| && RuleMatches(rules[i], href)
  {
    var k := 0;
    while k < |rules|
      invariant 0 <= k <= |rules|
      invariant forall j :: 0 <= j < k ==> !RuleMatches(rules[j], href)
    {
      if RuleMatches(rules[k], href) {
        return true;
      }
      k := k + 1;
    }
    return false;
  }

  /** An empty `patterns` array never matches, even when a single `pattern` would. */
  lemma EmptyPatternsNeverMatch(rule: LogoRule, href: string)
    requires rule.patterns == Patterns([])
    ensures !RuleMatches(rule, href)
  {
  }

  /** Logo matching does not depend on the case of the URL. */
  lemma LogoRulesIgnoreCase(rule: LogoRule, href: string)
    ensures RuleMatches(rule, Lower(href)) == RuleMatches(rule, href)
  {
    LowerIdempotent(href);
  }
}
