/** How the two versions' `urlMatches` relate. */
module RuleVersions {
  import opened Text
  import opened Config
  import opened LogoRules
  import DistRules
  import SrcRules

  /**
   * On a real location, whose URL contains its hostname, every match of version 1.7.0
   * is also a match of version 1.0.0: the hostname rule only narrows the substring rule.
   */
  lemma DistStricterThanSrc(f: PatternField, loc: Location)
    requires Contains(Lower(loc.href), Lower(loc.hostname))
    ensures DistRules.UrlMatches(f, loc) ==> SrcRules.UrlMatches(f, loc.href)
  {
    if DistRules.UrlMatches(f, loc) {
      var i :| 0 <= i < |f.ps| && DistRules.PatternMatches(f.ps[i], loc);
      var q := Lower(f.ps[i]);
      if '/' !in q && Lower(loc.hostname) == "www." + q {
        ContainsSuffix(Lower(loc.href), "www.", q);
      }
      assert PatternInUrl(f.ps[i], loc.href);
    }
  }

  /** For patterns that all contain `/` the two versions agree. */
  lemma PathPatternsAgree(ps: seq<string>, loc: Location)
    requires forall i :: 0 <= i < |ps| ==> '/' in ps[i]
    ensures DistRules.UrlMatches(Patterns(ps), loc) == SrcRules.UrlMatches(Patterns(ps), loc.href)
  {
    forall i | 0 <= i < |ps|
      ensures DistRules.PatternMatches(ps[i], loc) == PatternInUrl(ps[i], loc.href)
    {
      LowerKeepsSlash(ps[i]);
    }
  }

  /**
   * Where they differ: the bare domain `apex-one.us` matches a page of the
   * `tires.apex-one.us` subdomain in version 1.0.0 but not in version 1.7.0.
   */
  lemma SubdomainDiffers(scheme: string, path: string)
    ensures !DistRules.UrlMatches(Patterns(["apex-one.us"]),
                                  Location(scheme + "tires.apex-one.us" + path, "tires.apex-one.us"))
    ensures SrcRules.UrlMatches(Patterns(["apex-one.us"]), scheme + "tires.apex-one.us" + path)
  {
    DistSkipsSubdomain(Location(scheme + "tires.apex-one.us" + path, "tires.apex-one.us"));
    SrcMatchesSubdomain(scheme, path);
  }

  /** Version 1.7.0: a hostname pattern does not reach down to a subdomain. */
  lemma DistSkipsSubdomain(loc: Location)
    requires loc.hostname == "tires.apex-one.us"
    ensures !DistRules.UrlMatches(Patterns(["apex-one.us"]), loc)
  {
    DistRules.HostnamePattern("apex-one.us", loc);
    assert |Lower(loc.hostname)| == 17 && |Lower("apex-one.us")| == 11;
  }

  /** Version 1.0.0: the same pattern is a substring of every subdomain URL. */
  lemma SrcMatchesSubdomain(scheme: string, path: string)
    ensures SrcRules.UrlMatches(Patterns(["apex-one.us"]), scheme + "tires.apex-one.us" + path)
  {
    var href := scheme + "tires.apex-one.us" + path;
    assert "tires.apex-one.us" == "tires." + "apex-one.us";
    assert href == (scheme + "tires.") + "apex-one.us" + path;
    ContainsLowered(scheme + "tires.", "apex-one.us", path);
    SrcRules.SubstringPattern("apex-one.us", href);
  }
}
