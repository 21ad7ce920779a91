/**
 * SecurityConfig: the authorization rules of the HTTP filter chain, and the CORS configuration
 * it registers. The rules are an ordered list; the first rule whose matcher accepts the request
 * decides it.
 */
module SecurityConfig {
  import opened Wrappers
  import Strings
  import CorsResponseFilter

  datatype Access = PermitAll | Authenticated

  /**
   * A path pattern of the rules: `Subtree(b)` is the pattern b followed by a slash and two stars,
   * which matches the path b and every path below it; `Exact(p)` matches only p.
   */
  datatype Pattern = Subtree(base: string) | Exact(path: string)

  /**
   * A request matcher: a list of path patterns, optionally for one HTTP method only, or
   * `anyRequest()`.
   */
  datatype Matcher = Paths(httpMethod: Option<string>, patterns: seq<Pattern>) | AnyRequest

  datatype Rule = Rule(matcher: Matcher, access: Access)

  predicate PatternMatches(pattern: Pattern, path: string) {
    match pattern
    case Subtree(base) => path == base || Strings.StartsWith(path, base + "/")
    case Exact(p) => path == p
  }

  predicate MatcherAccepts(m: Matcher, httpMethod: string, path: string) {
    match m
    case AnyRequest => true
    case Paths(only, patterns) =>
      (only.None? || only.value == httpMethod) && exists k :: 0 <= k < |patterns| && PatternMatches(patterns[k], path)
  }

  /** The rules of `securityFilterChain`, in the order they are declared. */
  const Rules: seq<Rule> := [
    Rule(Paths(None, [Subtree("/api/auth")]), PermitAll),
    Rule(Paths(None, [Subtree("/v3/api-docs"), Subtree("/swagger-ui"), Exact("/swagger-ui.html")]), PermitAll),
    Rule(Paths(Some("GET"), [Subtree("/api/products")]), PermitAll),
    Rule(Paths(Some("GET"), [Subtree("/api/categories")]), PermitAll),
    Rule(Paths(Some("GET"), [Subtree("/api/brands")]), PermitAll),
    Rule(Paths(Some("GET"), [Subtree("/api/reviews/product")]), PermitAll),
    Rule(Paths(Some("OPTIONS"), [Subtree("")]), PermitAll),
    Rule(AnyRequest, Authenticated)
  ]

  /** The first matching rule's access; None when no rule matches. */
  function Decide(rules: seq<Rule>, httpMethod: string, path: string): (r: Option<Access>)
    ensures r.None? <==> forall k :: 0 <= k < |rules| ==> !MatcherAccepts(rules[k].matcher, httpMethod, path)
    ensures r.Some? ==> exists k :: 0 <= k < |rules| && MatcherAccepts(rules[k].matcher, httpMethod, path) && r.value == rules[k].access
    decreases |rules|
  {
    if |rules| == 0 then None
    else if MatcherAccepts(rules[0].matcher, httpMethod, path) then Some(rules[0].access)
    else
      var r := Decide(rules[1..], httpMethod, path);
      assert forall k :: 0 < k < |rules| ==> rules[k] == rules[1..][k - 1];
      r
  }

  /** `path` is the base path or lies below it. */
  predicate Under(base: string, path: string) {
    path == base || Strings.StartsWith(path, base + "/")
  }

  /** The public endpoints, spelled out. */
  predicate IsPublic(httpMethod: string, path: string) {
    || Under("/api/auth", path)
    || Under("/v3/api-docs", path) || Under("/swagger-ui", path) || path == "/swagger-ui.html"
    || (httpMethod == "GET" &&
        (Under("/api/products", path) || Under("/api/categories", path) || Under("/api/brands", path)
         || Under("/api/reviews/product", path)))
    || httpMethod == "OPTIONS"
  }

  /**
   * Every request is decided, and for a request path starting with `/` it is let through without
   * authentication exactly when it is one of the public endpoints; everything else needs an
   * authenticated user.
   */
  lemma DecideSpec(httpMethod: string, path: string)
    requires Strings.StartsWith(path, "/")
    ensures Decide(Rules, httpMethod, path) == if IsPublic(httpMethod, path) then Some(PermitAll) else Some(Authenticated)
  {
    var r := Rules;
    RulesSpelledOut(httpMethod, path);
    var d := Decide(Rules, httpMethod, path);
    if IsPublic(httpMethod, path) {
      assert d.Some?;
      var k :| 0 <= k < |r| && MatcherAccepts(r[k].matcher, httpMethod, path) && d.value == r[k].access;
    }
    DecideFirst(Rules, httpMethod, path);
  }

  /** What each rule's matcher accepts, spelled out. */
  lemma RulesSpelledOut(httpMethod: string, path: string)
    requires Strings.StartsWith(path, "/")
    ensures var r := Rules;
      && MatcherAccepts(r[7].matcher, httpMethod, path)
      && (MatcherAccepts(r[0].matcher, httpMethod, path) <==> Under("/api/auth", path))
      && (MatcherAccepts(r[1].matcher, httpMethod, path) <==>
          Under("/v3/api-docs", path) || Under("/swagger-ui", path) || path == "/swagger-ui.html")
      && (MatcherAccepts(r[2].matcher, httpMethod, path) <==> httpMethod == "GET" && Under("/api/products", path))
      && (MatcherAccepts(r[3].matcher, httpMethod, path) <==> httpMethod == "GET" && Under("/api/categories", path))
      && (MatcherAccepts(r[4].matcher, httpMethod, path) <==> httpMethod == "GET" && Under("/api/brands", path))
      && (MatcherAccepts(r[5].matcher, httpMethod, path) <==> httpMethod == "GET" && Under("/api/reviews/product", path))
      && (MatcherAccepts(r[6].matcher, httpMethod, path) <==> httpMethod == "OPTIONS")
  {
    var r := Rules;
    assert MatcherAccepts(r[7].matcher, httpMethod, path);
    assert MatcherAccepts(r[0].matcher, httpMethod, path) <==> Under("/api/auth", path) by {
      assert r[0].matcher.patterns[0] == Subtree("/api/auth");
    }
    assert MatcherAccepts(r[1].matcher, httpMethod, path) <==>
      Under("/v3/api-docs", path) || Under("/swagger-ui", path) || path == "/swagger-ui.html" by {
      var ps := r[1].matcher.patterns;
      assert ps[0] == Subtree("/v3/api-docs") && ps[1] == Subtree("/swagger-ui") && ps[2] == Exact("/swagger-ui.html");
    }
    assert MatcherAccepts(r[2].matcher, httpMethod, path) <==> httpMethod == "GET" && Under("/api/products", path) by {
      assert r[2].matcher.patterns[0] == Subtree("/api/products");
    }
    assert MatcherAccepts(r[3].matcher, httpMethod, path) <==> httpMethod == "GET" && Under("/api/categories", path) by {
      assert r[3].matcher.patterns[0] == Subtree("/api/categories");
    }
    assert MatcherAccepts(r[4].matcher, httpMethod, path) <==> httpMethod == "GET" && Under("/api/brands", path) by {
      assert r[4].matcher.patterns[0] == Subtree("/api/brands");
    }
    assert MatcherAccepts(r[5].matcher, httpMethod, path) <==> httpMethod == "GET" && Under("/api/reviews/product", path) by {
      assert r[5].matcher.patterns[0] == Subtree("/api/reviews/product");
    }
    assert MatcherAccepts(r[6].matcher, httpMethod, path) <==> httpMethod == "OPTIONS" by {
      assert r[6].matcher.patterns[0] == Subtree("");
    }
  }

  /** The rule that decides is the first that matches. */
  lemma {:induction false} DecideFirst(rules: seq<Rule>, httpMethod: string, path: string)
    ensures Decide(rules, httpMethod, path).Some? ==>
      exists k :: 0 <= k < |rules| && MatcherAccepts(rules[k].matcher, httpMethod, path) &&
        Decide(rules, httpMethod, path).value == rules[k].access &&
        forall j :: 0 <= j < k ==> !MatcherAccepts(rules[j].matcher, httpMethod, path)
    decreases |rules|
  {
    if |rules| > 0 && !MatcherAccepts(rules[0].matcher, httpMethod, path) {
      DecideFirst(rules[1..], httpMethod, path);
      if Decide(rules, httpMethod, path).Some? {
        var k :| 0 <= k < |rules[1..]| && MatcherAccepts(rules[1..][k].matcher, httpMethod, path) &&
          Decide(rules[1..], httpMethod, path).value == rules[1..][k].access &&
          forall j :: 0 <= j < k ==> !MatcherAccepts(rules[1..][j].matcher, httpMethod, path);
        assert forall j :: 0 < j < k + 1 ==> rules[j] == rules[1..][j - 1];
        assert rules[k + 1] == rules[1..][k];
      }
    }
  }

  /** The CORS settings `corsConfigurationSource` registers for every path. */
  datatype CorsConfiguration = CorsConfiguration(
    allowedOrigins: seq<string>,
    allowedMethods: seq<string>,
    allowedHeaders: seq<string>,
    allowCredentials: bool,
    maxAge: int)

  /**
   * `corsConfigurationSource`. Its origin list is built by the same rule as the response filter's
   * (the source repeats the loop), so the model builds it with the filter's `BuildOrigins`.
   */
  method CorsConfigurationSource(extra: Option<string>) returns (cfg: CorsConfiguration)
    ensures cfg.allowedOrigins == CorsResponseFilter.OriginList(extra)
    ensures cfg.allowedMethods == ["GET", "POST", "PUT", "DELETE", "OPTIONS"]
    ensures cfg.allowedHeaders == ["Authorization", "Content-Type", "Accept"]
    ensures cfg.allowCredentials && cfg.maxAge == 3600
  {
    var origins := CorsResponseFilter.BuildOrigins(extra);
    cfg := CorsConfiguration(origins, ["GET", "POST", "PUT", "DELETE", "OPTIONS"], ["Authorization", "Content-Type", "Accept"], true, 3600);
  }
}
