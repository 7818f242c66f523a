/** The HTTP security configuration (SecurityFilterChainConfig): an ordered
    table of URL rules, first match wins, evaluated after the JWT filter on a
    security context that is fresh for every request (stateless sessions). */
module SecurityConfig {
  import opened Common
  import JwtFilter

  /** A request matcher: a double-star pattern on a base path, an exact path, or anyRequest(). */
  datatype Matcher = Subtree(base: string) | Exact(path: string) | AnyRequest

  datatype Access = PermitAll | Authenticated

  datatype Rule = Rule(matcher: Matcher, access: Access)

  /** The rules in declaration order. */
  const Rules: seq<Rule> := [
    Rule(Subtree("/images"), PermitAll),
    Rule(Subtree("/user"), PermitAll),
    Rule(Subtree("/role"), PermitAll),
    Rule(Exact("/error"), PermitAll),
    Rule(AnyRequest, Authenticated)
  ]

  /** A double-star pattern matches its base path itself and everything below it. */
  predicate Matches(m: Matcher, path: string)
  {
    match m
    case Subtree(base) => path == base || StartsWith(path, base + "/")
    case Exact(p) => path == p
    case AnyRequest => true
  }

  /** The access of the first rule that matches, if any. */
  function FirstMatch(rules: seq<Rule>, path: string): (r: Option<Access>)
    ensures r.None? <==> forall i :: 0 <= i < |rules| ==> !Matches(rules[i].matcher, path)
    ensures r.Some? ==> exists i :: 0 <= i < |rules| && Matches(rules[i].matcher, path) && rules[i].access == r.value
                                    && forall j :: 0 <= j < i ==> !Matches(rules[j].matcher, path)
  {
    if rules == [] then None
    else if Matches(rules[0].matcher, path) then Some(rules[0].access)
    else
      var r := FirstMatch(rules[1..], path);
      assert forall i :: 1 <= i < |rules| ==> rules[i] == rules[1..][i - 1];
      r
  }

  /** The paths some permitAll rule matches. */
  predicate IsPublic(path: string)
  {
    exists i :: 0 <= i < |Rules| && Rules[i].access == PermitAll && Matches(Rules[i].matcher, path)
  }

  datatype Decision = Allow | Deny

  /** The authorization decision for a path, given the request's context. */
  function Decide(path: string, authentication: Option<JwtFilter.Authentication>): Decision
  {
    match FirstMatch(Rules, path)
    case Some(PermitAll) => Allow
    case Some(Authenticated) => if authentication.Some? then Allow else Deny
    case None => Deny
  }

  /** Every rule but the last permits, and the last matches everything: so a
      permit rule that matches is never overridden, and no path is unmatched. */
  lemma CatchAllIsLast(path: string)
    ensures forall i :: 0 <= i < |Rules| - 1 ==> Rules[i].access == PermitAll
    ensures Rules[|Rules| - 1] == Rule(AnyRequest, Authenticated)
    ensures FirstMatch(Rules, path).Some?
    ensures IsPublic(path) ==> FirstMatch(Rules, path) == Some(PermitAll)
  {
    assert Matches(Rules[4].matcher, path);
  }

  /** Public paths are allowed whatever the identity; every other path is
      allowed exactly when an authentication is installed. */
  lemma DecideSpec(path: string, authentication: Option<JwtFilter.Authentication>)
    ensures Decide(path, authentication) == Allow <==> IsPublic(path) || authentication.Some?
  {
    CatchAllIsLast(path);
    var r := FirstMatch(Rules, path);
    if r == Some(Authenticated) {
      var i :| 0 <= i < |Rules| && Matches(Rules[i].matcher, path) && Rules[i].access == Authenticated
               && forall j :: 0 <= j < i ==> !Matches(Rules[j].matcher, path);
      assert i == 4;
    }
  }

  /** The decision reads only whether an identity is present: never its
      principal, authorities or role. */
  lemma DecisionIgnoresIdentity(path: string, a: Option<JwtFilter.Authentication>, b: Option<JwtFilter.Authentication>)
    requires a.Some? == b.Some?
    ensures Decide(path, a) == Decide(path, b)
  {
  }

  /** Every path the JWT filter skips is public. */
  lemma {:induction false} SkippedPathsArePublic(path: string)
    ensures JwtFilter.ShouldNotFilter(path) ==> IsPublic(path)
  {
    if JwtFilter.ShouldNotFilter(path) {
      if StartsWith(path, "/images/") {
        assert Matches(Rules[0].matcher, path);
      } else if StartsWith(path, "/user/") {
        assert Matches(Rules[1].matcher, path);
      } else if StartsWith(path, "/role/") {
        assert Matches(Rules[2].matcher, path);
      } else {
        assert Matches(Rules[3].matcher, path);
      }
    }
  }

  /** The inclusion is strict: "/user" is public but still filtered. */
  lemma PublicButFiltered()
    ensures IsPublic("/user") && !JwtFilter.ShouldNotFilter("/user")
  {
    assert Matches(Rules[1].matcher, "/user");
  }

  /** What becomes of a request: it reaches the controllers with the identity
      the filter left, the filter calls the entry point, the user lookup's
      exception escapes the filter, or authorization denies it and the
      delegated entry point is called. */
  datatype Verdict =
    | Dispatched(identity: Option<JwtFilter.Authentication>)
    | FilterRejected(message: string)
    | LookupEscaped(subject: string)
    | Denied

  /** The security pipeline for one request: the JWT filter on an empty
      context, then the authorization rules. */
  function Process(request: JwtFilter.Request, jwt: JwtFilter.JwtUtil, store: map<string, JwtFilter.UserDetails>): Verdict
  {
    var step := JwtFilter.Filter(None, request, jwt, store);
    match step.outcome
    case EntryPoint(message) => FilterRejected(message)
    case LookupFailed(subject) => LookupEscaped(subject)
    case ChainInvoked =>
      if Decide(request.servletPath, step.authentication) == Allow then Dispatched(step.authentication) else Denied
  }

  /** Runs the filter chain for one request on a context created for it alone. */
  method HandleRequest(request: JwtFilter.Request, jwt: JwtFilter.JwtUtil, store: map<string, JwtFilter.UserDetails>)
    returns (verdict: Verdict)
    ensures verdict == Process(request, jwt, store)
  {
    var context := new JwtFilter.SecurityContext();
    var outcome := JwtFilter.DoFilter(request, context, jwt, store);
    match outcome {
      case EntryPoint(message) => verdict := FilterRejected(message);
      case LookupFailed(subject) => verdict := LookupEscaped(subject);
      case ChainInvoked =>
        var decision := Decide(request.servletPath, context.authentication);
        verdict := if decision == Allow then Dispatched(context.authentication) else Denied;
    }
  }

  /** A request without a header reaches the controllers unauthenticated when
      the path is public, and is denied otherwise. */
  lemma NoHeader(request: JwtFilter.Request, jwt: JwtFilter.JwtUtil, store: map<string, JwtFilter.UserDetails>)
    requires request.authorization.None?
    ensures Process(request, jwt, store) == if IsPublic(request.servletPath) then Dispatched(None) else Denied
  {
    DecideSpec(request.servletPath, None);
  }

  /** A skipped path reaches the controllers unauthenticated, whatever its header. */
  lemma SkippedPathDispatched(request: JwtFilter.Request, jwt: JwtFilter.JwtUtil, store: map<string, JwtFilter.UserDetails>)
    requires JwtFilter.ShouldNotFilter(request.servletPath)
    ensures Process(request, jwt, store) == Dispatched(None)
  {
    SkippedPathsArePublic(request.servletPath);
    DecideSpec(request.servletPath, None);
  }

  /** A request that reaches the controllers is on a public path or carries
      an identity installed by the filter from the user store. */
  lemma DispatchedIsAllowed(request: JwtFilter.Request, jwt: JwtFilter.JwtUtil, store: map<string, JwtFilter.UserDetails>)
    ensures var v := Process(request, jwt, store);
            v.Dispatched? ==> IsPublic(request.servletPath) || (v.identity.Some? && v.identity.value.principal in store.Values)
  {
    DecideSpec(request.servletPath, JwtFilter.Filter(None, request, jwt, store).authentication);
    JwtFilter.InstalledIdentityFromStore(None, request, jwt, store);
  }

  /** An expired token on a filtered path is rejected by the filter even when
      the path is public: "/user" matches the "/user" double-star rule but not the skip prefix "/user/". */
  lemma ExpiredTokenOnPublicRoot(t: string, details: JwtFilter.RequestDetails, store: map<string, JwtFilter.UserDetails>)
    ensures var jwt := JwtFilter.JwtUtil(token => JwtFilter.Expired, (token, username) => false);
            Process(JwtFilter.Request("/user", Some(JwtFilter.BearerPrefix + t), details), jwt, store)
              == FilterRejected(JwtFilter.ExpiredMessage)
  {
    PublicButFiltered();
    JwtFilter.BearerRoundTrip(t);
  }
}
