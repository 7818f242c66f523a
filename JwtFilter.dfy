/** The per-request bearer-token filter (JWTAuthenticationFilter, a
    OncePerRequestFilter). The token utility is an oracle, the user-details
    service is a map from lookup key to user details, and the thread-local
    security context is an explicit object holding the request's optional
    authentication. */
module JwtFilter {
  import opened Common

  const BearerPrefix := "Bearer "
  const ExpiredMessage := "JWT token has expired"
  const InvalidMessage := "Invalid JWT token"

  /** What the user-details service returns for a subject. */
  datatype UserDetails = UserDetails(username: string, password: string, authorities: seq<string>)

  /** WebAuthenticationDetails built from the request. */
  datatype RequestDetails = RequestDetails(remoteAddress: string, sessionId: Option<string>)

  /** A UsernamePasswordAuthenticationToken: principal, credentials, authorities, details. */
  datatype Authentication = Authentication(principal: UserDetails, credentials: Option<string>,
                                           authorities: seq<string>, details: RequestDetails)

  datatype Request = Request(servletPath: string, authorization: Option<string>, details: RequestDetails)

  /** Outcome of JWTUtil.getSubject: a subject, null, or one of the two exception families. */
  datatype SubjectResult = Subject(name: string) | NullSubject | Expired | Malformed

  /** The token utility as an oracle: getSubject and isTokenValid(token, username). */
  datatype JwtUtil = JwtUtil(getSubject: string -> SubjectResult, isTokenValid: (string, string) -> bool)

  /** How the filter ends: it passes the request on to the chain, it calls the
      authentication entry point with a message (and not the chain), or the
      user-details service's not-found exception escapes it. */
  datatype FilterOutcome = ChainInvoked | EntryPoint(message: string) | LookupFailed(subject: string)

  /** The security context after the filter, and how the filter ended. */
  datatype Step = Step(authentication: Option<Authentication>, outcome: FilterOutcome)

  /** shouldNotFilter: the paths the filter skips entirely. */
  predicate ShouldNotFilter(path: string)
  {
    StartsWith(path, "/user/") || StartsWith(path, "/role/") || StartsWith(path, "/images/") || path == "/error"
  }

  /** The token carried by an Authorization header, if it uses the
      case-sensitive "Bearer " scheme: the header minus its first 7 characters. */
  function BearerToken(header: Option<string>): (token: Option<string>)
    ensures token.Some? <==> header.Some? && StartsWith(header.value, BearerPrefix)
    ensures token.Some? ==> header.value == BearerPrefix + token.value
  {
    if header.Some? && StartsWith(header.value, BearerPrefix) then Some(header.value[7..]) else None
  }

  lemma BearerRoundTrip(t: string)
    ensures BearerToken(Some(BearerPrefix + t)) == Some(t)
  {
    assert (BearerPrefix + t)[..7] == BearerPrefix;
    assert (BearerPrefix + t)[7..] == t;
  }

  /** The identity the filter installs for a looked-up user. */
  function IdentityOf(user: UserDetails, details: RequestDetails): Authentication
  {
    Authentication(user, None, user.authorities, details)
  }

  /** doFilterInternal once the token is known. */
  function Authenticate(current: Option<Authentication>, token: string, details: RequestDetails,
                        jwt: JwtUtil, store: map<string, UserDetails>): Step
  {
    match jwt.getSubject(token)
    case Expired => Step(None, EntryPoint(ExpiredMessage))
    case Malformed => Step(None, EntryPoint(InvalidMessage))
    case NullSubject => Step(current, ChainInvoked)
    case Subject(name) =>
      if current.Some? then Step(current, ChainInvoked)
      else if name !in store then Step(current, LookupFailed(name))
      else if jwt.isTokenValid(token, store[name].username) then Step(Some(IdentityOf(store[name], details)), ChainInvoked)
      else Step(current, ChainInvoked)
  }

  /** doFilterInternal as a function of the context it starts from. */
  function FilterInternal(current: Option<Authentication>, request: Request,
                          jwt: JwtUtil, store: map<string, UserDetails>): Step
  {
    match BearerToken(request.authorization)
    case None => Step(current, ChainInvoked)
    case Some(token) => Authenticate(current, token, request.details, jwt, store)
  }

  /** OncePerRequestFilter.doFilter: skipped paths go straight on to the chain. */
  function Filter(current: Option<Authentication>, request: Request,
                  jwt: JwtUtil, store: map<string, UserDetails>): Step
  {
    if ShouldNotFilter(request.servletPath) then Step(current, ChainInvoked)
    else FilterInternal(current, request, jwt, store)
  }

  /** The request's security context. */
  class SecurityContext {
    var authentication: Option<Authentication>

    constructor ()
      ensures authentication == None
    {
      authentication := None;
    }
  }

  method DoFilterInternal(request: Request, context: SecurityContext, jwt: JwtUtil, store: map<string, UserDetails>)
    returns (outcome: FilterOutcome)
    modifies context
    ensures Step(context.authentication, outcome) == FilterInternal(old(context.authentication), request, jwt, store)
  {
    var authHeader := request.authorization;
    if authHeader.None? || !StartsWith(authHeader.value, BearerPrefix) {
      return ChainInvoked;
    }
    var token := authHeader.value[7..];
    match jwt.getSubject(token) {
      case Expired =>
        context.authentication := None;
        return EntryPoint(ExpiredMessage);
      case Malformed =>
        context.authentication := None;
        return EntryPoint(InvalidMessage);
      case NullSubject =>
      case Subject(name) =>
        if context.authentication.None? {
          if name !in store {
            return LookupFailed(name);
          }
          var userDetails := store[name];
          if jwt.isTokenValid(token, userDetails.username) {
            var authentication := Authentication(userDetails, None, userDetails.authorities, request.details);
            context.authentication := Some(authentication);
          }
        }
    }
    return ChainInvoked;
  }

  method DoFilter(request: Request, context: SecurityContext, jwt: JwtUtil, store: map<string, UserDetails>)
    returns (outcome: FilterOutcome)
    modifies context
    ensures Step(context.authentication, outcome) == Filter(old(context.authentication), request, jwt, store)
  {
    if ShouldNotFilter(request.servletPath) {
      return ChainInvoked;
    }
    outcome := DoFilterInternal(request, context, jwt, store);
  }

  /** Without a "Bearer " header the request goes on to the chain with the
      context untouched and the entry point is not called. */
  lemma NoBearerPassesThrough(current: Option<Authentication>, request: Request, jwt: JwtUtil, store: map<string, UserDetails>)
    requires request.authorization.None? || !StartsWith(request.authorization.value, BearerPrefix)
    ensures FilterInternal(current, request, jwt, store) == Step(current, ChainInvoked)
  {
  }

  /** With header "Bearer " + t, the token examined is exactly t. */
  lemma TokenIsHeaderTail(current: Option<Authentication>, request: Request, t: string,
                          jwt: JwtUtil, store: map<string, UserDetails>)
    requires request.authorization == Some(BearerPrefix + t)
    ensures FilterInternal(current, request, jwt, store) == Authenticate(current, t, request.details, jwt, store)
  {
    BearerRoundTrip(t);
  }

  /** The entry point is called exactly for an expired or malformed token; the
      context is then cleared, the chain is not invoked, and the two cases
      carry different messages. */
  lemma FailureBranches(current: Option<Authentication>, request: Request, jwt: JwtUtil, store: map<string, UserDetails>)
    ensures var step := FilterInternal(current, request, jwt, store);
            var token := BearerToken(request.authorization);
            && (step.outcome == EntryPoint(ExpiredMessage) <==> token.Some? && jwt.getSubject(token.value).Expired?)
            && (step.outcome == EntryPoint(InvalidMessage) <==> token.Some? && jwt.getSubject(token.value).Malformed?)
            && (step.outcome.EntryPoint? ==>
                  step.authentication.None? && step.outcome.message in {ExpiredMessage, InvalidMessage})
  {
    assert ExpiredMessage != InvalidMessage by { assert ExpiredMessage[0] != InvalidMessage[0]; }
  }

  /** An identity already in the context is neither looked up again nor
      replaced; only a token failure clears it. */
  lemma InstalledIdentityKept(current: Option<Authentication>, request: Request, jwt: JwtUtil,
                              store: map<string, UserDetails>, otherStore: map<string, UserDetails>)
    requires current.Some?
    ensures var step := FilterInternal(current, request, jwt, store);
            && !step.outcome.LookupFailed?
            && (step.outcome == ChainInvoked ==> step.authentication == current)
    ensures FilterInternal(current, request, jwt, store) == FilterInternal(current, request, jwt, otherStore)
  {
  }

  /** With an empty context and a subject the store knows, an identity is
      installed exactly when the token is valid for the stored username, and
      the request continues either way. */
  lemma InstallIffValid(request: Request, t: string, name: string, jwt: JwtUtil, store: map<string, UserDetails>)
    requires request.authorization == Some(BearerPrefix + t)
    requires jwt.getSubject(t) == Subject(name) && name in store
    ensures FilterInternal(None, request, jwt, store) ==
            Step(if jwt.isTokenValid(t, store[name].username) then Some(IdentityOf(store[name], request.details)) else None,
                 ChainInvoked)
  {
    BearerRoundTrip(t);
  }

  /** Whatever the filter installs is a user of the store with that user's own
      authorities, never data taken from the token, and it installs nothing
      over an existing identity. */
  lemma InstalledIdentityFromStore(current: Option<Authentication>, request: Request, jwt: JwtUtil, store: map<string, UserDetails>)
    ensures var step := FilterInternal(current, request, jwt, store);
            step.authentication.Some? && step.authentication != current ==>
              && current.None?
              && step.outcome == ChainInvoked
              && step.authentication.value.principal in store.Values
              && step.authentication.value.authorities == step.authentication.value.principal.authorities
              && step.authentication.value.credentials.None?
              && step.authentication.value.details == request.details
  {
  }

  /** The skipped paths: the three prefixes and the exact error path. */
  lemma SkippedPaths()
    ensures ShouldNotFilter("/user/signup") && ShouldNotFilter("/images/a.png") && ShouldNotFilter("/error")
    ensures !ShouldNotFilter("/user") && !ShouldNotFilter("/error/") && !ShouldNotFilter("/products")
  {
    assert "/user/signup"[..6] == "/user/";
    assert "/images/a.png"[..8] == "/images/";
    assert "/error/"[1] == 'e' && "/products"[1] == 'p';
  }
}
