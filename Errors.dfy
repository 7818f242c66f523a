/** The controller advice that turns exceptions into HTTP responses
    (DefaultExceptionHandler). Spring picks, among the @ExceptionHandler methods,
    the one declared for the nearest ancestor of the thrown exception's class;
    here the class hierarchy is a datatype with a Parent function, the handler
    methods are a second datatype, and Resolve walks up the hierarchy to the
    first class that has a handler. */
module Errors {
  import opened Common

  const BadRequest := 400
  const Unauthorized := 401
  const Forbidden := 403
  const NotFoundStatus := 404
  const Conflict := 409
  const InternalServerError := 500

  const UnexpectedMessage := "An unexpected error occurred. Please try again later."
  const NoResourceMessage := "The requested resource was not found. Please check the URL."

  /** The exception classes that reach the handler. Intermediate framework
      classes that declare no handler (ServletException, BindException,
      TypeMismatchException, ...) are elided: they cannot change which handler
      is nearest. */
  datatype ExClass =
    | Exception
    | RuntimeException
    | AuthenticationException
    | BadCredentialsException
    | InsufficientAuthenticationException
    | UsernameNotFoundException
    | AccessDeniedException
    | NoResourceFoundException
    | ResourceNotFoundException
    | InsufficientStockException
    | DuplicateResourceException
    | RequestValidationException
    | MethodArgumentTypeMismatchException
    | MethodArgumentNotValidException
    | IllegalArgumentException
    | NullPointerException
    | IOException

  /** Direct superclass, up to the root java.lang.Exception. */
  function Parent(c: ExClass): Option<ExClass>
  {
    match c
    case Exception => None
    case RuntimeException => Some(Exception)
    case AuthenticationException => Some(RuntimeException)
    case BadCredentialsException => Some(AuthenticationException)
    case InsufficientAuthenticationException => Some(AuthenticationException)
    case UsernameNotFoundException => Some(AuthenticationException)
    case AccessDeniedException => Some(RuntimeException)
    case NoResourceFoundException => Some(Exception)
    case ResourceNotFoundException => Some(RuntimeException)
    case InsufficientStockException => Some(RuntimeException)
    case DuplicateResourceException => Some(RuntimeException)
    case RequestValidationException => Some(RuntimeException)
    case MethodArgumentTypeMismatchException => Some(RuntimeException)
    case MethodArgumentNotValidException => Some(Exception)
    case IllegalArgumentException => Some(RuntimeException)
    case NullPointerException => Some(RuntimeException)
    case IOException => Some(Exception)
  }

  /** Distance from the root; strictly smaller for the parent. */
  function Depth(c: ExClass): nat
  {
    match c
    case Exception => 0
    case RuntimeException => 1
    case AuthenticationException => 2
    case BadCredentialsException => 3
    case InsufficientAuthenticationException => 3
    case UsernameNotFoundException => 3
    case NoResourceFoundException => 1
    case MethodArgumentNotValidException => 1
    case IOException => 1
    case _ => 2
  }

  /** The class itself followed by its superclasses, nearest first. */
  function Ancestors(c: ExClass): (chain: seq<ExClass>)
    decreases Depth(c)
  {
    match Parent(c)
    case None => [c]
    case Some(p) => [c] + Ancestors(p)
  }

  /** The @ExceptionHandler methods of the advice. */
  datatype Handler =
    | OnAuthentication
    | OnNoResourceFound
    | OnResourceNotFound
    | OnInsufficientStock
    | OnDuplicateResource
    | OnRequestValidation
    | OnTypeMismatch
    | OnAccessDenied
    | OnValidation
    | OnInsufficientAuthentication
    | OnBadCredentials
    | OnUnexpected

  /** The class each handler method declares. */
  function DeclaredHandler(c: ExClass): Option<Handler>
  {
    match c
    case AuthenticationException => Some(OnAuthentication)
    case NoResourceFoundException => Some(OnNoResourceFound)
    case ResourceNotFoundException => Some(OnResourceNotFound)
    case InsufficientStockException => Some(OnInsufficientStock)
    case DuplicateResourceException => Some(OnDuplicateResource)
    case RequestValidationException => Some(OnRequestValidation)
    case MethodArgumentTypeMismatchException => Some(OnTypeMismatch)
    case AccessDeniedException => Some(OnAccessDenied)
    case MethodArgumentNotValidException => Some(OnValidation)
    case InsufficientAuthenticationException => Some(OnInsufficientAuthentication)
    case BadCredentialsException => Some(OnBadCredentials)
    case Exception => Some(OnUnexpected)
    case _ => None
  }

  /** The handler Spring invokes: the one declared for the first class along
      the superclass chain that has one, so a more specific handler always
      wins over a more general one. */
  function Resolve(c: ExClass): (h: Handler)
    ensures exists k :: 0 <= k < |Ancestors(c)| && DeclaredHandler(Ancestors(c)[k]) == Some(h)
                        && forall j :: 0 <= j < k ==> DeclaredHandler(Ancestors(c)[j]).None?
    decreases Depth(c)
  {
    match DeclaredHandler(c)
    case Some(h) => assert Ancestors(c)[0] == c; h
    case None =>
      var h := Resolve(Parent(c).value);
      NearestHandlerOfParent(c, h);
      h
  }

  /** A class without a handler of its own is handled like its parent. */
  lemma NearestHandlerOfParent(c: ExClass, h: Handler)
    requires DeclaredHandler(c).None? && Parent(c).Some?
    requires exists k :: 0 <= k < |Ancestors(Parent(c).value)| && DeclaredHandler(Ancestors(Parent(c).value)[k]) == Some(h)
                         && forall j :: 0 <= j < k ==> DeclaredHandler(Ancestors(Parent(c).value)[j]).None?
    ensures exists k :: 0 <= k < |Ancestors(c)| && DeclaredHandler(Ancestors(c)[k]) == Some(h)
                        && forall j :: 0 <= j < k ==> DeclaredHandler(Ancestors(c)[j]).None?
  {
    var up := Ancestors(Parent(c).value);
    var k :| 0 <= k < |up| && DeclaredHandler(up[k]) == Some(h)
             && forall j :: 0 <= j < k ==> DeclaredHandler(up[j]).None?;
    assert Ancestors(c) == [c] + up;
    assert DeclaredHandler(Ancestors(c)[k + 1]) == Some(h);
  }

  /** One item of BindingResult.getFieldErrors(); the default message may be null. */
  datatype FieldError = FieldError(field: string, defaultMessage: Option<string>)

  /** A thrown exception: its class, getMessage(), and for a
      MethodArgumentNotValidException its field errors in binding order. */
  datatype Thrown = Thrown(cls: ExClass, message: string, fieldErrors: seq<FieldError>)

  function Raise(cls: ExClass, message: string): Thrown
  {
    Thrown(cls, message, [])
  }

  /** The exceptions the services throw. */
  function NotFound(message: string): Thrown { Raise(ResourceNotFoundException, message) }
  function Duplicate(message: string): Thrown { Raise(DuplicateResourceException, message) }
  function InvalidArgument(message: string): Thrown { Raise(IllegalArgumentException, message) }

  /** `error.getField() + ": " + error.getDefaultMessage()`; Java prints a null message as "null". */
  function FieldErrorText(e: FieldError): string
  {
    e.field + ": " + match e.defaultMessage case Some(m) => m case None => "null"
  }

  /** String.join */
  function Join(sep: string, items: seq<string>): string
  {
    if |items| == 0 then ""
    else if |items| == 1 then items[0]
    else items[0] + sep + Join(sep, items[1..])
  }

  /** Joining a concatenation joins the parts around one separator: items keep
      their order and are separated exactly once. */
  lemma {:induction false} JoinAppend(sep: string, a: seq<string>, b: seq<string>)
    requires |a| > 0 && |b| > 0
    ensures Join(sep, a + b) == Join(sep, a) + sep + Join(sep, b)
  {
    if |a| == 1 {
      assert (a + b)[1..] == b;
    } else {
      assert (a + b)[1..] == a[1..] + b;
      JoinAppend(sep, a[1..], b);
    }
  }

  function FieldErrorTexts(errors: seq<FieldError>): (texts: seq<string>)
    ensures |texts| == |errors|
    ensures forall i :: 0 <= i < |errors| ==> texts[i] == FieldErrorText(errors[i])
  {
    seq(|errors|, i requires 0 <= i < |errors| => FieldErrorText(errors[i]))
  }

  /** The message of handleValidationException. */
  function ValidationMessage(errors: seq<FieldError>): string
  {
    Join(", ", FieldErrorTexts(errors))
  }

  /** The message of a concatenation of field errors is the two messages
      joined by ", ": the order of the field errors is kept. */
  lemma ValidationMessageAppend(a: seq<FieldError>, b: seq<FieldError>)
    requires |a| > 0 && |b| > 0
    ensures ValidationMessage(a + b) == ValidationMessage(a) + ", " + ValidationMessage(b)
  {
    assert FieldErrorTexts(a + b) == FieldErrorTexts(a) + FieldErrorTexts(b);
    JoinAppend(", ", FieldErrorTexts(a), FieldErrorTexts(b));
  }

  datatype ApiError = ApiError(path: string, message: string, status: int, timestamp: int)

  /** A ResponseEntity body: an ApiError, or the plain string of handleNoResourceFound. */
  datatype Body = Structured(error: ApiError) | Plain(text: string)

  datatype Response = Response(status: int, body: Body)

  /** The status table, one entry per handler method. */
  function StatusOf(h: Handler): int
  {
    match h
    case OnAuthentication => Unauthorized
    case OnNoResourceFound => NotFoundStatus
    case OnResourceNotFound => NotFoundStatus
    case OnInsufficientStock => Conflict
    case OnDuplicateResource => Conflict
    case OnRequestValidation => BadRequest
    case OnTypeMismatch => BadRequest
    case OnAccessDenied => Forbidden
    case OnValidation => BadRequest
    case OnInsufficientAuthentication => Forbidden
    case OnBadCredentials => Unauthorized
    case OnUnexpected => InternalServerError
  }

  /** buildResponseEntity */
  function BuildResponseEntity(requestUri: string, message: string, status: int, now: int): Response
  {
    Response(status, Structured(ApiError(requestUri, message, status, now)))
  }

  /** The response the advice produces for exception `e` raised while serving
      `requestUri` at time `now`. */
  function Handle(e: Thrown, requestUri: string, now: int): (r: Response)
    ensures r.status == StatusOf(Resolve(e.cls))
    ensures r.body.Plain? <==> Resolve(e.cls) == OnNoResourceFound
    ensures r.body.Structured? ==> r.body.error.status == r.status && r.body.error.path == requestUri
                                   && r.body.error.timestamp == now
  {
    var h := Resolve(e.cls);
    match h
    case OnNoResourceFound => Response(StatusOf(h), Plain(NoResourceMessage))
    case OnValidation => BuildResponseEntity(requestUri, ValidationMessage(e.fieldErrors), StatusOf(h), now)
    case OnUnexpected => BuildResponseEntity(requestUri, UnexpectedMessage, StatusOf(h), now)
    case _ => BuildResponseEntity(requestUri, e.message, StatusOf(h), now)
  }

  /** `sub` is `sup` or one of its subclasses. */
  predicate IsA(sub: ExClass, sup: ExClass)
  {
    sup in Ancestors(sub)
  }

  /** The subclasses of AuthenticationException among the modelled classes. */
  lemma AuthenticationSubclasses(c: ExClass)
    ensures IsA(c, AuthenticationException) <==>
            c in {AuthenticationException, BadCredentialsException, InsufficientAuthenticationException, UsernameNotFoundException}
  {
    assert Ancestors(Exception) == [Exception];
    assert Ancestors(RuntimeException) == [RuntimeException, Exception];
    assert Ancestors(AuthenticationException) == [AuthenticationException, RuntimeException, Exception];
  }

  /** Every authentication failure is answered 401 with its own message,
      except InsufficientAuthentication, whose more specific handler answers 403. */
  lemma AuthenticationFailures(e: Thrown, requestUri: string, now: int)
    requires IsA(e.cls, AuthenticationException)
    ensures Handle(e, requestUri, now) ==
            BuildResponseEntity(requestUri, e.message,
                                if e.cls == InsufficientAuthenticationException then Forbidden else Unauthorized, now)
  {
    AuthenticationSubclasses(e.cls);
  }

  /** The domain errors of the services map to 404, 409 and 400, with the
      exception's message. */
  lemma DomainErrorStatuses(message: string, requestUri: string, now: int)
    ensures Handle(Raise(ResourceNotFoundException, message), requestUri, now) == BuildResponseEntity(requestUri, message, NotFoundStatus, now)
    ensures Handle(Raise(InsufficientStockException, message), requestUri, now) == BuildResponseEntity(requestUri, message, Conflict, now)
    ensures Handle(Raise(DuplicateResourceException, message), requestUri, now) == BuildResponseEntity(requestUri, message, Conflict, now)
    ensures Handle(Raise(RequestValidationException, message), requestUri, now) == BuildResponseEntity(requestUri, message, BadRequest, now)
    ensures Handle(Raise(MethodArgumentTypeMismatchException, message), requestUri, now) == BuildResponseEntity(requestUri, message, BadRequest, now)
    ensures Handle(Raise(AccessDeniedException, message), requestUri, now) == BuildResponseEntity(requestUri, message, Forbidden, now)
  {
    DeclaredMessageHandler(ResourceNotFoundException, message, requestUri, now);
    DeclaredMessageHandler(InsufficientStockException, message, requestUri, now);
    DeclaredMessageHandler(DuplicateResourceException, message, requestUri, now);
    DeclaredMessageHandler(RequestValidationException, message, requestUri, now);
    DeclaredMessageHandler(MethodArgumentTypeMismatchException, message, requestUri, now);
    DeclaredMessageHandler(AccessDeniedException, message, requestUri, now);
  }

  /** A class with a handler of its own that forwards the message is answered
      with that handler's status and the exception's message. */
  lemma DeclaredMessageHandler(c: ExClass, message: string, requestUri: string, now: int)
    requires DeclaredHandler(c).Some?
    requires DeclaredHandler(c).value !in {OnNoResourceFound, OnValidation, OnUnexpected}
    ensures Handle(Raise(c, message), requestUri, now)
            == BuildResponseEntity(requestUri, message, StatusOf(DeclaredHandler(c).value), now)
  {
    assert Resolve(c) == DeclaredHandler(c).value;
  }

  /** Field-validation errors: 400 with the joined "field: message" items. */
  lemma ValidationResponse(errors: seq<FieldError>, message: string, requestUri: string, now: int)
    ensures Handle(Thrown(MethodArgumentNotValidException, message, errors), requestUri, now)
            == BuildResponseEntity(requestUri, ValidationMessage(errors), BadRequest, now)
  {
  }

  /** Whatever falls through to the catch-all gets 500 and a fixed text: the
      exception's own message never reaches the client. */
  lemma UnexpectedHidesMessage(e: Thrown, requestUri: string, now: int)
    requires Resolve(e.cls) == OnUnexpected
    ensures Handle(e, requestUri, now) == BuildResponseEntity(requestUri, UnexpectedMessage, InternalServerError, now)
  {
  }

  /** Exactly the classes without a handler of their own or on the way up to
      java.lang.Exception reach the catch-all; IllegalArgumentException,
      NullPointerException and IOException are among them. */
  lemma CatchAllClasses(c: ExClass)
    ensures Resolve(c) == OnUnexpected <==> c in {Exception, RuntimeException, IllegalArgumentException, NullPointerException, IOException}
  {
  }

  /** NoResourceFound is answered 404 with a fixed plain string, not an ApiError. */
  lemma NoResourceFoundIsPlain(e: Thrown, requestUri: string, now: int)
    requires e.cls == NoResourceFoundException
    ensures Handle(e, requestUri, now) == Response(NotFoundStatus, Plain(NoResourceMessage))
  {
  }
}
