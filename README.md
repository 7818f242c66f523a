# Bearer-token security, error responses and table operations of an e-commerce backend

This project models in Dafny the request-security core of a Spring e-commerce
backend, together with its exception-to-response advice and the update logic of
its user and product services:

- **JWT authentication filter** (`JwtFilter`): the skip list (`shouldNotFilter`),
  extraction of the token from a case-sensitive `Bearer ` header, the subject
  lookup, the install-once identity, and the two failure branches (expired,
  invalid) that clear the security context and call the entry point instead of
  the chain. The token utility is an oracle (`getSubject` returning a subject,
  null, an expiry or a malformed-token failure; `isTokenValid` a boolean), the
  user-details service is a map, and the security context is an object created
  for each request. `DoFilterInternal` and `DoFilter` are imperative methods
  proved against the functions `FilterInternal` and `Filter`.
- **URL authorization** (`SecurityConfig`): the ordered rule table (four
  `permitAll` rules, then `anyRequest().authenticated()`), first match wins,
  and the whole per-request pipeline: filter, then rules, on a fresh context.
- **Error responses** (`Errors`): the exception class hierarchy, Spring's choice
  of the handler declared for the nearest superclass, one status table, the
  `ApiError {path, message, status, timestamp}` body and the joined field-error
  message.
- **User table** (`Users`): lenient role resolution at signup, strict role
  names in `changeRole`, the ordered duplicate checks and default image of
  signup, and the field updates and deletions on a `map<int, User>` held by a
  `UserService` object.
- **Product table** (`Products`): the discount guard, the ordered checks of
  product creation and update, and the field updates and deletions on a
  `map<int, Product>` held by a `ProductService` object.

Behaviour of the code a reader might not expect, which the model follows:

- An unknown token subject is not turned into an "invalid token" failure: the
  user-details service's not-found exception is not among the exceptions the
  filter catches, so it escapes the filter (`FilterOutcome.LookupFailed`,
  `Verdict.LookupEscaped`).
- Signup does not reject an unknown role name: anything but "admin" or
  "moderator" (ignoring case), null included, becomes the user role. Only
  `changeRole` rejects unknown names.
- A token for a known user that `isTokenValid` rejects is not an "invalid
  token" failure either: the request continues down the chain
  unauthenticated, with no error (`JwtFilter.InstallIffValid`).
- An expired or malformed token clears the context even when an identity was
  already installed.
- A path such as `/user` is permitted by the `/user` double-star rule but is
  not skipped by the filter (whose prefix is `/user/`), so an expired token
  there is still rejected by the filter (`SecurityConfig.ExpiredTokenOnPublicRoot`).
- `updateProduct` does not recompute the stored discount percentage and does
  not check the upload's content type; its image URL is
  `http://localhost:8080/images/` + the original file name, whereas a new
  product's is `/images/` + the generated file name.
- `changePassword` stores the new password as given, without passing it
  through the password encoder that signup applies.
- Illegal-argument and null-pointer failures of the services have no handler
  of their own and reach the catch-all: 500 with a fixed message.

## Model

| member | source | states |
|---|---|---|
| `Errors.Resolve` | src/main/java/com/perso/ecomm/exception/DefaultExceptionHandler.java:27-133 | the handler chosen is the one declared for the first class along the exception's superclass chain that declares one, so the most specific handler wins |
| `Errors.Handle` | src/main/java/com/perso/ecomm/exception/DefaultExceptionHandler.java:27-133 | the response status is the status-table entry of the resolved handler; the body is a plain string exactly for NoResourceFound; every ApiError carries the response's own status, the request URI as path, and the given time |
| `Errors.AuthenticationSubclasses` | src/main/java/com/perso/ecomm/exception/DefaultExceptionHandler.java:116-126 | among the modelled exception classes, the authentication failures are AuthenticationException and its BadCredentials, InsufficientAuthentication and UsernameNotFound subclasses |
| `Errors.AuthenticationFailures` | src/main/java/com/perso/ecomm/exception/DefaultExceptionHandler.java:116-126 | every authentication failure gets an ApiError with its own message and the request URI; status 403 for InsufficientAuthentication, 401 for the others (BadCredentials, and the generic handler of lines 27-40) |
| `Errors.DomainErrorStatuses` | src/main/java/com/perso/ecomm/exception/DefaultExceptionHandler.java:62-96 | ResourceNotFound 404, InsufficientStock and DuplicateResource 409, RequestValidation and type mismatch 400, AccessDenied 403, each with the exception's message |
| `Errors.BuildResponseEntity` | src/main/java/com/perso/ecomm/exception/DefaultExceptionHandler.java:44-52 | definition of an ApiError response; see `Handle`, `DomainErrorStatuses` and `UnexpectedHidesMessage` |
| `Errors.ValidationMessage` | src/main/java/com/perso/ecomm/exception/DefaultExceptionHandler.java:100-109 | definition of the joined field-error message; see `ValidationMessageAppend` and `ValidationResponse` |
| `Errors.JoinAppend` | src/main/java/com/perso/ecomm/exception/DefaultExceptionHandler.java:109 | String.join of a concatenation is the two joins around one separator: order kept, one separator between items |
| `Errors.ValidationMessageAppend` | src/main/java/com/perso/ecomm/exception/DefaultExceptionHandler.java:100-109 | the validation message of two runs of field errors is their two messages joined by ", ", in field-error order |
| `Errors.ValidationResponse` | src/main/java/com/perso/ecomm/exception/DefaultExceptionHandler.java:98-114 | field-validation failures get 400 with the "field: defaultMessage" items joined by ", " |
| `Errors.UnexpectedHidesMessage` | src/main/java/com/perso/ecomm/exception/DefaultExceptionHandler.java:128-133 | the catch-all answers 500 with the fixed text, whatever the exception's message |
| `Errors.CatchAllClasses` | src/main/java/com/perso/ecomm/exception/DefaultExceptionHandler.java:128-133 | among the modelled exception classes, exactly Exception, RuntimeException, IllegalArgument, NullPointer and IO exceptions reach the catch-all |
| `Errors.NoResourceFoundIsPlain` | src/main/java/com/perso/ecomm/exception/DefaultExceptionHandler.java:54-59 | NoResourceFound gets 404 with the fixed plain-string body, not an ApiError |
| `JwtFilter.ShouldNotFilter` | src/main/java/com/perso/ecomm/JWT/JWTAuthenticationFilter.java:96-102 | definition of the skip list; see `SkippedPaths`, `SecurityConfig.SkippedPathsArePublic` and `SecurityConfig.PublicButFiltered` |
| `JwtFilter.Authenticate` | src/main/java/com/perso/ecomm/JWT/JWTAuthenticationFilter.java:50-91 | definition of the subject lookup, the install step and the two catch branches; see `FailureBranches`, `InstalledIdentityKept`, `InstallIffValid` and `InstalledIdentityFromStore` |
| `JwtFilter.FilterInternal` | src/main/java/com/perso/ecomm/JWT/JWTAuthenticationFilter.java:35-93 | definition of doFilterInternal on the context it starts from; see `DoFilterInternal`, `NoBearerPassesThrough`, `TokenIsHeaderTail` and `FailureBranches` |
| `JwtFilter.Filter` | src/main/java/com/perso/ecomm/JWT/JWTAuthenticationFilter.java:95-102 | definition of doFilter with its skip test; see `DoFilter` and `SecurityConfig.SkippedPathDispatched` |
| `JwtFilter.BearerToken` | src/main/java/com/perso/ecomm/JWT/JWTAuthenticationFilter.java:40-47 | a token exists exactly when the header is present and starts with "Bearer ", and then the header is "Bearer " followed by the token |
| `JwtFilter.BearerRoundTrip` | src/main/java/com/perso/ecomm/JWT/JWTAuthenticationFilter.java:47 | header "Bearer " + t yields token t |
| `JwtFilter.DoFilterInternal` | src/main/java/com/perso/ecomm/JWT/JWTAuthenticationFilter.java:35-93 | the new context and the outcome are those of `FilterInternal` applied to the old context |
| `JwtFilter.DoFilter` | src/main/java/com/perso/ecomm/JWT/JWTAuthenticationFilter.java:95-102 | skipped paths go to the chain with the context untouched; others run `DoFilterInternal` |
| `JwtFilter.NoBearerPassesThrough` | src/main/java/com/perso/ecomm/JWT/JWTAuthenticationFilter.java:40-45 | without a "Bearer " header the chain is invoked, the context is unchanged and the entry point is not called |
| `JwtFilter.TokenIsHeaderTail` | src/main/java/com/perso/ecomm/JWT/JWTAuthenticationFilter.java:47-50 | with header "Bearer " + t the filter's behaviour is that of token t |
| `JwtFilter.FailureBranches` | src/main/java/com/perso/ecomm/JWT/JWTAuthenticationFilter.java:75-91 | the entry point is called with "JWT token has expired" exactly for an expired token and with "Invalid JWT token" exactly for a malformed one; then the context is cleared and the chain not invoked |
| `JwtFilter.InstalledIdentityKept` | src/main/java/com/perso/ecomm/JWT/JWTAuthenticationFilter.java:52-53 | with an identity already installed the outcome does not depend on the user store (no lookup), and when the chain runs the identity is unchanged |
| `JwtFilter.InstallIffValid` | src/main/java/com/perso/ecomm/JWT/JWTAuthenticationFilter.java:55-73 | for a known subject and an empty context, an identity is installed exactly when the token is valid for the stored username; the chain runs either way |
| `JwtFilter.InstalledIdentityFromStore` | src/main/java/com/perso/ecomm/JWT/JWTAuthenticationFilter.java:57-69 | a newly installed identity is a user of the store with that user's authorities, no credentials and the request's details, installed only into an empty context |
| `JwtFilter.SkippedPaths` | src/main/java/com/perso/ecomm/JWT/JWTAuthenticationFilter.java:96-102 | sample paths under the prefixes and "/error" are skipped; "/user", "/error/" and "/products" are not |
| `SecurityConfig.FirstMatch` | src/main/java/com/perso/ecomm/security/SecurityFilterChainConfig.java:43-47 | the access returned is that of the lowest-index matching rule; none exactly when no rule matches |
| `SecurityConfig.CatchAllIsLast` | src/main/java/com/perso/ecomm/security/SecurityFilterChainConfig.java:43-47 | all rules but the last permit, the last is the authenticated catch-all, every path matches some rule, and a public path always meets a permit rule first |
| `SecurityConfig.Decide` | src/main/java/com/perso/ecomm/security/SecurityFilterChainConfig.java:43-47 | definition of the authorization decision from the first matching rule; see `DecideSpec` and `DecisionIgnoresIdentity` |
| `SecurityConfig.DecideSpec` | src/main/java/com/perso/ecomm/security/SecurityFilterChainConfig.java:43-47 | a path is allowed exactly when it is public or an authentication is installed |
| `SecurityConfig.DecisionIgnoresIdentity` | src/main/java/com/perso/ecomm/security/SecurityFilterChainConfig.java:43-47 | the decision depends only on whether an identity is present, not on its role or authorities |
| `SecurityConfig.SkippedPathsArePublic` | src/main/java/com/perso/ecomm/security/SecurityFilterChainConfig.java:43-46 | every path the JWT filter skips is permitted by a permit rule |
| `SecurityConfig.PublicButFiltered` | src/main/java/com/perso/ecomm/security/SecurityFilterChainConfig.java:44 | "/user" is public yet not skipped by the filter: the inclusion is strict |
| `SecurityConfig.Process` | src/main/java/com/perso/ecomm/security/SecurityFilterChainConfig.java:43-51 | definition of the per-request pipeline, filter then rules; see `HandleRequest`, `NoHeader`, `SkippedPathDispatched` and `DispatchedIsAllowed` |
| `SecurityConfig.HandleRequest` | src/main/java/com/perso/ecomm/security/SecurityFilterChainConfig.java:48-51 | the JWT filter runs first on a context created for this request only, then the rules; the verdict equals `Process` of the request alone |
| `SecurityConfig.NoHeader` | src/main/java/com/perso/ecomm/security/SecurityFilterChainConfig.java:47-50 | without a header a public path is dispatched unauthenticated and any other path is denied to the entry point |
| `SecurityConfig.SkippedPathDispatched` | src/main/java/com/perso/ecomm/security/SecurityFilterChainConfig.java:43-46 | a skipped path is dispatched unauthenticated whatever its header |
| `SecurityConfig.DispatchedIsAllowed` | src/main/java/com/perso/ecomm/security/SecurityFilterChainConfig.java:47 | a dispatched request is on a public path or carries an identity taken from the user store |
| `SecurityConfig.ExpiredTokenOnPublicRoot` | src/main/java/com/perso/ecomm/security/SecurityFilterChainConfig.java:44 | an expired token on "/user" is rejected by the filter although "/user" is public |
| `Users.LenientRole` | src/main/java/com/perso/ecomm/user/UserService.java:205-216 | definition of the role resolveRole selects; see `LenientRoleDefault` and `StrictAgreesWithLenient` |
| `Users.StrictRole` | src/main/java/com/perso/ecomm/user/UserService.java:232-239 | definition of the role changeRole's switch selects; see `RoleForChange` and `StrictAgreesWithLenient` |
| `Users.ResolveRole` | src/main/java/com/perso/ecomm/user/UserService.java:205-216 | succeeds exactly when the leniently selected role is in the role table, with that role; otherwise a not-found error |
| `Users.LenientRoleDefault` | src/main/java/com/perso/ecomm/user/UserService.java:205-216 | "admin" and "moderator" in any case select admin and moderator; null and every other name select user |
| `Users.RoleForChange` | src/main/java/com/perso/ecomm/user/UserService.java:232-240 | succeeds exactly for "admin", "moderator" or "user" once lower-cased and present in the role table; any other name fails with "Invalid role: " and the name as given |
| `Users.StrictAgreesWithLenient` | src/main/java/com/perso/ecomm/user/UserService.java:232-240 | a name changeRole accepts resolves to the same role at signup; changeRole rejects exactly the names signup turns into the user role other than the names that lower-case to "user" |
| `Users.ShouldDeleteOldImage` | src/main/java/com/perso/ecomm/user/UserService.java:122-124 | definition of the deletion guard; see `DefaultImageKept` and `OldImageDeletedIff` |
| `Users.OldImageDeletedIff` | src/main/java/com/perso/ecomm/user/UserService.java:122-124 | for every stored URL, the old image is deleted exactly when the URL has no occurrence of "default-image.png" at any index |
| `Users.DefaultImageKept` | src/main/java/com/perso/ecomm/user/UserService.java:120-124 | the default signup image and a null URL are never deleted |
| `Users.UserService.DeleteUser` | src/main/java/com/perso/ecomm/user/UserService.java:75-80 | an absent id gives the not-found error and an unchanged table; otherwise exactly that user is removed |
| `Users.UserService.UpdateUser` | src/main/java/com/perso/ecomm/user/UserService.java:82-117 | absent id: not found; non-image upload: illegal argument with the table rolled back; otherwise username, email, first and last name are overwritten, the image URL becomes "/images/users/" + file name only for a non-empty upload, everything else is kept, and the old image is deleted only when its URL is present and is not the default image |
| `Users.UserService.ChangePassword` | src/main/java/com/perso/ecomm/user/UserService.java:137-143 | absent id: not found and unchanged table; otherwise only the password field changes, to the new password as given |
| `Users.UserService.ChangeRole` | src/main/java/com/perso/ecomm/user/UserService.java:226-243 | the id is checked before the role name; on any failure the table is unchanged; on success only that user's role changes |
| `Users.UserService.RegisterNewUser` | src/main/java/com/perso/ecomm/user/UserService.java:162-203 | username taken, then email taken, then non-image upload, then role lookup fail in that order with no user saved (on a role-lookup failure the uploaded file stays written); otherwise a user with the next id, encoded password, the default or uploaded image URL and the resolved role is added; unique usernames and emails stay unique |
| `Users.UserErrorResponses` | src/main/java/com/perso/ecomm/user/UserService.java:164-239 | an unknown role name in changeRole (line 239) is answered 404, a duplicate username at signup (line 165) 409, a rejected signup upload (line 179) 500 with the fixed message |
| `Products.CalculateDiscountPercent` | src/main/java/com/perso/ecomm/product/ProductService.java:148-154 | fails exactly when 0 < priceBefore <= priceAfter, with the fixed message; otherwise yields the `percentOf` parameter applied to the two prices |
| `Products.DiscountGuard` | src/main/java/com/perso/ecomm/product/ProductService.java:148-151 | a real discount always passes, and so does any non-positive former price (0 then 10 is accepted) |
| `Products.ProductService.DeleteProduct` | src/main/java/com/perso/ecomm/product/ProductService.java:68-73 | an absent id gives the not-found error and an unchanged table; otherwise exactly that product is removed |
| `Products.ProductService.RegisterNewProduct` | src/main/java/com/perso/ecomm/product/ProductService.java:75-111 | unknown category fails first, then a missing, empty or non-image upload, then the discount guard (after the file is written); on success a product with the next id, both request prices, "/images/" + file name and the computed discount is added; on failure no product is saved (a price the guard rejects leaves the uploaded file written) |
| `Products.ProductService.UpdateProduct` | src/main/java/com/perso/ecomm/product/ProductService.java:114-133 | the product's absence is checked before the category; on success name, description, both prices, stock and category are overwritten, the image URL changes only when an upload is given, and id and discount percentage are kept |
| `Products.ProductErrorResponses` | src/main/java/com/perso/ecomm/product/ProductService.java:77-93 | an unknown category is answered 404; a rejected image, a price rejected by the guard of lines 148-151 (called at line 93) or a missing upload 500 with the fixed message |

## Left out

- The token utility's internals (signing, expiry clock, claim parsing): `getSubject` and `isTokenValid` are oracle parameters.
- The thread-local security-context holder and concurrency: each request gets its own context object.
- Exceptions thrown by the downstream filter chain inside the filter's try block are not modelled; the chain is taken to complete.
- What the authentication entry point and the delegated entry point write (DelegatedAuthEntryPoint is not part of this model); the model records only that they are called, and with which message.
- The user-details service is not part of this model: it is a map from lookup key to user details, and its not-found exception is taken to be the one that escapes the filter.
- The username/password filter that the JWT filter precedes, CSRF and CORS settings, the authentication provider, and `Config.java` (CORS origins, static resource mapping): framework wiring.
- The exception classes ResourceNotFound, DuplicateResource and RequestValidation are not part of this model; they are taken to extend RuntimeException.
- File I/O (`FileUploadUtil.saveFile`, `Files.deleteIfExists`, `Files.readAllBytes`, the upload directory initializer) and UUID file names: names are parameters and writes and deletions are reported as out-values. A failing write (IOException) is not modelled.
- `Users.UserService.UpdateUser`: reports the old image URL to delete rather than the file path it resolves to, and does not model that a failing image write would still commit the four field changes (a checked exception does not roll the transaction back).
- `Products.ProductService.RegisterNewProduct`: a missing upload is only said to fail with a null-pointer exception; its message is not modelled, since the catch-all never shows it.
- The numeric value of the discount percentage (double division and rounding): it is a function parameter; only the guard is modelled, over reals.
- Password encoding (a function parameter), `login` (foreign authentication call and token issue), `logoutUser`, `changePhoto` (raw file save to a fixed localhost URL).
- Reads and framework queries: `getUsers`, `getUserById`, paging and sorting, `getAllProducts`, `getProductsByCategory`, latest products, hot deals, `getImage`, `getProductById`.
- Null request fields other than a missing upload and a null signup role (a null content type or a null role in `changeRole` would throw a null-pointer exception).
- Case mapping is ASCII only; Java's Unicode case rules for `equalsIgnoreCase` and `toLowerCase` (locale, dotted capital I, Kelvin sign) are not modelled.
- Database unique constraints and 64-bit id overflow: generated ids are a counter.
- Method-level security (`@EnableMethodSecurity(prePostEnabled = true)`): role checks on controller methods, which are not part of this model, can still reject a `Dispatched` request with AccessDenied (403); `SecurityConfig.DecisionIgnoresIdentity` covers the URL rules only.
- Timestamps (`LocalDateTime.now()`) are a parameter; logging is not modelled.
