/** The global route middleware of the application: on every client-side
    navigation it reads the stored session token and decides whether the
    navigation proceeds, is sent home ("/"), or is sent to the login page.

    The three parts of the source are modelled in order:
      - the route classifier `isPublicRoute`  -> IsPublicRoute
      - the credential check `isTokenValid`   -> IsTokenValid
      - the middleware body                   -> Middleware / Decide
    The browser storage read and the clock reads become parameters; the JWT
    payload decoder of the `jwt-decode` library becomes the parameter
    `decode`. */
module AuthGlobal {

  import opened Wrappers

  // ---------------------------------------------------------------------
  // Configuration: the fixed paths the middleware knows about
  // ---------------------------------------------------------------------

  /** The authentication entry point, public and the target of redirects. */
  const LoginPath: string := "/login"

  /** The self-registration entry point, public. */
  const RegisterPath: string := "/register"

  /** Where an authenticated session that asks for the login page is sent. */
  const HomePath: string := "/"

  /** The public routes, in the order the source lists them. */
  const PublicRoutes: seq<string> := [LoginPath, RegisterPath]

  // ---------------------------------------------------------------------
  // Route classifier
  // ---------------------------------------------------------------------

  /** `Array.prototype.includes` on an array of strings: a scan from the
      front comparing each element with strict equality. */
  function Includes(list: seq<string>, x: string): (r: bool)
    ensures r <==> x in list
  {
    if |list| == 0 then false
    else list[0] == x || Includes(list[1..], x)
  }

  /** A path is public exactly when it is one of the two entry points,
      compared character for character; every other path is private. */
  function IsPublicRoute(path: string): (r: bool)
    ensures r <==> path == LoginPath || path == RegisterPath
  {
    Includes(PublicRoutes, path)
  }

  // ---------------------------------------------------------------------
  // Credential validator
  // ---------------------------------------------------------------------

  /** The payload claims the middleware reads. `exp` is the `exp` claim
      (seconds since the epoch) as JavaScript coerces it to a number, or None
      when `exp * 1000` is NaN (the claim is missing or does not coerce to a
      number). */
  datatype Claims = Claims(exp: Option<int>)

  /** The payload decoder of the token library: None when decoding throws
      (a malformed token, or a payload on which reading `exp` throws). */
  type Decoder = string -> Option<Claims>

  /** The largest magnitude of a JavaScript time value in milliseconds;
      `new Date(t)` with |t| above it is an Invalid Date. */
  const MaxTimeValue: int := 8_640_000_000_000_000

  /** A valid JavaScript time value: what `new Date()` reads from the clock. */
  type TimeValue = t: int | -MaxTimeValue <= t <= MaxTimeValue

  /** `new Date(exp * 1000)`: the time value of the expiration instant,
      None for an Invalid Date (a missing exp, or one out of range). */
  function ExpirationDate(claims: Claims): (d: Option<TimeValue>)
  {
    match claims.exp
    case None => None
    case Some(e) =>
      if -MaxTimeValue <= e * 1000 <= MaxTimeValue then Some(e * 1000) else None
  }

  /** `isTokenValid`: true exactly when the payload decodes, carries a
      numeric exp, and exp * 1000 is strictly after `now` and within the
      range of a JavaScript date. Every failure is absorbed into false. */
  function IsTokenValid(decode: Decoder, token: string, now: TimeValue): (r: bool)
    ensures r <==>
      && decode(token).Some?
      && decode(token).value.exp.Some?
      && now < decode(token).value.exp.value * 1000 <= MaxTimeValue
  {
    match decode(token)
    case None => false
    case Some(claims) =>
      match ExpirationDate(claims)
      case None => false     // Invalid Date: NaN > now is false
      case Some(expiresAt) => expiresAt > now
  }

  /** Expiry is strict: a token whose exp * 1000 equals `now` is expired. */
  lemma ExpiryAtNowIsExpired(decode: Decoder, token: string, now: TimeValue)
    requires decode(token).Some? && decode(token).value.exp.Some?
    requires decode(token).value.exp.value * 1000 == now
    ensures !IsTokenValid(decode, token, now)
  {
  }

  /** Once expired, a token stays expired as the clock moves forward. */
  lemma ExpiryIsPermanent(decode: Decoder, token: string, earlier: TimeValue, later: TimeValue)
    requires earlier <= later
    requires !IsTokenValid(decode, token, earlier)
    ensures !IsTokenValid(decode, token, later)
  {
  }

  // ---------------------------------------------------------------------
  // Access decision
  // ---------------------------------------------------------------------

  /** What the middleware tells the router: let the navigation proceed
      (it returns nothing) or navigate to another path (`navigateTo`). */
  datatype Verdict = Proceed | Redirect(target: string)

  /** JavaScript truthiness of the stored token: null and "" are falsy. */
  predicate Present(token: Option<string>) {
    token.Some? && token.value != ""
  }

  /** The middleware body as written. `isClient` is `import.meta.client`;
      `stored` is what `localStorage.getItem("token")` gives; `firstNow` and
      `secondNow` are the clock as read by the calls to `isTokenValid` in
      the first and the third rule. */
  function Middleware(isClient: bool, stored: Option<string>, toPath: string,
                      decode: Decoder, firstNow: TimeValue, secondNow: TimeValue): (v: Verdict)
    ensures v == Proceed || v == Redirect(HomePath) || v == Redirect(LoginPath)
    ensures !isClient ==> v == Proceed
    ensures v == Redirect(HomePath) <==>
      isClient && Present(stored) && toPath == LoginPath && IsTokenValid(decode, stored.value, firstNow)
    ensures isClient && !Present(stored) && !IsPublicRoute(toPath) ==> v == Redirect(LoginPath)
    ensures v == Redirect(LoginPath) ==> !IsPublicRoute(toPath)
    ensures isClient && Present(stored) && !IsPublicRoute(toPath) ==>
      (v == Redirect(LoginPath) <==> !IsTokenValid(decode, stored.value, secondNow))
  {
    if !isClient then Proceed
    else if Present(stored) && IsTokenValid(decode, stored.value, firstNow) && toPath == LoginPath then
      Redirect(HomePath)
    else if !Present(stored) && !IsPublicRoute(toPath) then
      Redirect(LoginPath)
    else if Present(stored) && !IsTokenValid(decode, stored.value, secondNow) && !IsPublicRoute(toPath) then
      Redirect(LoginPath)
    else
      Proceed
  }

  /** The session is authenticated at `now`: a token is present and valid. */
  predicate Authenticated(stored: Option<string>, decode: Decoder, now: TimeValue) {
    Present(stored) && IsTokenValid(decode, stored.value, now)
  }

  /** The access policy as a table, independent of the order of the rules:
      on the server everything proceeds; an authenticated session is kept
      off the login page and goes anywhere else; an unauthenticated one
      reaches the public routes only. */
  function Policy(isClient: bool, authenticated: bool, toPath: string): (v: Verdict) {
    if !isClient then Proceed
    else if authenticated then
      (if toPath == LoginPath then Redirect(HomePath) else Proceed)
    else if toPath == LoginPath || toPath == RegisterPath then Proceed
    else Redirect(LoginPath)
  }

  /** One decision with a single reading of the clock. The ordered rules of
      the middleware amount to the policy table. */
  function Decide(isClient: bool, stored: Option<string>, toPath: string,
                  decode: Decoder, now: TimeValue): (v: Verdict)
    ensures v == Policy(isClient, Authenticated(stored, decode, now), toPath)
  {
    Middleware(isClient, stored, toPath, decode, now, now)
  }

  /** The source may read the clock twice in one decision. Whatever the two
      readings, the verdict is the one-instant verdict at one of them. */
  lemma TwoClockReadings(isClient: bool, stored: Option<string>, toPath: string,
                         decode: Decoder, firstNow: TimeValue, secondNow: TimeValue)
    ensures var v := Middleware(isClient, stored, toPath, decode, firstNow, secondNow);
      v == Decide(isClient, stored, toPath, decode, firstNow) ||
      v == Decide(isClient, stored, toPath, decode, secondNow)
  {
  }

  /** Rule 1 comes first: a valid token asking for the login page goes home. */
  lemma ValidTokenOnLoginGoesHome(stored: Option<string>, decode: Decoder, now: TimeValue)
    requires Present(stored) && IsTokenValid(decode, stored.value, now)
    ensures Decide(true, stored, LoginPath, decode, now) == Redirect(HomePath)
  {
  }

  /** Without a token (null or the empty string) a private route sends the
      navigation to the login page. */
  lemma NoTokenOnPrivateGoesToLogin(stored: Option<string>, toPath: string, decode: Decoder, now: TimeValue)
    requires stored == None || stored == Some("")
    requires toPath != LoginPath && toPath != RegisterPath
    ensures Decide(true, stored, toPath, decode, now) == Redirect(LoginPath)
  {
  }

  /** A present but invalid token on a private route is sent to login. */
  lemma InvalidTokenOnPrivateGoesToLogin(token: string, toPath: string, decode: Decoder, now: TimeValue)
    requires token != "" && !IsTokenValid(decode, token, now)
    requires !IsPublicRoute(toPath)
    ensures Decide(true, Some(token), toPath, decode, now) == Redirect(LoginPath)
  {
  }

  /** The fall-through cases: an invalid token reaches either public route,
      and a valid token reaches every path other than the login page. */
  lemma FallThroughProceeds(token: string, toPath: string, decode: Decoder, now: TimeValue)
    requires token != ""
    ensures !IsTokenValid(decode, token, now) && IsPublicRoute(toPath) ==>
      Decide(true, Some(token), toPath, decode, now) == Proceed
    ensures IsTokenValid(decode, token, now) && toPath != LoginPath ==>
      Decide(true, Some(token), toPath, decode, now) == Proceed
  {
  }

  /** A present but invalid token is treated exactly like no token at all. */
  lemma InvalidTokenActsAsAbsent(isClient: bool, token: string, toPath: string, decode: Decoder, now: TimeValue)
    requires !IsTokenValid(decode, token, now)
    ensures Decide(isClient, Some(token), toPath, decode, now) == Decide(isClient, None, toPath, decode, now)
  {
  }

  /** No redirect loop: navigating to the target of a redirect, with the same
      token at the same instant, proceeds. */
  lemma NoRedirectLoop(isClient: bool, stored: Option<string>, toPath: string, decode: Decoder, now: TimeValue)
    ensures var v := Decide(isClient, stored, toPath, decode, now);
      v.Redirect? ==> Decide(isClient, stored, v.target, decode, now) == Proceed
  {
  }

  /** Paths that only resemble an entry point are private (fail-closed). */
  lemma LookalikePathsArePrivate()
    ensures !IsPublicRoute("/login/") && !IsPublicRoute("/Login")
    ensures !IsPublicRoute("") && !IsPublicRoute(HomePath)
  {
  }
}
