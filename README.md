# Global authentication route middleware — Dafny model

This project models the global route middleware of a Nuxt application
(`middleware/auth.global.js`). On every client-side navigation the middleware
reads the session token from browser storage and returns one of three
verdicts: let the navigation proceed, redirect to the home page `"/"`, or
redirect to the login page `"/login"`.

The model has the source's three parts, all as pure functions in module
`AuthGlobal` (`auth_global.dfy`):

- **Route classifier** (`isPublicRoute`): `IsPublicRoute` is exact
  membership in the list `["/login", "/register"]`. The list lookup,
  `Array.prototype.includes`, is modelled as the scan `Includes`.
- **Credential validator** (`isTokenValid`): `IsTokenValid` decodes the
  payload, builds the expiration date `new Date(exp * 1000)` and compares it
  strictly with the current time. Every failure gives `false`.
- **Access decision** (the middleware body): `Middleware` runs the three
  guarded early returns in source order. It takes two clock readings,
  because the source calls `isTokenValid` in rule 1 and again in rule 3.
  `Decide` is the same decision with a single reading `now`. Its contract
  equates it with `Policy`, a table of the access policy that does not depend
  on rule order.

Inputs the source reads from its environment are parameters:

- `isClient` is `import.meta.client`.
- `stored: Option<string>` is the result of `localStorage.getItem("token")`,
  where `None` stands for `null`.
- `now` (or `firstNow`/`secondNow`) is the clock read by `new Date()`, in
  milliseconds. Its type, `TimeValue`, is the range of a JavaScript date.
- `decode: Decoder` is the payload decoder of the `jwt-decode` library. It is
  a function from the token string to `Option<Claims>`. `None` means that
  decoding threw, or that reading `exp` from the payload threw (a `null`
  payload).

`Claims.exp` is the `exp` claim as JavaScript coerces it to a number, or
`None` when `exp * 1000` is NaN (the claim is missing or does not coerce to a
number).

JavaScript semantics made explicit:

- A token is present only when it is truthy. `null` and `""` both count as
  absent (`Present`).
- `new Date(exp * 1000)` is an Invalid Date when `|exp * 1000|` exceeds
  8.64e15 ms. Comparing an Invalid Date, or a NaN from a missing `exp`, gives
  `false`. So a token whose expiry lies beyond the last representable date is
  invalid (`ExpirationDate`, `IsTokenValid`).
- Paths are compared character for character with `===`.

## Model

| member | source | states |
|---|---|---|
| `AuthGlobal.Includes` | middleware/auth.global.js:22 | the scan of `includes` answers true exactly when the path is an element of the list |
| `AuthGlobal.IsPublicRoute` | middleware/auth.global.js:20-23 | a path is public iff it is exactly `"/login"` or `"/register"`; every other path is private (fail-closed) |
| `AuthGlobal.LookalikePathsArePrivate` | middleware/auth.global.js:20-23 | `"/login/"`, `"/Login"`, `""` and `"/"` are private |
| `AuthGlobal.IsTokenValid` | middleware/auth.global.js:25-33 | both directions: valid iff the payload decodes with a numeric `exp` and `now < exp * 1000 <= 8.64e15` (helper `ExpirationDate` builds `new Date(exp * 1000)`, line 28); so a decode failure, a missing `exp` or an out-of-range date yields false and never escapes |
| `AuthGlobal.ExpiryAtNowIsExpired` | middleware/auth.global.js:28-29 | `exp * 1000 == now` counts as expired (the comparison is strict) |
| `AuthGlobal.ExpiryIsPermanent` | middleware/auth.global.js:28-29 | a token invalid at one instant is invalid at every later instant |
| `AuthGlobal.Middleware` | middleware/auth.global.js:3-18 | every verdict is Proceed, `Redirect("/")` or `Redirect("/login")`; off the client it always proceeds; `Redirect("/")` iff on the client a present token valid at the first clock reading targets `"/login"`; no token and a private target give `Redirect("/login")`; `Redirect("/login")` only ever targets a private path; with a present token (truthy, helper `Present`, lines 7, 11, 15) on a private path, `Redirect("/login")` iff the token is invalid at the second clock reading, so every input's verdict is fixed |
| `AuthGlobal.Decide` | middleware/auth.global.js:3-18 | with one clock reading, the ordered rules equal the policy table `Policy`: server proceeds; an authenticated session is sent home from `"/login"` and proceeds elsewhere; an unauthenticated one proceeds on the public routes and is sent to `"/login"` from every other path |
| `AuthGlobal.TwoClockReadings` | middleware/auth.global.js:7-17 | with two different clock readings in rules 1 and 3, the verdict equals the one-reading verdict at one of the two readings |
| `AuthGlobal.ValidTokenOnLoginGoesHome` | middleware/auth.global.js:7-9 | a present valid token targeting `"/login"` gives `Redirect("/")`, ahead of the other rules |
| `AuthGlobal.NoTokenOnPrivateGoesToLogin` | middleware/auth.global.js:5-13 | a null or empty-string token targeting a private path gives `Redirect("/login")` |
| `AuthGlobal.InvalidTokenOnPrivateGoesToLogin` | middleware/auth.global.js:15-17 | a present invalid token targeting a private path gives `Redirect("/login")` |
| `AuthGlobal.FallThroughProceeds` | middleware/auth.global.js:7-17 | an invalid token on `"/login"` or `"/register"` proceeds; a valid token on any path other than `"/login"` proceeds |
| `AuthGlobal.InvalidTokenActsAsAbsent` | middleware/auth.global.js:7-17 | a present but invalid token yields the same verdict as no token, on every path |
| `AuthGlobal.NoRedirectLoop` | middleware/auth.global.js:7-17 | following a redirect with the same token and the same `now` proceeds, so no navigation redirects twice |

## Left out

- `localStorage.getItem("token")` is browser storage I/O. The token is the parameter `stored`.
- `defineNuxtRouteMiddleware` and `navigateTo` are framework hooks. Their effect is the returned `Verdict`. The unused `from` route is dropped.
- The internals of `jwtDecode` (base64url and JSON decoding of the payload segment) are a foreign library and are the parameter `decode`. Signatures are not checked by the source and are not modelled.
- JavaScript number coercion of a non-numeric `exp` (a numeric string or a boolean is multiplied as a number) is folded into the decoder: `Claims.exp` holds the coerced value or `None` for NaN.
- Fractional `exp` values and floating-point rounding are not modelled: `exp` is an integer. Every in-range product `exp * 1000` is exact in a double, because 8.64e15 is below 2^53.
- The clock is a parameter. `Decide` uses one reading per decision. `Middleware` keeps the source's two readings, and `TwoClockReadings` relates the two.
- Determinism (the same inputs give the same verdict) holds because `Decide` is a function, and needs no lemma.
