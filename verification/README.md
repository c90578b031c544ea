# Authentication core of the Aspire + Nuxt BFF, in Dafny

The repository pairs an ASP.NET Core web API with a Nuxt web app that fronts
it as a backend-for-frontend. This project models the authentication logic
both halves share.

- **Web API, public origin** (`webapi/Program.cs`). The forwarded-headers
  step runs first. A custom middleware then lets the dedicated
  `X-Public-Proto` / `X-Public-Host` headers override the request's scheme
  and host.
- **Web API, auth endpoints** (`webapi/Program.cs`). `/auth/login`,
  `/auth/logout` and `/auth/user` each make a small decision.
- **Client auth state** (`useAuth.ts`). The shared state is `{user, pending,
  redirecting}`. `fetchUser` and `login` update it. `login` has an in-flight
  guard. The login link percent-encodes the return URL with ECMA-262's
  `encodeURIComponent`, modelled with its inverse `decodeURIComponent`.
  `hasRole` and `hasClaim` are predicates over the user's claims.
- **Route guards and the 401 wrapper** (`auth.ts`, `teacher.ts`,
  `useAuthFetch.ts`). These are decision functions over that state.
- **Start-up configuration** (`nuxt.config.ts`). It sets the development TLS
  switch and three `||` fallback chains, where an empty variable counts as
  unset.

Every operation is a pure function on immutable records. Framework calls
become explicit inputs and outputs:
- the probe's HTTP status and body are inputs;
- a navigation is an output string;
- the environment is a map.

Modules, one per file: `Common`, `PublicOrigin`, `AuthEndpoints`, `Claims`,
`UriEncoding`, `AuthState`, `RouteGuards`, `AuthFetch`, `RuntimeConfig`, and
`EndToEnd`. `EndToEnd` holds the properties that link client and server.

The API trusts every proxy and falls back to `X-Forwarded-*`. The
`X-Public-*` headers win only when present and non-empty
(`PublicOrigin.Pipeline`). The repository's proxy handler sets only
`X-Forwarded-*`.

## Model

| member | source | states |
|---|---|---|
| PublicOrigin.ApplyForwardedHeaders | webapi/Program.cs:187-195 | A non-empty `X-Forwarded-Proto`/`X-Forwarded-Host` becomes the scheme/host; otherwise each is kept; nothing else about the request changes |
| PublicOrigin.ApplyPublicHeaders | webapi/Program.cs:198-213 | A non-empty `X-Public-Proto` becomes the scheme and a non-empty `X-Public-Host` the host; absent or empty leaves each exactly as it was; path, query, path base and headers are untouched |
| PublicOrigin.Pipeline | webapi/Program.cs:195-213 | Final scheme = `X-Public-Proto`, else `X-Forwarded-Proto`, else the request's own (empty counts as absent); the same precedence for the host; nothing else changes |
| PublicOrigin.ForwardedStepIgnoresOtherHeaders | webapi/Program.cs:187-195 | The forwarded-headers step reads only `X-Forwarded-Proto` and `X-Forwarded-Host`: adding any other header, `X-Public-*` included, changes nothing in its result but that header |
| PublicOrigin.SchemeOverrideIsLocal | webapi/Program.cs:201-205 | The resulting scheme depends only on `X-Public-Proto` and the incoming scheme, not on any other header |
| PublicOrigin.HostOverrideIsLocal | webapi/Program.cs:206-210 | The resulting host depends only on `X-Public-Host` and the incoming host |
| PublicOrigin.OverrideIdempotent | webapi/Program.cs:198-213 | Applying the override twice equals applying it once |
| PublicOrigin.PublicHeadersWin | webapi/Program.cs:195-210 | With both dedicated headers non-empty, the final scheme and host are theirs, whatever `X-Forwarded-*` say |
| PublicOrigin.FallbackOrder | webapi/Program.cs:195-210 | Without the dedicated headers, the forwarded headers decide, else the request's own scheme and host; path and headers unchanged |
| AuthEndpoints.LoginEndpoint | webapi/Program.cs:222-228 | The challenge is for the OpenID Connect scheme only and passes `RedirectUri` = the supplied `returnUrl` (an empty one is passed on as it is), or "/" when none is supplied |
| AuthEndpoints.LogoutEndpoint | webapi/Program.cs:230-235 | Signs out of exactly the OpenID Connect and cookie schemes and lands on "/" |
| AuthEndpoints.UserEndpoint | webapi/Program.cs:237-249 | 401 iff the identity is missing or not authenticated, else 200; the body carries the identity's name and the (type, value) of every claim, same count, same order |
| Claims.AnyClaim | webapp/app/composables/useAuth.ts:107-109 | `some` over a claim list is true iff some element satisfies the test |
| Claims.HasRole | webapp/app/composables/useAuth.ts:105-111 | False without a user; otherwise true iff some claim has type `role` or a type ending in `/role` and value exactly the role |
| Claims.HasClaim | webapp/app/composables/useAuth.ts:120-127 | False without a user; otherwise true iff some claim's type equals `t` or ends with `/t` and, when a value is given, its value equals it |
| Claims.ClaimWithValueImpliesType | webapp/app/composables/useAuth.ts:122-125 | `hasClaim(t, v)` implies `hasClaim(t)` |
| Claims.HasRoleIsRoleClaim | webapp/app/composables/useAuth.ts:105-127 | `hasRole(r)` equals `hasClaim("role", r)` for every user |
| UriEncoding.Encode | webapp/app/composables/useAuth.ts:86 | `encodeURIComponent` output consists only of unreserved characters and `%`, is never shorter than the input, and keeps every unreserved input character |
| UriEncoding.EncodeUnreservedUnchanged | webapp/app/composables/useAuth.ts:86 | A string made only of unreserved characters encodes to itself |
| UriEncoding.DecodeOneEncodeChar | webapp/app/composables/useAuth.ts:86 | Decoding the front of an encoded character returns that character and consumes exactly its encoding, whatever follows |
| UriEncoding.DecodeEncode | webapp/app/composables/useAuth.ts:85-86 | `decodeURIComponent(encodeURIComponent(s)) == s` for every string |
| AuthState.LoginTarget | webapp/app/composables/useAuth.ts:85-86 | The login link starts with `/api/auth/login?returnUrl=`; the rest decodes to the return URL and contains no `&` or `#` |
| AuthState.Login | webapp/app/composables/useAuth.ts:79-89 | Navigates iff no login was in flight, then marks one in flight; while one is in flight the call changes nothing; the link carries `returnUrl`, or the request path when `returnUrl` is absent; user and `pending` untouched |
| AuthState.Logout | webapp/app/composables/useAuth.ts:94-96 | Always navigates to `/api/auth/logout`, with no in-flight guard and no state change |
| AuthState.IsAuthenticated | webapp/app/composables/useAuth.ts:133 | Signed in iff a user object is present; without one, no `hasRole` or `hasClaim` test succeeds |
| AuthState.FetchUser | webapp/app/composables/useAuth.ts:35-74 | `pending` is false afterwards; user = body on 200, null on any other status and on a failed request (the `default` of `useAsyncData`); the call resolves to that user; authenticated iff the probe found a session; `redirecting` is cleared only when a user is present |
| AuthState.FailedProbeIsUnauthorized | webapp/app/composables/useAuth.ts:39-61 | A probe request that fails without a response has exactly the effect of a 401 |
| AuthState.LoginNavigatesOnce | webapp/app/composables/useAuth.ts:79-89 | Any sequence of `login` and `fetchUser` calls in which no probe finds a session starts at most one navigation; exactly one iff none was in flight and `login` was called; afterwards a login is in flight iff one was before or `login` was called |
| RouteGuards.Settle | webapp/app/middleware/auth.ts:12-14 | The decision state is never pending; it is signed in iff the probe finds a session when one was pending, and iff the current state is signed in otherwise |
| RouteGuards.AuthGuard | webapp/app/middleware/auth.ts:9-21 | Probes iff pending; proceeds, with no login, iff authenticated after the optional fetch; otherwise aborts with a login in flight, navigating iff none was, to a link whose return URL is the destination's full path |
| RouteGuards.TeacherGuard | webapp/app/middleware/teacher.ts:9-19 | Probes iff pending; proceeds iff the user holds role `Teacher`; otherwise redirects to `/unauthorized`; never starts a login |
| RouteGuards.FailedProbeDeniesAccess | webapp/app/middleware/auth.ts:12-20 | On a first visit whose probe request fails, the `auth` guard aborts into login (navigating iff none was in flight) and the `teacher` guard redirects to `/unauthorized` |
| RouteGuards.NoProbeWhenSettled | webapp/app/middleware/auth.ts:12 | When nothing is pending, both guards' outcomes are independent of the probe |
| RouteGuards.TeacherGuardNeverLogsIn | webapp/app/middleware/teacher.ts:16-18 | A visitor without a session goes to `/unauthorized`, never to login, and `redirecting` is untouched |
| RouteGuards.TeacherRoleIsCaseSensitive | webapp/app/middleware/teacher.ts:16 | A user whose only claim values are `teacher` is redirected: the match is exact and case-sensitive |
| AuthFetch.WithAuth | webapp/app/composables/useAuthFetch.ts:15-18 | `credentials` is always `include` and `onResponseError` is always the wrapper's; every other caller option passes through unchanged; no key appears or disappears otherwise |
| AuthFetch.OnResponseError | webapp/app/composables/useAuthFetch.ts:18-22 | Any status other than 401 changes nothing; a 401 calls `login` for the current route's full path |
| AuthFetch.UnauthorizedLogsInOnce | webapp/app/composables/useAuthFetch.ts:18-22 | Over any series of errors, every navigation started is collected, and there is at most one: exactly one iff some error was a 401 and no login was in flight, and it is the login link for the current route; afterwards a login is in flight iff one was before or a 401 arrived |
| AuthFetch.CallerAuthOptionsIgnored | webapp/app/composables/useAuthFetch.ts:15-18 | The caller's own `credentials` and `onResponseError` have no effect on the merged options |
| AuthFetch.WithAuthIdempotent | webapp/app/composables/useAuthFetch.ts:15-18 | Merging already merged options changes nothing |
| RuntimeConfig.Load | webapp/nuxt.config.ts:80-84 | `apiUrl` is `ApiUrl` if non-empty, else `https://localhost:7275`; `publicHost` is `PUBLIC_HOSTNAME`, else `PUBLIC_HOST`, else ""; `publicProto` is `PUBLIC_PROTO`, else `PUBLIC_SCHEME`, else "" |
| RuntimeConfig.ApplyDevTls | webapp/nuxt.config.ts:24-26 | `NODE_TLS_REJECT_UNAUTHORIZED` is "0" afterwards when `NODE_ENV` is not `production`; in production nothing changes; no other variable ever changes |
| RuntimeConfig.EmptyIsUnset | webapp/nuxt.config.ts:81-83 | Removing an empty variable leaves the whole configuration unchanged |
| RuntimeConfig.DevTlsLeavesConfig | webapp/nuxt.config.ts:24-26 | The TLS switch, which runs first, does not change the runtime configuration |
| EndToEnd.ProbeOf | webapp/app/composables/useAuth.ts:42-55 | The probe sees the user endpoint's status; it finds a session iff the server principal is authenticated |
| EndToEnd.FetchMirrorsServer | webapp/app/composables/useAuth.ts:49-63 | After probing, the client is authenticated iff the server principal is |
| EndToEnd.TeacherGuardMirrorsServer | webapp/app/middleware/teacher.ts:12-19 | On a first visit the teacher guard proceeds iff the server principal is authenticated and holds a role claim with value `Teacher` |
| EndToEnd.LoginLinkReachesChallenge | webapp/app/composables/useAuth.ts:85-86 | The login link is `/api` + `/auth/login?returnUrl=` + a value that decodes to the requested return URL, and the login endpoint passes that URL on as the challenge's `RedirectUri` |
| EndToEnd.LogoutReachesSignOut | webapp/app/composables/useAuth.ts:94-96 | The logout link is `/api` + `/auth/logout` and changes no client state; that endpoint signs out of exactly the OpenID Connect and cookie schemes and lands on "/" |

## Left out

- The proxy handler `webapp/server/api/[...path].ts` is not part of this model. This covers path mapping, `Location` rewriting, and hop-by-hop header filtering.
- Azure Key Vault, managed identity, certificate lookup and Microsoft.Identity.Web wiring (webapi/Program.cs:19-137) are left out. They are library calls and network I/O.
- Cookie and OpenID Connect option assignments (webapi/Program.cs:144-172) are left out. They are settings on library objects with no logic of their own.
- PublicOrigin.ApplyForwardedHeaders: it is weaker than ASP.NET's `ForwardedHeadersMiddleware`. It models only the net effect of one non-empty value per header. Comma-separated hop lists, scheme/host syntax validation, `X-Forwarded-For`/`X-Forwarded-Prefix`, and moving the originals to `X-Original-*` are library internals.
- Header names are assumed to be stored in lower case and are looked up in lower case. ASP.NET compares them case-insensitively; the model does not fold case, so an entry stored under another spelling is not seen. Joining a repeated header into one value (`StringValues.ToString`) is not modelled; a header is one optional string.
- AuthEndpoints.UserEndpoint: the `.RequireAuthorization()` gate (webapi/Program.cs:249) is not modelled. That gate challenges unauthenticated callers before the handler runs, so in the running app they get a redirect rather than the handler's 401. AuthState.FetchUser treats every non-200 status the same way, so the client side covers both.
- Issuing the challenge and the sign-out (redirect to the identity provider, cookie removal) is framework work. The endpoints are modelled up to the properties and schemes they pass on.
- Console logging, the debug header endpoints, the weather endpoint and `TemperatureF` (webapi/Program.cs:251-301) are left out. They are I/O, randomness, the clock and floating point.
- `webapi/AuthConfig.cs` (constants only) and `apphost/AppHost.cs` (deployment wiring) are not part of this model.
- Nuxt runtime machinery is left out: `useState` sharing, `readonly`/`computed` wrappers, SSR cookie forwarding (`useRequestHeaders`), hydration, and the async scheduling of guards. State changes are sequential calls on one explicit record.
- `useAsyncData` catches a probe handler that throws and yields its `default`, null. The model has this as the `RequestFailed` outcome. A rejection of `useAsyncData` itself, which `fetchUser` would propagate, is not modelled.
- `useAsyncData` keeps its result under the key `auth-user-probe`, so a later `fetchUser` on the client may reuse an earlier result. This is not modelled: the probe outcome is an input to every call.
- `useRequestURL().pathname` and the route's `fullPath` are inputs. `navigateTo` and `abortNavigation` are outputs, not side effects.
- UriEncoding.Encode: the URIError that `encodeURIComponent` raises for a lone UTF-16 surrogate cannot occur. A Dafny `char` is a Unicode scalar value.
- EndToEnd.LoginLinkReachesChallenge: it assumes the web app's relay drops the `/api` prefix. The relay keeps the prefix when the path with its query contains `signin-oidc` or `signout-callback-oidc`. Those letters survive `encodeURIComponent`, so a return URL containing them reaches a backend route that does not exist. The relay is not part of this model.
- EndToEnd.LoginLinkReachesChallenge: it stops at the `RedirectUri` the endpoint passes on. For an empty return URL that value is "", and ASP.NET's OpenID Connect handler replaces an empty `RedirectUri` with the current request URL. Where the user finally lands is framework behaviour and is not modelled.
- EndToEnd.LogoutReachesSignOut: it also assumes the relay drops the `/api` prefix.
- EndToEnd.LoginLinkReachesChallenge: ASP.NET's query-string decoding is represented by `decodeURIComponent`. ASP.NET also reads `+` as a space, and the encoder never emits `+`.
- The `url` argument of `useAuthFetch` and the rest of `useFetch` (the request itself, caching, reactivity) are left out. Only the option merge and the error hook are modelled.
