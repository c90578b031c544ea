/**
  The decisions of the web API's three authentication endpoints
  (webapi/Program.cs): `/auth/login` starts an OpenID Connect challenge,
  `/auth/logout` signs out of both schemes, and `/auth/user` reports the
  signed-in identity. Issuing the challenge or sign-out itself is the
  framework's work; the model stops at the properties handed to it.
 */
module AuthEndpoints {
  import opened Common
  import opened Claims

  /** `OpenIdConnectDefaults.AuthenticationScheme`. */
  const OpenIdConnectScheme := "OpenIdConnect"
  /** `CookieAuthenticationDefaults.AuthenticationScheme`. */
  const CookieScheme := "Cookies"

  const LoginRoute := "/auth/login"
  const LogoutRoute := "/auth/logout"
  const UserRoute := "/auth/user"

  /** A challenge or sign-out: where to land afterwards, and which schemes act. */
  datatype AuthAction = AuthAction(redirectUri: string, schemes: seq<string>)

  datatype Identity = Identity(isAuthenticated: bool, name: Option<string>)

  /** A claim as the server holds it; only type and value leave the server. */
  datatype ServerClaim = ServerClaim(claimType: string, value: string, valueType: string, issuer: string)

  /** `HttpContext.User`: the identity may be missing altogether. */
  datatype Principal = Principal(identity: Option<Identity>, claims: seq<ServerClaim>)

  datatype UserResponse = Unauthorized | Ok(body: AuthUser)
  {
    function Status(): int
    {
      match this
      case Unauthorized => 401
      case Ok(_) => 200
    }
  }

  /** `GET /auth/login?returnUrl=…`: an OpenID Connect challenge whose
      `RedirectUri` is the given return URL, or "/" when none was given.
      Only an absent value falls back; an empty one is passed on as it is
      (`??`). */
  function LoginEndpoint(returnUrl: Option<string>): (a: AuthAction)
    ensures a.schemes == [OpenIdConnectScheme]
    ensures returnUrl.Some? ==> a.redirectUri == returnUrl.value
    ensures returnUrl.None? ==> a.redirectUri == "/"
  {
    AuthAction(Coalesce(returnUrl, "/"), [OpenIdConnectScheme])
  }

  /** `GET /auth/logout`: sign out of OpenID Connect and of the cookie, then
      land on "/". */
  function LogoutEndpoint(): (a: AuthAction)
    ensures a.redirectUri == "/"
    ensures OpenIdConnectScheme in a.schemes && CookieScheme in a.schemes && |a.schemes| == 2
  {
    AuthAction("/", [OpenIdConnectScheme, CookieScheme])
  }

  predicate IsAuthenticated(p: Principal)
  {
    p.identity.Some? && p.identity.value.isAuthenticated
  }

  /** `GET /auth/user`: 401 unless the identity is present and authenticated;
      otherwise 200 with its name and the type/value of every claim, in order. */
  function UserEndpoint(p: Principal): (r: UserResponse)
    ensures r.Status() == 401 <==> !IsAuthenticated(p)
    ensures r.Status() == 200 <==> IsAuthenticated(p)
    ensures r.Ok? ==> r.body.name == p.identity.value.name
    ensures r.Ok? ==> |r.body.claims| == |p.claims|
    ensures r.Ok? ==> forall i :: 0 <= i < |p.claims| ==>
                        r.body.claims[i].claimType == p.claims[i].claimType
                        && r.body.claims[i].value == p.claims[i].value
  {
    if !IsAuthenticated(p) then Unauthorized
    else Ok(AuthUser(p.identity.value.name, seq(|p.claims|, i requires 0 <= i < |p.claims| =>
                                                  Claim(p.claims[i].claimType, p.claims[i].value))))
  }
}
