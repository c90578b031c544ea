/**
  The client and the web API side by side. The client's user probe reads the
  `/auth/user` endpoint, so the client's view of the session and the teacher
  guard's verdict follow the server's principal; the login link the client
  builds carries its return URL to the `/auth/login` endpoint, which passes
  it on as the challenge's `RedirectUri`; and the logout link reaches the
  endpoint that signs out of both schemes (webapp/app/composables/useAuth.ts
  with webapi/Program.cs). The web app's relay between the two, which drops
  the `/api` prefix, is not part of this model.
 */
module EndToEnd {
  import opened Common
  import opened Claims
  import opened AuthState
  import opened RouteGuards
  import AuthEndpoints
  import UriEncoding

  /** The outcome the client sees when the endpoint answers for principal `p`:
      200 with the user body, or 401 with no user. */
  function ProbeOf(p: AuthEndpoints.Principal): (o: ProbeOutcome)
    ensures o.Responded? && o.status == AuthEndpoints.UserEndpoint(p).Status()
    ensures FindsSession(o) <==> AuthEndpoints.IsAuthenticated(p)
  {
    match AuthEndpoints.UserEndpoint(p)
    case Unauthorized => Responded(401, None)
    case Ok(body) => Responded(200, Some(body))
  }

  /** After probing, the client is signed in exactly when the server's
      principal is authenticated. */
  lemma FetchMirrorsServer(s: State, p: AuthEndpoints.Principal)
    ensures IsAuthenticated(FetchUser(s, ProbeOf(p)).state) <==> AuthEndpoints.IsAuthenticated(p)
  {
  }

  /** The server principal holds a role claim with exactly this value. */
  predicate ServerHasRole(p: AuthEndpoints.Principal, role: string)
  {
    exists c :: c in p.claims && IsRoleType(c.claimType) && c.value == role
  }

  /** On a first visit (no probe finished yet), the teacher guard lets the
      navigation through exactly when the server's principal is
      authenticated and holds a `Teacher` role claim. */
  lemma TeacherGuardMirrorsServer(s: State, p: AuthEndpoints.Principal)
    requires s.pending
    ensures TeacherGuard(s, ProbeOf(p)).decision == Proceed <==>
      AuthEndpoints.IsAuthenticated(p) && ServerHasRole(p, TeacherRole)
  {
  }

  /** The login link is the login route under the relay prefix, and its
      query value, decoded, is the return URL the client asked for; the
      login endpoint passes that value on as the challenge's `RedirectUri`. */
  lemma LoginLinkReachesChallenge(s: State, returnUrl: Option<string>, requestPath: string)
    requires !s.redirecting
    ensures var t := Login(s, returnUrl, requestPath).navigation.value;
            var received := UriEncoding.Decode(t[|LoginPrefix|..]);
            && t[..|LoginPrefix|] == ApiPrefix + AuthEndpoints.LoginRoute + "?returnUrl="
            && received == Some(Coalesce(returnUrl, requestPath))
            && AuthEndpoints.LoginEndpoint(received).redirectUri == Coalesce(returnUrl, requestPath)
  {
  }

  /** The logout link is the logout route under the relay prefix, the call
      leaves the client state alone, and that endpoint signs out of both the
      OpenID Connect session and the cookie before landing on "/". */
  lemma LogoutReachesSignOut(s: State)
    ensures Logout(s).navigation == Some(ApiPrefix + AuthEndpoints.LogoutRoute)
    ensures Logout(s).state == s
    ensures var a := AuthEndpoints.LogoutEndpoint();
            && a.schemes == [AuthEndpoints.OpenIdConnectScheme, AuthEndpoints.CookieScheme]
            && a.redirectUri == "/"
  {
  }
}
