/**
  The client's shared authentication state and its transitions
  (webapp/app/composables/useAuth.ts). The state is three shared values:
  the current user (null until a probe finds a session), `pending` (no probe
  has finished yet) and `redirecting` (a login navigation is in flight).
  Each operation is a function from the state before to the state after,
  together with the full-page navigation it asks for, if any. The probe's
  HTTP outcome is an input.
 */
module AuthState {
  import opened Common
  import opened Claims
  import UriEncoding
  import AuthEndpoints

  datatype State = State(user: Option<AuthUser>, pending: bool, redirecting: bool)

  /** The initial values of the three shared states. */
  const Initial := State(None, true, false)

  /** `isAuthenticated`: a user object is present. Without one, no role or
      claim test can succeed. */
  predicate IsAuthenticated(s: State)
    ensures !IsAuthenticated(s) ==> forall role :: !HasRole(s.user, role)
    ensures !IsAuthenticated(s) ==> forall t, v :: !HasClaim(s.user, t, v)
  {
    s.user.Some?
  }

  /** The state after an operation, and the external navigation it started. */
  datatype Step = Step(state: State, navigation: Option<string>)

  /** The prefix under which the web app's server relays requests to the API. */
  const ApiPrefix := "/api"
  const LoginPrefix := ApiPrefix + AuthEndpoints.LoginRoute + "?returnUrl="
  const LogoutTarget := ApiPrefix + AuthEndpoints.LogoutRoute

  /** `t` is a link to the login endpoint whose query value decodes to
      `redirect`. */
  predicate IsLoginLinkFor(t: string, redirect: string)
  {
    && |LoginPrefix| <= |t|
    && t[..|LoginPrefix|] == LoginPrefix
    && UriEncoding.Decode(t[|LoginPrefix|..]) == Some(redirect)
  }

  /** The login link for a return URL: the login path with the return URL
      percent-encoded as its only query value. */
  function LoginTarget(redirect: string): (t: string)
    ensures IsLoginLinkFor(t, redirect)
    ensures forall i :: |LoginPrefix| <= i < |t| ==> t[i] != '&' && t[i] != '#'
  {
    var encoded := UriEncoding.Encode(redirect);
    UriEncoding.DecodeEncode(redirect);
    assert (LoginPrefix + encoded)[|LoginPrefix|..] == encoded;
    LoginPrefix + encoded
  }

  /** `login(returnUrl)`: a no-op while a login navigation is in flight;
      otherwise marks one as in flight and navigates to the login link for
      `returnUrl`, or for the current request path when no return URL is
      given. The user and `pending` are never touched. */
  function Login(s: State, returnUrl: Option<string>, requestPath: string): (r: Step)
    ensures r.state.redirecting
    ensures r.state.user == s.user && r.state.pending == s.pending
    ensures s.redirecting ==> r == Step(s, None)
    ensures r.navigation.Some? <==> !s.redirecting
    ensures r.navigation.Some? ==> IsLoginLinkFor(r.navigation.value, Coalesce(returnUrl, requestPath))
  {
    if s.redirecting then Step(s, None)
    else Step(s.(redirecting := true), Some(LoginTarget(Coalesce(returnUrl, requestPath))))
  }

  /** `logout()`: always navigates to the logout endpoint; unlike `login`
      it has no in-flight guard and changes no state. */
  function Logout(s: State): (r: Step)
    ensures r.state == s
    ensures r.navigation == Some(LogoutTarget)
  {
    Step(s, Some(LogoutTarget))
  }

  /** How the user probe (`GET /api/auth/user`) ended: a response with a
      status and, perhaps, a parsed body; or a request that failed without
      a response. `useAsyncData` catches a failing request and yields its
      `default`, null, so a failed request does not make `fetchUser` throw. */
  datatype ProbeOutcome = Responded(status: int, body: Option<AuthUser>) | RequestFailed

  /** The state after `fetchUser`, and the user it resolves to. */
  datatype FetchStep = FetchStep(state: State, result: Option<AuthUser>)

  /** The probe found a session: status 200 with a body. */
  predicate FindsSession(p: ProbeOutcome)
  {
    p.Responded? && p.status == 200 && p.body.Some?
  }

  /** `fetchUser()`: the user becomes the probe's body on a 200 and null on
      any other status or a failed request, and is also what the call
      resolves to. `pending` is cleared in every case (the `finally`), and
      `redirecting` is cleared only once a user is present. */
  function FetchUser(s: State, probe: ProbeOutcome): (r: FetchStep)
    ensures !r.state.pending
    ensures r.result == r.state.user
    ensures probe.Responded? && probe.status == 200 ==> r.state.user == probe.body
    ensures !(probe.Responded? && probe.status == 200) ==> r.state.user.None?
    ensures IsAuthenticated(r.state) <==> FindsSession(probe)
    ensures r.state.redirecting <==> s.redirecting && !FindsSession(probe)
  {
    var user := match probe
      case Responded(status, body) => if status == 200 then body else None
      case RequestFailed => None;
    var redirecting := if user.Some? then false else s.redirecting;
    FetchStep(State(user, false, redirecting), user)
  }

  /** A request that fails outright has the same effect as a 401. */
  lemma FailedProbeIsUnauthorized(s: State)
    ensures FetchUser(s, RequestFailed) == FetchUser(s, Responded(401, None))
    ensures !IsAuthenticated(FetchUser(s, RequestFailed).state)
  {
  }

  /** Calls made against the shared state, in the order they happen. */
  datatype Call = LoginCall(returnUrl: Option<string>, requestPath: string) | FetchCall(probe: ProbeOutcome)

  /** The final state after a sequence of calls, and the navigations they started. */
  function Run(s: State, calls: seq<Call>): (State, seq<string>)
    decreases |calls|
  {
    if calls == [] then (s, [])
    else
      var (s1, nav) := match calls[0]
        case LoginCall(u, p) => var st := Login(s, u, p); (st.state, st.navigation)
        case FetchCall(p) => (FetchUser(s, p).state, None);
      var (s2, navs) := Run(s1, calls[1..]);
      (s2, (if nav.Some? then [nav.value] else []) + navs)
  }

  predicate HasLoginCall(calls: seq<Call>)
  {
    exists i :: 0 <= i < |calls| && calls[i].LoginCall?
  }

  /** As long as no probe finds a session (the only thing that clears
      `redirecting`), any number of `login` calls start at most one
      navigation: exactly one when none was in flight and there was at least
      one call, none otherwise. */
  lemma {:induction false} LoginNavigatesOnce(s: State, calls: seq<Call>)
    requires forall i :: 0 <= i < |calls| ==> !(calls[i].FetchCall? && FindsSession(calls[i].probe))
    ensures |Run(s, calls).1| <= 1
    ensures s.redirecting ==> Run(s, calls).1 == []
    ensures |Run(s, calls).1| == 1 <==> !s.redirecting && HasLoginCall(calls)
    ensures Run(s, calls).0.redirecting <==> s.redirecting || HasLoginCall(calls)
    decreases |calls|
  {
    if calls != [] {
      var rest := calls[1..];
      assert forall i :: 0 <= i < |rest| ==> rest[i] == calls[i + 1];
      match calls[0]
      case LoginCall(u, p) =>
        var st := Login(s, u, p);
        LoginNavigatesOnce(st.state, rest);
        assert HasLoginCall(calls) by { assert calls[0].LoginCall?; }
      case FetchCall(p) =>
        var s1 := FetchUser(s, p).state;
        LoginNavigatesOnce(s1, rest);
        if HasLoginCall(rest) {
          var i :| 0 <= i < |rest| && rest[i].LoginCall?;
          assert calls[i + 1].LoginCall?;
        }
        if HasLoginCall(calls) {
          var i :| 0 <= i < |calls| && calls[i].LoginCall?;
          assert i > 0 && rest[i - 1].LoginCall?;
        }
    }
  }
}
