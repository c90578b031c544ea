/**
  The two client route guards: `auth` (webapp/app/middleware/auth.ts) sends
  visitors without a session to the login flow, and `teacher`
  (webapp/app/middleware/teacher.ts) sends everyone without the `Teacher`
  role to `/unauthorized`. Both first wait for the user probe when no probe
  has finished yet.
 */
module RouteGuards {
  import opened Common
  import opened Claims
  import opened AuthState

  /** What the guard tells the router. */
  datatype Decision = Proceed | Abort | RedirectTo(path: string)

  /** The state afterwards, the router decision, the external login
      navigation (if any), and whether a probe was made. */
  datatype GuardStep = GuardStep(state: State, decision: Decision, navigation: Option<string>, probed: bool)

  const TeacherRole := "Teacher"
  const UnauthorizedPath := "/unauthorized"

  /** `if (pending) await fetchUser()`: the state the decision is made on.
      It is signed in exactly when it already was or, if a probe was still
      due, when that probe finds a session. */
  function Settle(s: State, probe: ProbeOutcome): (r: State)
    ensures !r.pending
    ensures !s.pending ==> r == s
    ensures s.pending ==> r == FetchUser(s, probe).state
    ensures IsAuthenticated(r) <==> if s.pending then FindsSession(probe) else IsAuthenticated(s)
  {
    if !s.pending then s else FetchUser(s, probe).state
  }

  /** The `auth` guard. Without a session it calls `login` with the
      destination's full path and aborts the navigation; with one it lets
      the navigation proceed and never calls `login`. */
  function AuthGuard(s: State, toFullPath: string, probe: ProbeOutcome): (r: GuardStep)
    ensures r.probed <==> s.pending
    ensures !r.state.pending
    ensures r.decision == Proceed || r.decision == Abort
    ensures r.decision == Proceed <==> IsAuthenticated(Settle(s, probe))
    ensures s.pending ==> (r.decision == Proceed <==> FindsSession(probe))
    ensures r.decision == Proceed ==> r.navigation.None? && r.state == Settle(s, probe)
    ensures r.decision == Abort ==> r.state.user.None? && r.state.redirecting
    ensures r.decision == Abort ==> (r.navigation.Some? <==> !Settle(s, probe).redirecting)
    ensures r.navigation.Some? ==> r.decision == Abort && IsLoginLinkFor(r.navigation.value, toFullPath)
  {
    var settled := Settle(s, probe);
    if !IsAuthenticated(settled) then
      // the request path is not consulted when a return URL is given
      var step := Login(settled, Some(toFullPath), "");
      GuardStep(step.state, Abort, step.navigation, s.pending)
    else
      GuardStep(settled, Proceed, None, s.pending)
  }

  /** The `teacher` guard. A holder of the `Teacher` role proceeds; anyone
      else, signed in or not, is redirected to `/unauthorized`; it never
      starts a login. */
  function TeacherGuard(s: State, probe: ProbeOutcome): (r: GuardStep)
    ensures r.probed <==> s.pending
    ensures !r.state.pending
    ensures r.navigation.None?
    ensures r.state == Settle(s, probe)
    ensures r.decision == Proceed <==> HasRole(r.state.user, TeacherRole)
    ensures r.decision != Proceed ==> r.decision == RedirectTo(UnauthorizedPath)
  {
    var settled := Settle(s, probe);
    if !HasRole(settled.user, TeacherRole) then GuardStep(settled, RedirectTo(UnauthorizedPath), None, s.pending)
    else GuardStep(settled, Proceed, None, s.pending)
  }

  /** On a first visit whose probe request fails, the `auth` guard aborts
      into the login flow (navigating unless a login is already in flight)
      and the `teacher` guard redirects to `/unauthorized`. */
  lemma FailedProbeDeniesAccess(s: State, toFullPath: string)
    requires s.pending
    ensures AuthGuard(s, toFullPath, RequestFailed).decision == Abort
    ensures AuthGuard(s, toFullPath, RequestFailed).navigation.Some? <==> !s.redirecting
    ensures TeacherGuard(s, RequestFailed).decision == RedirectTo(UnauthorizedPath)
  {
  }

  /** When a probe has already finished, neither guard looks at the probe. */
  lemma NoProbeWhenSettled(s: State, toFullPath: string, p1: ProbeOutcome, p2: ProbeOutcome)
    requires !s.pending
    ensures AuthGuard(s, toFullPath, p1) == AuthGuard(s, toFullPath, p2)
    ensures TeacherGuard(s, p1) == TeacherGuard(s, p2)
  {
  }

  /** A visitor without a session is sent to `/unauthorized` by the teacher
      guard, never into the login flow, and `redirecting` is left alone. */
  lemma TeacherGuardNeverLogsIn(s: State, probe: ProbeOutcome)
    requires !IsAuthenticated(TeacherGuard(s, probe).state)
    ensures TeacherGuard(s, probe).decision == RedirectTo(UnauthorizedPath)
    ensures TeacherGuard(s, probe).navigation.None?
    ensures TeacherGuard(s, probe).state.redirecting == s.redirecting
  {
  }

  /** The role test is exact and case-sensitive: a `teacher` role claim
      does not admit anyone. */
  lemma TeacherRoleIsCaseSensitive(s: State, probe: ProbeOutcome)
    requires var u := TeacherGuard(s, probe).state.user;
             u.Some? && forall c :: c in u.value.claims ==> c.value == "teacher"
    ensures TeacherGuard(s, probe).decision == RedirectTo(UnauthorizedPath)
  {
  }
}
