/**
  `useAuthFetch` (webapp/app/composables/useAuthFetch.ts): a wrapper around
  the framework's fetch that always sends cookies and answers a 401 by
  starting the login flow for the current route.
 */
module AuthFetch {
  import opened Common
  import opened AuthState

  /** A caller option value. The wrapper's own error handler is the one
      value that is not the caller's. */
  datatype OptionValue = Text(text: string) | LoginOnUnauthorized | CallerValue(repr: string)

  type FetchOptions = map<string, OptionValue>

  const CredentialsKey := "credentials"
  const OnResponseErrorKey := "onResponseError"

  /** `{ ...options, credentials: 'include', onResponseError }`: the two keys
      the wrapper writes win over the caller's; every other caller option
      passes through unchanged. */
  function WithAuth(options: FetchOptions): (r: FetchOptions)
    ensures r.Keys == options.Keys + {CredentialsKey, OnResponseErrorKey}
    ensures r[CredentialsKey] == Text("include")
    ensures r[OnResponseErrorKey] == LoginOnUnauthorized
    ensures forall k :: k in options && k != CredentialsKey && k != OnResponseErrorKey ==> r[k] == options[k]
  {
    options[CredentialsKey := Text("include")][OnResponseErrorKey := LoginOnUnauthorized]
  }

  /** The wrapper's `onResponseError`: a 401 calls `login` with the current
      route's full path; any other status, or no response at all, changes
      nothing. */
  function OnResponseError(s: State, status: Option<int>, routeFullPath: string): (r: Step)
    ensures status != Some(401) ==> r == Step(s, None)
    ensures status == Some(401) ==> r.state == s.(redirecting := true)
    ensures status == Some(401) ==> (r.navigation.Some? <==> !s.redirecting)
    ensures r.navigation.Some? ==> IsLoginLinkFor(r.navigation.value, routeFullPath)
  {
    if status == Some(401) then Login(s, Some(routeFullPath), "") else Step(s, None)
  }

  /** A series of response errors on the same page, handled in order: the
      final state and every navigation any of them started, in order. */
  function OnResponseErrors(s: State, statuses: seq<Option<int>>, routeFullPath: string): (State, seq<string>)
    decreases |statuses|
  {
    if statuses == [] then (s, [])
    else
      var first := OnResponseError(s, statuses[0], routeFullPath);
      var (s', navs) := OnResponseErrors(first.state, statuses[1..], routeFullPath);
      ((s', (if first.navigation.Some? then [first.navigation.value] else []) + navs))
  }

  predicate AnyUnauthorized(statuses: seq<Option<int>>)
  {
    exists i :: 0 <= i < |statuses| && statuses[i] == Some(401)
  }

  /** However many 401s arrive, they start at most one login navigation:
      one exactly when none was in flight and some error was a 401, and it
      is the login link for the current route. Afterwards a login is in
      flight exactly when one was before or a 401 arrived. */
  lemma {:induction false} UnauthorizedLogsInOnce(s: State, statuses: seq<Option<int>>, routeFullPath: string)
    ensures var (s', navs) := OnResponseErrors(s, statuses, routeFullPath);
            && |navs| <= 1
            && (|navs| == 1 <==> !s.redirecting && AnyUnauthorized(statuses))
            && (|navs| == 1 ==> navs[0] == LoginTarget(routeFullPath))
            && (s'.redirecting <==> s.redirecting || AnyUnauthorized(statuses))
            && s'.user == s.user && s'.pending == s.pending
    decreases |statuses|
  {
    if statuses != [] {
      var first := OnResponseError(s, statuses[0], routeFullPath);
      var tail := statuses[1..];
      UnauthorizedLogsInOnce(first.state, tail, routeFullPath);
      assert AnyUnauthorized(statuses) <==> statuses[0] == Some(401) || AnyUnauthorized(tail) by {
        if AnyUnauthorized(tail) {
          var i :| 0 <= i < |tail| && tail[i] == Some(401);
          assert statuses[i + 1] == Some(401);
        }
        if AnyUnauthorized(statuses) && statuses[0] != Some(401) {
          var i :| 0 <= i < |statuses| && statuses[i] == Some(401);
          assert tail[i - 1] == Some(401);
        }
      }
    }
  }

  /** Options the caller sets for `credentials` or `onResponseError` have no
      effect: the wrapper's own values replace them. */
  lemma CallerAuthOptionsIgnored(options: FetchOptions)
    ensures WithAuth(options) == WithAuth(options - {CredentialsKey, OnResponseErrorKey})
  {
    var trimmed := options - {CredentialsKey, OnResponseErrorKey};
    assert WithAuth(options).Keys == WithAuth(trimmed).Keys;
  }

  /** Wrapping an already wrapped set of options changes nothing. */
  lemma WithAuthIdempotent(options: FetchOptions)
    ensures WithAuth(WithAuth(options)) == WithAuth(options)
  {
  }
}
