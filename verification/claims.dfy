/**
  The user record the web API's `/auth/user` endpoint returns and the client
  keeps in its auth state, and the client's two authorization predicates
  `hasRole` and `hasClaim` (webapp/app/composables/useAuth.ts). A claim type
  matches either exactly or as the last segment of a URI-style type such as
  `http://schemas.microsoft.com/ws/2008/06/identity/claims/role`.
 */
module Claims {
  import opened Common

  datatype Claim = Claim(claimType: string, value: string)

  /** `AuthUser`: the identity's name (null when the identity has none) and
      its claims in the order the server listed them. */
  datatype AuthUser = AuthUser(name: Option<string>, claims: seq<Claim>)

  /** `Array.prototype.some` over a claim list. */
  function AnyClaim(cs: seq<Claim>, p: Claim -> bool): (b: bool)
    ensures b <==> exists i :: 0 <= i < |cs| && p(cs[i])
  {
    if cs == [] then false else p(cs[0]) || AnyClaim(cs[1..], p)
  }

  /** The type test `hasRole` applies: `"role"` or any type ending in `"/role"`. */
  predicate IsRoleType(claimType: string)
  {
    claimType == "role" || EndsWith(claimType, "/role")
  }

  /** The type test `hasClaim(t, …)` applies: `t` itself or a type ending in `"/" + t`. */
  predicate TypeMatches(claimType: string, t: string)
  {
    claimType == t || EndsWith(claimType, "/" + t)
  }

  /** The claim test inside `hasRole(role)`: a role type and exactly the
      value `role` (case-sensitive). */
  predicate GrantsRole(c: Claim, role: string)
  {
    IsRoleType(c.claimType) && c.value == role
  }

  /** The claim test inside `hasClaim(t, v)`: a matching type and, when `v`
      is given, exactly the value `v`. */
  predicate MatchesClaim(c: Claim, t: string, v: Option<string>)
  {
    TypeMatches(c.claimType, t) && (v.None? || c.value == v.value)
  }

  /** `hasRole(role)`: true iff there is a user and one of its claims grants
      `role`; false when there is no user. */
  function HasRole(user: Option<AuthUser>, role: string): (b: bool)
    ensures user.None? ==> !b
    ensures b <==> user.Some? && exists c :: c in user.value.claims && GrantsRole(c, role)
  {
    match user
    case None => false
    case Some(u) => AnyClaim(u.claims, (c: Claim) => GrantsRole(c, role))
  }

  /** `hasClaim(t, v)`: true iff there is a user and one of its claims
      matches; false when there is no user. */
  function HasClaim(user: Option<AuthUser>, t: string, v: Option<string>): (b: bool)
    ensures user.None? ==> !b
    ensures b <==> user.Some? && exists c :: c in user.value.claims && MatchesClaim(c, t, v)
  {
    match user
    case None => false
    case Some(u) => AnyClaim(u.claims, (c: Claim) => MatchesClaim(c, t, v))
  }

  /** Asking for a value only narrows the match: `hasClaim(t, v)` implies `hasClaim(t)`. */
  lemma ClaimWithValueImpliesType(user: Option<AuthUser>, t: string, v: string)
    ensures HasClaim(user, t, Some(v)) ==> HasClaim(user, t, None)
  {
  }

  /** `hasRole(r)` is exactly `hasClaim("role", r)`. */
  lemma HasRoleIsRoleClaim(user: Option<AuthUser>, role: string)
    ensures HasRole(user, role) == HasClaim(user, "role", Some(role))
  {
  }
}
