/** The role guards of `role.middleware.ts`: a guard built from a list of
    allowed roles admits a request whose authenticated user has one of
    them. A guard reads `req.user` and nothing else, and writes nothing, so
    it is a function of the optional user. */
module RoleGuards {
  import opened Common
  import opened Store

  const Admin := "ADMIN"
  const Recruiter := "RECRUITER"
  const Jobseeker := "JOBSEEKER"

  const NotAuthenticated := AppError("You are not authenticated", 401)
  const NoPermission := AppError("You do not have permission to access this resource", 403)

  /** `roleGuard(...allowedRoles)` applied to a request whose `req.user` is
      `user`. */
  function RoleGuard(allowedRoles: seq<string>, user: Option<User>): (r: Outcome)
    ensures user.None? ==> r == Fail(NotAuthenticated)
    ensures user.Some? && user.value.role !in allowedRoles ==> r == Fail(NoPermission)
    ensures r == Continue <==> user.Some? && user.value.role in allowedRoles
  {
    if user.None? then Fail(NotAuthenticated)
    else if user.value.role !in allowedRoles then Fail(NoPermission)
    else Continue
  }

  function AdminGuard(user: Option<User>): (r: Outcome)
    ensures r == Continue <==> user.Some? && user.value.role == Admin
    ensures r.Fail? ==> r.error == (if user.None? then NotAuthenticated else NoPermission)
  {
    RoleGuard([Admin], user)
  }

  function RecruiterGuard(user: Option<User>): (r: Outcome)
    ensures r == Continue <==> user.Some? && user.value.role == Recruiter
    ensures r.Fail? ==> r.error == (if user.None? then NotAuthenticated else NoPermission)
  {
    RoleGuard([Recruiter], user)
  }

  function JobseekerGuard(user: Option<User>): (r: Outcome)
    ensures r == Continue <==> user.Some? && user.value.role == Jobseeker
    ensures r.Fail? ==> r.error == (if user.None? then NotAuthenticated else NoPermission)
  {
    RoleGuard([Jobseeker], user)
  }

  /** Allowing more roles never turns an admitted request away. */
  lemma GuardMonotone(allowed: seq<string>, wider: seq<string>, user: Option<User>)
    requires forall r :: r in allowed ==> r in wider
    ensures RoleGuard(allowed, user) == Continue ==> RoleGuard(wider, user) == Continue
  {
  }

  /** The missing-user check comes first: without a user the allowed list
      plays no part. */
  lemma MissingUserPrecedes(allowed: seq<string>, other: seq<string>)
    ensures RoleGuard(allowed, None) == RoleGuard(other, None) == Fail(NotAuthenticated)
  {
  }

  /** The three route-group guards admit pairwise disjoint sets of users. */
  lemma GroupGuardsDisjoint(user: Option<User>)
    ensures !(AdminGuard(user) == Continue && RecruiterGuard(user) == Continue)
    ensures !(AdminGuard(user) == Continue && JobseekerGuard(user) == Continue)
    ensures !(RecruiterGuard(user) == Continue && JobseekerGuard(user) == Continue)
  {
  }
}
