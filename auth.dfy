/**
 * `useAuth` (src/hooks/useAuth.ts): the auth store's fields plus four role flags derived from
 * the signed-in user's role. The role is an arbitrary string: the hook tests for values
 * ('admin', 'candidate', 'interviewer') that the declared `User` role type does not list.
 */
module Auth {
  import opened Wrappers
  import opened Records

  /** The `auth` slice of the store. `user` and `token` are `None` when null. */
  datatype AuthState = AuthState(user: Option<User>, token: Option<string>, isAuthenticated: bool, loading: bool)

  datatype AuthView = AuthView(
    user: Option<User>,
    token: Option<string>,
    isAuthenticated: bool,
    loading: bool,
    isHR: bool,
    isAdmin: bool,
    isCandidate: bool,
    isInterviewer: bool)

  /** `user?.role === r`: false when nobody is signed in. */
  predicate HasRole(state: AuthState, r: string) {
    state.user.Some? && state.user.value.role == r
  }

  function UseAuth(state: AuthState): (v: AuthView)
    ensures v.user == state.user && v.token == state.token
    ensures v.isAuthenticated == state.isAuthenticated && v.loading == state.loading
    ensures state.user.None? ==> !v.isHR && !v.isAdmin && !v.isCandidate && !v.isInterviewer
    ensures v.isHR <==> state.user.Some? && state.user.value.role in {"hr", "admin"}
    ensures v.isAdmin <==> state.user.Some? && state.user.value.role == "admin"
    ensures v.isCandidate <==> state.user.Some? && state.user.value.role == "candidate"
    ensures v.isInterviewer <==> state.user.Some? && state.user.value.role == "interviewer"
  {
    AuthView(
      state.user, state.token, state.isAuthenticated, state.loading,
      HasRole(state, "hr") || HasRole(state, "admin"),
      HasRole(state, "admin"),
      HasRole(state, "candidate"),
      HasRole(state, "interviewer"))
  }

  /** An admin is also treated as HR. */
  lemma AdminIsHR(state: AuthState)
    ensures UseAuth(state).isAdmin ==> UseAuth(state).isHR
  {
  }

  /** Whatever the role string, at most one of the HR, candidate and interviewer flags holds. */
  lemma AtMostOneRoleFlag(state: AuthState)
    ensures var v := UseAuth(state);
      (if v.isHR then 1 else 0) + (if v.isCandidate then 1 else 0) + (if v.isInterviewer then 1 else 0) <= 1
  {
  }

  /**
   * With a role of the declared type only 'hr' sets a flag: the admin, candidate and
   * interviewer flags cannot be reached by a user whose role is one of 'user', 'hr', 'employee'.
   */
  lemma DeclaredRolesFlags(state: AuthState)
    requires state.user.Some? && state.user.value.role in DeclaredRoles
    ensures var v := UseAuth(state);
      !v.isAdmin && !v.isCandidate && !v.isInterviewer && (v.isHR <==> state.user.value.role == "hr")
  {
  }
}
