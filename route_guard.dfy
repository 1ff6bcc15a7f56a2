/**
 * The admin route guard: while the auth state is loading it shows a
 * spinner; afterwards it renders the protected page only for a signed-in
 * user whose `admin` claim is set, and redirects everyone else to `/login`.
 */
module RouteGuard {
  import opened Options

  const LoginPath: string := "/login"

  datatype View = Spinner | Redirect(to: string) | Children

  /** `PrivateRoute` on the auth context `(user, loading, isAdmin)`. */
  function PrivateRoute<U>(loading: bool, user: Option<U>, isAdmin: bool): (r: View)
    ensures loading ==> r == Spinner
    ensures r == Children <==> !loading && user.Some? && isAdmin
    ensures !loading && (user.None? || !isAdmin) ==> r == Redirect(LoginPath)
    ensures r.Redirect? ==> r.to == LoginPath
  {
    if loading then Spinner
    else if user.None? || !isAdmin then Redirect(LoginPath)
    else Children
  }

  /** The decision sees only whether a user is present, not which user it is. */
  lemma DependsOnlyOnPresence<U>(loading: bool, u: Option<U>, w: Option<U>, isAdmin: bool)
    requires u.Some? == w.Some?
    ensures PrivateRoute(loading, u, isAdmin) == PrivateRoute(loading, w, isAdmin)
  {
  }

  /** A signed-out user or a user without the admin claim never gets the protected page. */
  lemma NonAdminNeverSeesChildren<U>(loading: bool, user: Option<U>, isAdmin: bool)
    requires !isAdmin || user.None?
    ensures PrivateRoute(loading, user, isAdmin) != Children
  {
  }
}
