/** The client's route table and the `ProtectedRoute` guard. */
module App {

  /** What `ProtectedRoute` renders. */
  datatype Decision = RedirectToLogin | RedirectToHome | Render

  /** The guard: a visitor without a session goes to /login, a signed-in non-admin
      on an admin-only route goes to /, everyone else sees the page. */
  function ProtectedRoute(isAuthenticated: bool, isAdmin: bool, adminOnly: bool): (d: Decision)
    ensures d == RedirectToLogin <==> !isAuthenticated
    ensures d == RedirectToHome <==> isAuthenticated && adminOnly && !isAdmin
    ensures d == Render <==> isAuthenticated && (!adminOnly || isAdmin)
  {
    if !isAuthenticated then RedirectToLogin
    else if adminOnly && !isAdmin then RedirectToHome
    else Render
  }

  /** A route of the table: whether it is wrapped in `ProtectedRoute`, and with
      `adminOnly` set. */
  datatype Route = Route(path: string, guarded: bool, adminOnly: bool)

  const Routes: seq<Route> := [
    Route("/", false, false),
    Route("/map", false, false),
    Route("/feed", false, false),
    Route("/report", false, false),
    Route("/reports/:id", false, false),
    Route("/login", false, false),
    Route("/register", false, false),
    Route("/admin", true, true),
    Route("/admin/reports", true, true),
    Route("/admin/users", true, true)
  ]

  /** The first `|prefix|` characters of `path` are `prefix`. */
  predicate StartsWith(path: string, prefix: string) {
    |prefix| <= |path| && path[..|prefix|] == prefix
  }

  lemma OtherSecondLetterIsNotAdmin(path: string)
    requires |path| < 2 || path[1] != 'a'
    ensures !StartsWith(path, "/admin")
  {
    if |path| >= |"/admin"| {
      assert path[..|"/admin"|][1] == path[1];
    }
  }

  /** How a route is served to a visitor. */
  function Serve(r: Route, isAuthenticated: bool, isAdmin: bool): Decision {
    if r.guarded then ProtectedRoute(isAuthenticated, isAdmin, r.adminOnly) else Render
  }

  /** The admin pages are exactly the guarded ones, and every one of them is
      admin-only: only an authenticated admin ever sees them. */
  lemma AdminPagesNeedAnAdmin(isAuthenticated: bool, isAdmin: bool)
    ensures forall i | 0 <= i < |Routes| :: Routes[i].guarded <==> StartsWith(Routes[i].path, "/admin")
    ensures forall i | 0 <= i < |Routes| && StartsWith(Routes[i].path, "/admin") ::
      Routes[i].adminOnly && (Serve(Routes[i], isAuthenticated, isAdmin) == Render <==> isAuthenticated && isAdmin)
  {
    forall i | 0 <= i < |Routes|
      ensures Routes[i].guarded <==> StartsWith(Routes[i].path, "/admin")
    {
      if !Routes[i].guarded {
        OtherSecondLetterIsNotAdmin(Routes[i].path);
      }
    }
  }
}
