/** The route guards of auth/guards.tsx: `RequireAuth` wraps every protected
    page, `RequireRole` the pages of each role group. Each decides between a
    loading view, a redirect and rendering the nested routes. */
module Guards {
  import opened Wrappers
  import opened Roles

  datatype User = User(id: string, name: Option<string>, role: Role)

  /** What the authentication context offers: the signed-in user, if any,
      and whether it is still being worked out. */
  datatype Auth = Auth(user: Option<User>, loading: bool)

  datatype Location = Location(pathname: string)

  /** What a guard renders. A redirect replaces the current history entry
      and may carry the location it came from. */
  datatype View = Loading | Redirect(to: string, from: Option<Location>) | Outlet

  /** `RequireAuth` at location `loc`. */
  function RequireAuth(a: Auth, loc: Location): (v: View)
    ensures v.Loading? <==> a.loading
    ensures v.Outlet? <==> !a.loading && a.user.Some?
    ensures v.Redirect? ==> v == Redirect("/login", Some(loc))
  {
    if a.loading then Loading
    else if a.user.None? then Redirect("/login", Some(loc))
    else Outlet
  }

  /** `RequireRole` with the roles `allowed`. */
  function RequireRole(allowed: seq<Role>, a: Auth): (v: View)
    ensures !v.Loading?
    ensures v.Outlet? <==> a.user.Some? && a.user.value.role in allowed
    ensures a.user.None? ==> v == Redirect("/login", None)
    ensures a.user.Some? && a.user.value.role !in allowed ==> v == Redirect("/forbidden", None)
  {
    if a.user.None? then Redirect("/login", None)
    else if a.user.value.role !in allowed then Redirect("/forbidden", None)
    else Outlet
  }

  /** `RequireRole` decides on the user alone: the loading flag makes no
      difference to it. */
  lemma RequireRoleIgnoresLoading(allowed: seq<Role>, u: Option<User>)
    ensures RequireRole(allowed, Auth(u, true)) == RequireRole(allowed, Auth(u, false))
  {
  }

  /** A protected page: `RequireAuth`, then the `RequireRole` of its route
      group. A path that is not exactly one of the protected table's paths
      gets `None`, meaning the model makes no statement about it. Letter case
      and a trailing slash are compared exactly here, although the router
      ignores both; see README.md. */
  function Visit(a: Auth, loc: Location): (v: Option<View>)
    ensures v.None? <==> AllowedAt(loc.pathname).None?
  {
    match AllowedAt(loc.pathname)
    case None => None
    case Some(allowed) =>
      var outer := RequireAuth(a, loc);
      if outer.Outlet? then Some(RequireRole(allowed, a)) else Some(outer)
  }

  /** A protected page renders exactly when loading is over, someone is
      signed in and the route admits their role; a signed-in user whose role
      is not admitted is sent to /forbidden, an anonymous one to /login with
      the page to return to. */
  lemma VisitDecision(a: Auth, loc: Location)
    requires AllowedAt(loc.pathname).Some?
    ensures var v := Visit(a, loc).value;
      && (v == Outlet <==> !a.loading && a.user.Some? && MayOpen(a.user.value.role, loc.pathname))
      && (a.loading ==> v == Loading)
      && (!a.loading && a.user.None? ==> v == Redirect("/login", Some(loc)))
      && (!a.loading && a.user.Some? && !MayOpen(a.user.value.role, loc.pathname) ==> v == Redirect("/forbidden", None))
  {
  }

  /** Once loading is over, a signed-in user's landing page and every one of
      their tabs render. */
  lemma LandingAndTabsRender(u: User, i: nat)
    requires i < |TabsForRole(Some(u.role))|
    ensures Visit(Auth(Some(u), false), Location(DefaultPathForRole(Some(u.role)))) == Some(Outlet)
    ensures Visit(Auth(Some(u), false), Location(TabsForRole(Some(u.role))[i].path)) == Some(Outlet)
  {
    DefaultIsFirstTab(u.role);
    TabsAreAccessible(u.role, 0);
    TabsAreAccessible(u.role, i);
  }
}
