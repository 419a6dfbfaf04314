/** Roles, the tabs each role sees (auth/roles.ts), the pages each role may
    open (the route table of App.tsx) and the tab bar of the protected layout,
    which is hidden when there is at most one tab. */
module Roles {
  import opened Wrappers

  datatype Role = Employee | Manager | Hr | Admin

  /** The role's name as it appears in a token or a login reply. */
  function RoleName(r: Role): (s: string)
    ensures s in {"employee", "manager", "hr", "admin"}
  {
    match r
    case Employee => "employee"
    case Manager => "manager"
    case Hr => "hr"
    case Admin => "admin"
  }

  lemma RoleNameInjective(a: Role, b: Role)
    ensures RoleName(a) == RoleName(b) ==> a == b
  {
  }

  datatype Tab = Tab(path: string, caption: string)

  const EmployeeTab: Tab := Tab("/employee", "직원")
  const ManagerTab: Tab := Tab("/manager", "상사 검토")
  const HrTab: Tab := Tab("/hr", "인사 관리자")

  /** `tabsForRole`: nothing without a role, all three pages for an admin,
      otherwise the role's own page. */
  function TabsForRole(role: Option<Role>): (tabs: seq<Tab>)
    ensures role.None? <==> tabs == []
    ensures role == Some(Admin) ==> tabs == [EmployeeTab, ManagerTab, HrTab]
    ensures role.Some? && role.value != Admin ==> |tabs| == 1
  {
    match role
    case None => []
    case Some(Admin) => [EmployeeTab, ManagerTab, HrTab]
    case Some(Hr) => [HrTab]
    case Some(Manager) => [ManagerTab]
    case Some(Employee) => [EmployeeTab]
  }

  /** The single tab of a non-admin role is the page named after it. */
  lemma OwnTab(r: Role)
    requires r != Admin
    ensures TabsForRole(Some(r))[0].path == "/" + RoleName(r)
  {
  }

  /** `defaultPathForRole`: where a user lands after login. */
  function DefaultPathForRole(role: Option<Role>): (p: string)
    ensures role.None? <==> p == "/login"
    ensures role == Some(Admin) || role == Some(Employee) <==> p == "/employee"
  {
    match role
    case None => "/login"
    case Some(Admin) => "/employee"
    case Some(Hr) => "/hr"
    case Some(Manager) => "/manager"
    case Some(Employee) => "/employee"
  }

  /** The landing page is the first tab. */
  lemma DefaultIsFirstTab(r: Role)
    ensures |TabsForRole(Some(r))| >= 1
    ensures DefaultPathForRole(Some(r)) == TabsForRole(Some(r))[0].path
  {
  }

  /** The protected layout shows its tab bar only when there is more than one
      tab, and that happens only for an admin. */
  predicate TabBarShown(role: Option<Role>)
  {
    |TabsForRole(role)| > 1
  }

  lemma TabBarOnlyForAdmin(role: Option<Role>)
    ensures TabBarShown(role) <==> role == Some(Admin)
  {
  }

  /** A protected route of App.tsx and the roles its `RequireRole` admits. */
  datatype Route = Route(path: string, allowed: seq<Role>)

  const EveryRole: seq<Role> := [Employee, Admin, Manager, Hr]

  const ProtectedRoutes: seq<Route> := [
    Route("/employee", EveryRole),
    Route("/employee/leave", EveryRole),
    Route("/employee/worklog", EveryRole),
    Route("/manager", [Manager, Admin]),
    Route("/hr", [Hr, Admin])
  ]

  /** The roles admitted at `path` by the first protected route with that
      path, or `None` when there is none. */
  function AllowedAt(path: string): (a: Option<seq<Role>>)
    ensures a.None? <==> forall i :: 0 <= i < |ProtectedRoutes| ==> ProtectedRoutes[i].path != path
  {
    LookUp(ProtectedRoutes, path)
  }

  function LookUp(routes: seq<Route>, path: string): (a: Option<seq<Role>>)
    ensures a.None? <==> forall i :: 0 <= i < |routes| ==> routes[i].path != path
  {
    if routes == [] then None
    else if routes[0].path == path then Some(routes[0].allowed)
    else
      assert forall i :: 1 <= i < |routes| ==> routes[i] == routes[1..][i - 1];
      LookUp(routes[1..], path)
  }

  /** The lookup finds the first route with the path. */
  lemma {:induction false} LookUpFirst(routes: seq<Route>, path: string, i: nat)
    requires i < |routes| && routes[i].path == path
    requires forall j :: 0 <= j < i ==> routes[j].path != path
    ensures LookUp(routes, path) == Some(routes[i].allowed)
  {
    if i > 0 {
      assert routes[1..][i - 1] == routes[i];
      assert forall j :: 0 <= j < i - 1 ==> routes[1..][j] == routes[j + 1];
      LookUpFirst(routes[1..], path, i - 1);
    }
  }

  /** The roles of each protected page, as App.tsx lists them. */
  lemma RouteTable()
    ensures AllowedAt("/employee") == Some(EveryRole)
    ensures AllowedAt("/employee/leave") == Some(EveryRole)
    ensures AllowedAt("/employee/worklog") == Some(EveryRole)
    ensures AllowedAt("/manager") == Some([Manager, Admin])
    ensures AllowedAt("/hr") == Some([Hr, Admin])
  {
    var t := ProtectedRoutes;
    LookUpFirst(t, "/employee", 0);
    LookUpFirst(t, "/employee/leave", 1);
    LookUpFirst(t, "/employee/worklog", 2);
    LookUpFirst(t, "/manager", 3);
    LookUpFirst(t, "/hr", 4);
  }

  /** `path` is a protected page that `r` may open. */
  predicate MayOpen(r: Role, path: string)
  {
    var a := AllowedAt(path);
    a.Some? && r in a.value
  }

  /** Every tab leads to a page the role may open. */
  lemma TabsAreAccessible(r: Role, i: nat)
    requires i < |TabsForRole(Some(r))|
    ensures MayOpen(r, TabsForRole(Some(r))[i].path)
  {
    RouteTable();
  }

  /** The /manager and /hr pages are closed to the roles without a tab for
      them. */
  lemma PagesWithoutTab(r: Role)
    ensures MayOpen(r, "/manager") <==> r == Manager || r == Admin
    ensures MayOpen(r, "/hr") <==> r == Hr || r == Admin
  {
    RouteTable();
  }

  /** The employee pages are open to every role. */
  lemma EmployeePagesOpenToAll(r: Role)
    ensures MayOpen(r, "/employee") && MayOpen(r, "/employee/leave") && MayOpen(r, "/employee/worklog")
  {
    RouteTable();
  }
}
