/** The client's route table and its `PrivateRoute` wrapper: which page a path shows, and
    when a visitor is sent to the login page or back to the landing page instead. */
module AppRoutes {
  import opened Common
  import opened Records
  import AuthMiddleware

  /** The pages the table can render. */
  datatype Page =
    | Landing | Login | Register | Profile | Dashboard | AdminDashboard
    | UploadHistory | AnalysisHistory | Visualize | AllUploadHistory | AdminAnalyses
    | SuperAdminPanel | UserManagement | UploadRecords | ChartAnalysesPanel

  /** What the router shows for a path. */
  datatype Screen = Loading | Redirect(to: string) | Render(page: Page)

  /** The authentication context: still loading, and the signed-in user's role if any. */
  datatype AuthState = AuthState(loading: bool, user: Option<string>)

  /** `PrivateRoute`: wait while loading, send a visitor to `/login`, send a user whose role
      is not listed to `/`, and otherwise render the page. Membership is exact: no role
      stands in for another. */
  function PrivateRoute(auth: AuthState, roles: Option<seq<string>>, page: Page): (s: Screen)
    ensures auth.loading <==> s == Loading
    ensures !auth.loading && auth.user.None? <==> s == Redirect("/login")
    ensures s.Render? <==> !auth.loading && auth.user.Some? && (roles.None? || auth.user.value in roles.value)
    ensures s.Render? ==> s.page == page
    ensures s.Redirect? ==> s.to == "/login" || s.to == "/"
  {
    if auth.loading then Loading
    else if auth.user.None? then Redirect("/login")
    else if roles.Some? && auth.user.value !in roles.value then Redirect("/")
    else Render(page)
  }

  /** One `<Route>`: its path as written, the roles of its `PrivateRoute` if it has one, and
      its page. */
  datatype Route = Route(path: string, guard: Option<seq<string>>, page: Page)

  const AllRoles: seq<string> := [UserRole, AdminRole, SuperAdminRole]
  const Admins: seq<string> := [AdminRole, SuperAdminRole]
  const SuperAdmins: seq<string> := [SuperAdminRole]

  const Table: seq<Route> := [
    Route("/", None, Landing),
    Route("/login", None, Login),
    Route("/register", None, Register),
    Route("/profile", None, Profile),
    Route("/dashboard", Some(AllRoles), Dashboard),
    Route("/admin", Some(Admins), AdminDashboard),
    Route("/upload-history", None, UploadHistory),
    Route("/analysis-history", None, AnalysisHistory),
    Route("/visualize", None, Visualize),
    Route("/admin/uploads", Some(Admins), AllUploadHistory),
    Route("/admin/analyses", Some(Admins), AdminAnalyses),
    Route("/superadmin", Some(SuperAdmins), SuperAdminPanel),
    Route("/admin/users/manage", Some(SuperAdmins), UserManagement),
    Route("admin/upload-records", Some(SuperAdmins), UploadRecords),
    Route("/admin/chart-analyses", Some(Admins), ChartAnalysesPanel)
  ]

  /** A route path without a leading slash is relative to the root route, so
      `admin/upload-records` is matched as `/admin/upload-records`. */
  function Absolute(path: string): (r: string)
    ensures r != [] && r[0] == '/'
    ensures path != [] && path[0] == '/' ==> r == path
    ensures !(path != [] && path[0] == '/') ==> r[1..] == path
  {
    if path != [] && path[0] == '/' then path else "/" + path
  }

  /** The route whose absolute path is `path`, if any. */
  function FindRoute(routes: seq<Route>, path: string): (r: Option<Route>)
    ensures r.Some? ==> r.value in routes && Absolute(r.value.path) == path
    ensures r.None? <==> forall i :: 0 <= i < |routes| ==> Absolute(routes[i].path) != path
  {
    if routes == [] then None
    else if Absolute(routes[0].path) == path then Some(routes[0])
    else FindRoute(routes[1..], path)
  }

  /** What the app shows at `path`: an unguarded route renders at once, a guarded one goes
      through `PrivateRoute`, and the `*` fallback sends every other path to `/`. */
  function Element(path: string, auth: AuthState): (s: Screen)
  {
    match FindRoute(Table, path)
    case None => Redirect("/")
    case Some(route) =>
      if route.guard.None? then Render(route.page) else PrivateRoute(auth, route.guard, route.page)
  }

  /** No two routes share a path, so the first match is the only one. */
  lemma TablePathsDistinct()
    ensures forall i, j :: 0 <= i < j < |Table| ==> Absolute(Table[i].path) != Absolute(Table[j].path)
  {
    PathsDistinctFrom0();
    PathsDistinctFrom2();
    PathsDistinctFrom4();
    PathsDistinctFrom7();
  }

  lemma PathsDistinctFrom0()
    ensures forall i, j :: 0 <= i < 2 && i < j < |Table| ==> Absolute(Table[i].path) != Absolute(Table[j].path)
  {
  }

  lemma PathsDistinctFrom2()
    ensures forall i, j :: 2 <= i < 4 && i < j < |Table| ==> Absolute(Table[i].path) != Absolute(Table[j].path)
  {
  }

  lemma PathsDistinctFrom4()
    ensures forall i, j :: 4 <= i < 7 && i < j < |Table| ==> Absolute(Table[i].path) != Absolute(Table[j].path)
  {
  }

  lemma PathsDistinctFrom7()
    ensures forall i, j :: 7 <= i < 15 && i < j < |Table| ==> Absolute(Table[i].path) != Absolute(Table[j].path)
  {
  }

  /** With distinct paths, looking up a route's own path finds that route. */
  lemma {:induction false} FindRouteOfDistinct(routes: seq<Route>, i: nat)
    requires forall j, k :: 0 <= j < k < |routes| ==> Absolute(routes[j].path) != Absolute(routes[k].path)
    requires i < |routes|
    ensures FindRoute(routes, Absolute(routes[i].path)) == Some(routes[i])
  {
    if i > 0 {
      FindRouteOfDistinct(routes[1..], i - 1);
    }
  }

  /** Each route of the table is the one its path selects. */
  lemma RouteAt(i: nat)
    requires i < |Table|
    ensures FindRoute(Table, Absolute(Table[i].path)) == Some(Table[i])
  {
    TablePathsDistinct();
    FindRouteOfDistinct(Table, i);
  }

  /** The screen at route `i`'s path, for any authentication state. */
  lemma ElementAt(i: nat, auth: AuthState)
    requires i < |Table|
    ensures Element(Absolute(Table[i].path), auth)
            == if Table[i].guard.None? then Render(Table[i].page) else PrivateRoute(auth, Table[i].guard, Table[i].page)
  {
    RouteAt(i);
  }

  /** The three superadmin-only pages render, once loaded, exactly for a superadmin. */
  lemma SuperAdminOnlyRoutes(i: nat, role: string)
    requires i < |Table| && Table[i].page in {SuperAdminPanel, UserManagement, UploadRecords}
    ensures Element(Absolute(Table[i].path), AuthState(false, Some(role))).Render? <==> role == SuperAdminRole
    ensures role != SuperAdminRole ==> Element(Absolute(Table[i].path), AuthState(false, Some(role))) == Redirect("/")
  {
    assert Table[i].guard == Some(SuperAdmins);
    ElementAt(i, AuthState(false, Some(role)));
  }

  /** The four admin pages render, once loaded, exactly for an admin or a superadmin. */
  lemma AdminRoutes(i: nat, role: string)
    requires i < |Table| && Table[i].page in {AdminDashboard, AllUploadHistory, AdminAnalyses, ChartAnalysesPanel}
    ensures Element(Absolute(Table[i].path), AuthState(false, Some(role))).Render? <==> role == AdminRole || role == SuperAdminRole
  {
    assert Table[i].guard == Some(Admins);
    ElementAt(i, AuthState(false, Some(role)));
  }

  /** The dashboard renders for the three known roles and for no other role. */
  lemma DashboardPath(role: string)
    ensures Element("/dashboard", AuthState(false, Some(role))).Render? <==> role in AllRoles
  {
    assert Table[4] == Route("/dashboard", Some(AllRoles), Dashboard);
    RouteAt(4);
  }

  /** The unguarded pages render whatever the authentication state, even with nobody signed in. */
  lemma OpenRoutes(i: nat, auth: AuthState)
    requires i < |Table| && Table[i].page in {Landing, Login, Register, Profile, UploadHistory, AnalysisHistory, Visualize}
    ensures Table[i].guard.None?
    ensures Element(Absolute(Table[i].path), auth) == Render(Table[i].page)
  {
    assert Table[i].guard.None?;
    ElementAt(i, auth);
  }

  /** A guarded page waits while loading and sends a visitor to the login page. */
  lemma GuardedPaths(path: string)
    requires FindRoute(Table, path).Some? && FindRoute(Table, path).value.guard.Some?
    ensures Element(path, AuthState(true, None)) == Loading
    ensures Element(path, AuthState(false, None)) == Redirect("/login")
  {
  }

  /** Every path outside the table goes back to the landing page. */
  lemma UnknownPath(path: string, auth: AuthState)
    requires forall i :: 0 <= i < |Table| ==> Absolute(Table[i].path) != path
    ensures Element(path, auth) == Redirect("/")
  {
  }

  /** For the three role lists the table uses, the client's exact membership agrees with the
      server's hierarchy check, unknown roles included. */
  lemma TableListsAgreeWithServer(roles: seq<string>, role: string)
    requires roles in [AllRoles, Admins, SuperAdmins]
    ensures role in roles <==> AuthMiddleware.RoleAdmits(roles, role)
  {
    assert AuthMiddleware.MinLevel(AllRoles) == 1;
    assert AuthMiddleware.MinLevel(Admins) == 2;
  }

  /** Membership is not the hierarchy: a list naming only `admin` refuses a superadmin on the
      client, where the server's check would admit one. */
  lemma MembershipIsNotHierarchy()
    ensures PrivateRoute(AuthState(false, Some(SuperAdminRole)), Some([AdminRole]), AdminDashboard) == Redirect("/")
    ensures AuthMiddleware.RoleAdmits([AdminRole], SuperAdminRole)
  {
  }
}
