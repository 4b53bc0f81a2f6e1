/** The route table and what the application shows for a path and a session. */
module App {
  import opened Wrappers
  import opened AuthContext
  import PrivateRoute
  import UserDashboardRedirect

  datatype Page = LandingPage | HomePage | CandidatesPage | RegisterNewCheckPage | DashboardRedirect

  datatype RouteEntry =
    | Public(page: Page)
    | Protected(rolesRequired: seq<string>, page: Page)
    | Fallback

  /** The path → (rolesRequired, page) table; unmatched paths fall back to a /login redirect. */
  function RouteFor(path: string): RouteEntry {
    if path == "/" || path == "/login" then Public(LandingPage)
    else if path == "/dashboard" then Protected(["hr", "user"], DashboardRedirect)
    else if path == "/home" then Protected(["hr"], HomePage)
    else if path == "/candidates" then Protected(["hr"], CandidatesPage)
    else if path == "/registration" || path == "/new-check" then Protected(["hr", "user"], RegisterNewCheckPage)
    else Fallback
  }

  datatype Screen =
    | LoadingApplication
    | PublicPage(page: Page)
    | Guarded(view: PrivateRoute.GuardView<Page>)
    | NavigateLogin

  /** What `App` renders for `path`: a loading screen replaces every route while auth loads. */
  function AppScreen(auth: AuthView, path: string): Screen {
    if auth.loading then LoadingApplication
    else match RouteFor(path)
      case Public(page) => PublicPage(page)
      case Protected(roles, page) => Guarded(PrivateRoute.Guard(auth, Some(roles), Some(page), path))
      case Fallback => NavigateLogin
  }

  /** The page a screen actually renders, if any. */
  predicate Renders(screen: Screen, page: Page) {
    || screen == PublicPage(page)
    || (screen.Guarded? && screen.view.Layout? && screen.view.content == PrivateRoute.Render(page))
  }

  /**
   * Access control: the HR pages render only for a loaded, logged-in 'hr'
   * session on their own path, so a 'user' never reaches Home or the candidate list.
   */
  lemma HrPagesOnlyForHr(auth: AuthView, path: string)
    ensures Renders(AppScreen(auth, path), HomePage) <==>
      !auth.loading && auth.isLoggedIn && auth.userRole == Some("hr") && path == "/home"
    ensures Renders(AppScreen(auth, path), CandidatesPage) <==>
      !auth.loading && auth.isLoggedIn && auth.userRole == Some("hr") && path == "/candidates"
  {
    if !auth.loading && auth.isLoggedIn && RouteFor(path).Protected? {
      PrivateRoute.GuardDecision(auth, Some(RouteFor(path).rolesRequired), Some(RouteFor(path).page), path);
    }
  }

  /** A 'user' session renders only the landing page or the registration form. */
  lemma UserReachesOnlyRegistration(auth: AuthView, path: string, page: Page)
    requires auth.userRole == Some("user")
    requires Renders(AppScreen(auth, path), page)
    ensures page == LandingPage || page == RegisterNewCheckPage || page == DashboardRedirect
  {
    HrPagesOnlyForHr(auth, path);
  }

  /** Without a session only the public landing page renders. */
  lemma LoggedOutSeesOnlyLanding(auth: AuthView, path: string, page: Page)
    requires !auth.isLoggedIn
    requires Renders(AppScreen(auth, path), page)
    ensures page == LandingPage
  {
  }

  /** The dashboard route renders the role redirect, which never sends a 'user' to an HR page. */
  lemma DashboardSendsUserToRegistration(auth: AuthView)
    requires !auth.loading && auth.isLoggedIn && auth.userRole == Some("user")
    ensures Renders(AppScreen(auth, "/dashboard"), DashboardRedirect)
    ensures UserDashboardRedirect.DashboardTarget(auth) == UserDashboardRedirect.NavigateTo("/registration")
    ensures RouteFor("/registration") == Protected(["hr", "user"], RegisterNewCheckPage)
    ensures Renders(AppScreen(auth, "/registration"), RegisterNewCheckPage)
  {
    PrivateRoute.GuardDecision(auth, Some(["hr", "user"]), Some(DashboardRedirect), "/dashboard");
    PrivateRoute.GuardDecision(auth, Some(["hr", "user"]), Some(RegisterNewCheckPage), "/registration");
  }

  /**
   * A restored session whose role is neither 'hr' nor 'user' renders no
   * protected page: every protected route sends it to `/home`, and `/home`
   * itself sends it to `/home` again.
   */
  lemma ForeignRoleBouncesToHome(auth: AuthView, path: string)
    requires !auth.loading && auth.isLoggedIn
    requires auth.userRole != Some("hr") && auth.userRole != Some("user")
    requires RouteFor(path).Protected?
    ensures AppScreen(auth, path).Guarded? && AppScreen(auth, path).view.Layout?
    ensures AppScreen(auth, path).view.content == PrivateRoute.NavigateTo("/home")
    ensures AppScreen(auth, "/home").view.content == PrivateRoute.NavigateTo("/home")
  {
    PrivateRoute.GuardDecision(auth, Some(RouteFor(path).rolesRequired), Some(RouteFor(path).page), path);
    PrivateRoute.GuardDecision(auth, Some(["hr"]), Some(HomePage), "/home");
  }
}
