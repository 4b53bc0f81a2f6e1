/** The /dashboard landing: sends each role to its own start page. */
module UserDashboardRedirect {
  import opened Wrappers
  import opened AuthContext

  datatype RedirectView = Loading | NavigateTo(path: string)

  function DashboardTarget(auth: AuthView): (v: RedirectView)
    ensures v == Loading <==> auth.loading
  {
    if auth.loading then Loading
    else if !auth.isLoggedIn then NavigateTo("/")
    else if auth.userRole == Some("hr") then NavigateTo("/home")
    else if auth.userRole == Some("user") then NavigateTo("/registration")
    else NavigateTo("/")
  }

  /** Once loaded, 'hr' lands on /home, 'user' on /registration, and everyone else on "/". */
  lemma DashboardTargetMeaning(auth: AuthView)
    requires !auth.loading
    ensures DashboardTarget(auth) == NavigateTo("/home") <==> auth.isLoggedIn && auth.userRole == Some("hr")
    ensures DashboardTarget(auth) == NavigateTo("/registration") <==> auth.isLoggedIn && auth.userRole == Some("user")
    ensures DashboardTarget(auth) == NavigateTo("/") <==>
      !auth.isLoggedIn || (auth.userRole != Some("hr") && auth.userRole != Some("user"))
  {
  }
}
