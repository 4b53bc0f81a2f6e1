/** The route guard: loading view, login redirect, role redirect, or the requested element. */
module PrivateRoute {
  import opened Wrappers
  import opened Strings
  import opened AuthContext

  /** What the layout's main area shows: the element, or a redirect rendered in its place. */
  datatype Content<E> = Render(element: E) | NavigateTo(path: string)

  datatype GuardView<E> =
    | LoadingSession
    | RedirectTo(path: string)
    | Layout(showSidebar: bool, content: Content<E>)

  /** Paths under which non-HR users see no sidebar. */
  const HiddenSidebarPrefixes: seq<string> := ["/registration", "/new-check"]

  /** The sidebar shows for 'hr' everywhere, and for everyone else outside the hidden prefixes. */
  predicate ShowSidebar(role: Option<string>, pathname: string) {
    role == Some("hr") || !(exists p :: p in HiddenSidebarPrefixes && StartsWith(pathname, p))
  }

  /** `rolesRequired.includes(userRole)` */
  predicate RoleAllowed(rolesRequired: seq<string>, role: Option<string>) {
    role.Some? && role.value in rolesRequired
  }

  /** The guard's decision for one render. */
  function Guard<E>(auth: AuthView, rolesRequired: Option<seq<string>>, element: Option<E>, pathname: string): (v: GuardView<E>)
    ensures auth.loading ==> v == LoadingSession
    ensures !auth.loading && !auth.isLoggedIn ==> v == RedirectTo("/login")
    ensures v.Layout? && v.content.Render? ==>
      element == Some(v.content.element)
      && (rolesRequired.None? || rolesRequired.value == [] || RoleAllowed(rolesRequired.value, auth.userRole))
  {
    if auth.loading then LoadingSession
    else if !auth.isLoggedIn then RedirectTo("/login")
    else
      var content: Option<Content<E>> :=
        if rolesRequired.Some? && |rolesRequired.value| > 0 && !RoleAllowed(rolesRequired.value, auth.userRole) then
          Some(NavigateTo(if auth.userRole == Some("user") then "/registration" else "/home"))
        else if element.Some? then Some(Render(element.value))
        else None;
      Layout(ShowSidebar(auth.userRole, pathname), content.GetOr(NavigateTo("/login")))
  }

  /** The guard's decision for a logged-in, loaded session, case by case. */
  lemma GuardDecision<E>(auth: AuthView, rolesRequired: Option<seq<string>>, element: Option<E>, pathname: string)
    requires !auth.loading && auth.isLoggedIn
    ensures var v := Guard(auth, rolesRequired, element, pathname);
      && v.Layout? && (v.showSidebar <==> ShowSidebar(auth.userRole, pathname))
      && (rolesRequired.Some? && rolesRequired.value != [] && !RoleAllowed(rolesRequired.value, auth.userRole) ==>
            v.content == NavigateTo(if auth.userRole == Some("user") then "/registration" else "/home"))
      && ((rolesRequired.None? || rolesRequired.value == [] || RoleAllowed(rolesRequired.value, auth.userRole)) ==>
            v.content == if element.Some? then Render(element.value) else NavigateTo("/login"))
  {
  }

  /** The hidden prefixes match by prefix, so a sub-path hides the sidebar for a 'user' as well. */
  lemma SidebarPrefixMatch(pathname: string, role: Option<string>)
    ensures ShowSidebar(role, pathname) <==>
      role == Some("hr") || (!StartsWith(pathname, "/registration") && !StartsWith(pathname, "/new-check"))
  {
  }
}
