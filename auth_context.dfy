/** The mock session: role, login flag and loading flag, backed by a stored role. */
module AuthContext {
  import opened Wrappers

  /** What the pages read from the context. */
  datatype AuthView = AuthView(isLoggedIn: bool, userRole: Option<string>, loading: bool)

  /** The only roles `login` accepts. */
  predicate AcceptedRole(role: string) {
    role == "hr" || role == "user"
  }

  class AuthProvider {
    var isLoggedIn: bool
    var userRole: Option<string>
    var loading: bool
    /** The browser's stored 'userRole' entry (`localStorage`), `None` when absent. */
    var storedRole: Option<string>

    /** Logged in exactly when a (non-empty) role is held. */
    ghost predicate Valid()
      reads this
    {
      (isLoggedIn <==> userRole.Some?) && (userRole.Some? ==> userRole.value != "")
    }

    function View(): AuthView
      reads this
    {
      AuthView(isLoggedIn, userRole, loading)
    }

    /** First render: logged out, no role, still loading. */
    constructor (stored: Option<string>)
      ensures Valid()
      ensures View() == AuthView(false, None, true)
      ensures storedRole == stored
    {
      isLoggedIn := false;
      userRole := None;
      loading := true;
      storedRole := stored;
    }

    /** The mount effect: a non-empty stored role restores the session; loading ends either way. */
    method Init()
      requires Valid()
      modifies this
      ensures Valid()
      ensures !loading
      ensures storedRole == old(storedRole)
      ensures old(storedRole).Some? && old(storedRole).value != "" ==>
        userRole == old(storedRole) && isLoggedIn
      ensures !(old(storedRole).Some? && old(storedRole).value != "") ==>
        userRole == old(userRole) && isLoggedIn == old(isLoggedIn)
    {
      var stored := storedRole;
      if stored.Some? && stored.value != "" {
        userRole := stored;
        isLoggedIn := true;
      }
      loading := false;
    }

    /** `login(role)`: only 'hr' and 'user' are accepted; any other role changes nothing. */
    method Login(role: string)
      requires Valid()
      modifies this
      ensures Valid()
      ensures AcceptedRole(role) ==>
        storedRole == Some(role) && userRole == Some(role) && isLoggedIn && loading == old(loading)
      ensures !AcceptedRole(role) ==> unchanged(this)
    {
      if role == "hr" || role == "user" {
        storedRole := Some(role);
        userRole := Some(role);
        isLoggedIn := true;
      }
    }

    /** `logout()`: clears the stored role and the session; calling it again changes nothing more. */
    method Logout()
      requires Valid()
      modifies this
      ensures Valid()
      ensures storedRole == None && userRole == None && !isLoggedIn && loading == old(loading)
    {
      storedRole := None;
      userRole := None;
      isLoggedIn := false;
    }
  }
}
