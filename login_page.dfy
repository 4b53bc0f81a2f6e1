/** The login drawer: mock credential lookup and the role-based navigation after login. */
module LoginPage {
  import opened Wrappers
  import opened AuthContext

  datatype Credential = Credential(email: string, password: string, role: string)

  /** The mock backend's test accounts. */
  const MockCredentials: seq<Credential> := [
    Credential("hr@trident.com", "1234", "hr"),
    Credential("user@trident.com", "1234", "user")
  ]

  predicate Matches(c: Credential, email: string, password: string) {
    c.email == email && c.password == password
  }

  /** `mockUsers.find(u => u.email === email && u.password === password)` */
  function FindUser(users: seq<Credential>, email: string, password: string): (r: Option<Credential>)
    ensures r.None? <==> forall i :: 0 <= i < |users| ==> !Matches(users[i], email, password)
    ensures r.Some? ==> exists i :: (0 <= i < |users| && users[i] == r.value
      && Matches(users[i], email, password)
      && forall j :: 0 <= j < i ==> !Matches(users[j], email, password))
  {
    if users == [] then None
    else if Matches(users[0], email, password) then Some(users[0])
    else
      var r := FindUser(users[1..], email, password);
      assert forall i :: 1 <= i < |users| ==> users[i] == users[1..][i - 1];
      if r.Some? then
        var k :| 0 <= k < |users[1..]| && users[1..][k] == r.value && Matches(users[1..][k], email, password)
          && forall j :: 0 <= j < k ==> !Matches(users[1..][j], email, password);
        assert users[k + 1] == r.value;
        r
      else r
  }

  /** Where a successful login leads: 'hr' to /home, 'user' to /registration, anything else nowhere. */
  function NavigationAfterLogin(role: string): Option<string> {
    if role == "hr" then Some("/home")
    else if role == "user" then Some("/registration")
    else None
  }

  const InvalidCredentialsMessage: string := "Invalid email or password. Please check your credentials."

  class LoginForm {
    var email: string
    var password: string
    /** Read only by a log line; no state depends on it. */
    var rememberMe: bool
    var error: string
    var isLoading: bool

    constructor ()
      ensures email == "" && password == "" && !rememberMe && error == "" && !isLoading
    {
      email, password, rememberMe, error, isLoading := "", "", false, "", false;
    }

    /**
     * `handleLogin`, with the simulated delay collapsed: the first matching
     * account logs in and navigates by role; no match sets the error message.
     */
    method HandleLogin(auth: AuthProvider) returns (navigation: Option<string>)
      requires auth.Valid()
      modifies this, auth
      ensures auth.Valid()
      ensures !isLoading
      ensures email == old(email) && password == old(password) && rememberMe == old(rememberMe)
      ensures var found := FindUser(MockCredentials, old(email), old(password));
        && (found.Some? ==>
              error == "" && navigation == NavigationAfterLogin(found.value.role)
              && auth.userRole == Some(found.value.role) && auth.isLoggedIn
              && auth.storedRole == Some(found.value.role) && auth.loading == old(auth.loading))
        && (found.None? ==>
              error == InvalidCredentialsMessage && navigation == None
              && unchanged(auth))
    {
      error := "";
      isLoading := true;
      var userFound := FindUser(MockCredentials, email, password);
      isLoading := false;
      if userFound.Some? {
        var role := userFound.value.role;
        assert userFound.value in MockCredentials;
        auth.Login(role);
        navigation := NavigationAfterLogin(role);
      } else {
        error := InvalidCredentialsMessage;
        navigation := None;
      }
    }
  }

  /** Each mock account logs in with its own role and lands on that role's start page. */
  lemma MockAccounts()
    ensures FindUser(MockCredentials, "hr@trident.com", "1234") == Some(MockCredentials[0])
    ensures FindUser(MockCredentials, "user@trident.com", "1234") == Some(MockCredentials[1])
    ensures NavigationAfterLogin(MockCredentials[0].role) == Some("/home")
    ensures NavigationAfterLogin(MockCredentials[1].role) == Some("/registration")
    ensures forall c :: c in MockCredentials ==> AcceptedRole(c.role)
  {
  }
}
