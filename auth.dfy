/**
 * The auth slice state, its three reducer cases as next-state functions and
 * its selectors (src/modules/auth/authSlice.js).
 */
module Auth {
  import opened Common

  /**
   * The stored user. The reducer keeps whatever the success payload carries,
   * so a field is `None` when the payload held something other than a string
   * (a missing key, null, ...).
   */
  datatype User = User(userName: Option<string>, token: Option<string>)

  /** The user `initialState` holds and `signInFailure` restores: both fields empty. */
  const NoUser: User := User(Some(""), Some(""))

  /** `error` holds whatever the failure payload carried; its selector returns it as is. */
  datatype AuthState = AuthState(isLoading: bool, user: User, error: Option<Error>)

  const InitialState: AuthState := AuthState(false, NoUser, None)

  /**
   * `selectIsAuthenticated`: `token !== ''`, so any token other than the
   * empty string counts, including a non-string one.
   */
  function SelectIsAuthenticated(s: AuthState): (r: bool)
    ensures r <==> s.user.token.None? || |s.user.token.value| > 0
  {
    s.user.token != Some("")
  }

  lemma InitialStateUnauthenticated()
    ensures !SelectIsAuthenticated(InitialState)
    ensures !InitialState.isLoading && InitialState.error == None
    ensures InitialState.user.userName == Some("") && InitialState.user.token == Some("")
  {
  }

  /** `signInStart`: the request is pending; the current user is kept. */
  function SignInStart(s: AuthState): (r: AuthState)
    ensures r.isLoading && r.error == None && r.user == s.user
    ensures SelectIsAuthenticated(r) == SelectIsAuthenticated(s)
  {
    s.(isLoading := true, error := None)
  }

  /** `signInSuccess`: the response's user is stored; authenticated unless its token is the empty string. */
  function SignInSuccess(s: AuthState, token: Option<string>, userName: Option<string>): (r: AuthState)
    ensures r.user.token == token && r.user.userName == userName
    ensures !r.isLoading && r.error == None
    ensures SelectIsAuthenticated(r) <==> token != Some("")
  {
    s.(user := User(userName, token), isLoading := false, error := None)
  }

  /** `signInFailure`: the error is stored and the user is reset, so no session remains. */
  function SignInFailure(s: AuthState, error: Error): (r: AuthState)
    ensures r.error == Some(error) && !r.isLoading
    ensures r.user.token == Some("") && r.user.userName == Some("")
    ensures !SelectIsAuthenticated(r)
  {
    s.(error := Some(error), user := NoUser, isLoading := false)
  }
}
