/**
 * The auth slice reducer as the source writes it, assigning the draft's
 * fields in place (src/modules/auth/authSlice.js:13-39).
 */
module AuthReducer {
  import opened Common
  import opened Auth

  class AuthSlice {
    var isLoading: bool
    var user: User
    var error: Option<Error>

    /** The slice state as a value. */
    function State(): AuthState
      reads this
    {
      AuthState(isLoading, user, error)
    }

    /** `initialState`. */
    constructor ()
      ensures State() == InitialState
    {
      isLoading := false;
      user := NoUser;
      error := None;
    }

    method SignInStart()
      modifies this
      ensures State() == Auth.SignInStart(old(State()))
    {
      isLoading := true;
      error := None;
    }

    method SignInSuccess(token: Option<string>, userName: Option<string>)
      modifies this
      ensures State() == Auth.SignInSuccess(old(State()), token, userName)
      ensures SelectIsAuthenticated(State()) <==> token != Some("")
    {
      user := User(userName, token);
      isLoading := false;
      error := None;
    }

    method SignInFailure(e: Error)
      modifies this
      ensures State() == Auth.SignInFailure(old(State()), e)
      ensures !SelectIsAuthenticated(State())
    {
      error := Some(e);
      user := NoUser;
      isLoading := false;
    }
  }
}
