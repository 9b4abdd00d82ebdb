/**
 * The auth slice's actions, its reducer, and the `signIn` thunk as the
 * actions it dispatches for a given API outcome (src/modules/auth/authSlice.js).
 */
module AuthThunk {
  import opened Common
  import A = Auth

  /** The action creators exported by the slice; `None` stands for a payload field that is not a string. */
  datatype Action =
    | SignInStart
    | SignInSuccess(token: Option<string>, userName: Option<string>)
    | SignInFailure(error: Error)

  /** The slice reducer: one case per action type. */
  function Reduce(s: A.AuthState, a: Action): (r: A.AuthState)
    ensures r.isLoading <==> a.SignInStart?
    ensures a.SignInStart? ==> r.user == s.user
  {
    match a
    case SignInStart => A.SignInStart(s)
    case SignInSuccess(token, userName) => A.SignInSuccess(s, token, userName)
    case SignInFailure(e) => A.SignInFailure(s, e)
  }

  /** The last success or failure among `actions`, skipping start actions; None when there is none. */
  function LastOutcome(actions: seq<Action>): (r: Option<Action>)
    ensures r.Some? ==> !r.value.SignInStart? && r.value in actions
    ensures r.None? <==> forall i :: 0 <= i < |actions| ==> actions[i].SignInStart?
    decreases |actions|
  {
    if actions == [] then None
    else if !actions[|actions| - 1].SignInStart? then Some(actions[|actions| - 1])
    else
      var init := actions[..|actions| - 1];
      assert forall i :: 0 <= i < |init| ==> init[i] == actions[i];
      LastOutcome(init)
  }

  /**
   * Dispatching actions one after another. The last action decides loading
   * and the error; the last success or failure decides the user, and so
   * whether the session is authenticated.
   */
  function ReduceAll(s: A.AuthState, actions: seq<Action>): (r: A.AuthState)
    ensures actions == [] ==> r == s
    ensures actions != [] ==> (r.isLoading <==> actions[|actions| - 1].SignInStart?)
    ensures actions != [] ==>
              r.error == (if actions[|actions| - 1].SignInFailure? then Some(actions[|actions| - 1].error) else None)
    ensures LastOutcome(actions).None? ==> r.user == s.user
    ensures LastOutcome(actions).Some? && LastOutcome(actions).value.SignInSuccess? ==>
              r.user == A.User(LastOutcome(actions).value.userName, LastOutcome(actions).value.token)
    ensures LastOutcome(actions).Some? && LastOutcome(actions).value.SignInFailure? ==> r.user == A.NoUser
    ensures A.SelectIsAuthenticated(r) <==>
              if LastOutcome(actions).None? then A.SelectIsAuthenticated(s)
              else LastOutcome(actions).value.SignInSuccess? && LastOutcome(actions).value.token != Some("")
    decreases |actions|
  {
    if actions == [] then s
    else Reduce(ReduceAll(s, actions[..|actions| - 1]), actions[|actions| - 1])
  }

  datatype Credentials = Credentials(email: string, password: string)

  /** The fields `signIn` destructures from the API's response. */
  datatype SignInResponse = SignInResponse(token: Option<string>, userName: Option<string>)

  /**
   * `signIn({ email, password })`: the credentials are sent as they are; start,
   * then success with the response's token and user name, or failure with
   * the rejection.
   */
  function SignIn(creds: Credentials, outcome: ApiOutcome<SignInResponse>): (r: ThunkRun<Credentials, Action>)
    ensures r.request == creds
    ensures |r.dispatched| == 2 && r.dispatched[0] == SignInStart
    ensures outcome.Resolved? ==> r.dispatched[1] == SignInSuccess(outcome.value.token, outcome.value.userName)
    ensures outcome.Rejected? ==> r.dispatched[1] == SignInFailure(outcome.error)
  {
    var last := match outcome
      case Resolved(resp) => SignInSuccess(resp.token, resp.userName)
      case Rejected(e) => SignInFailure(e);
    ThunkRun(creds, [SignInStart, last])
  }

  /**
   * Running `signIn` against any state ends the request; afterwards the
   * session is authenticated exactly when the API resolved with a token other
   * than the empty string, and the stored error is the rejection, if any.
   */
  lemma SignInOutcome(s: A.AuthState, creds: Credentials, outcome: ApiOutcome<SignInResponse>)
    ensures var r := ReduceAll(s, SignIn(creds, outcome).dispatched);
            && !r.isLoading
            && (A.SelectIsAuthenticated(r) <==> outcome.Resolved? && outcome.value.token != Some(""))
            && (outcome.Resolved? ==> r.user == A.User(outcome.value.userName, outcome.value.token) && r.error == None)
            && (outcome.Rejected? ==> r.user == A.NoUser && r.error == Some(outcome.error))
  {
    var actions := SignIn(creds, outcome).dispatched;
    assert LastOutcome(actions) == Some(actions[1]);
  }
}
