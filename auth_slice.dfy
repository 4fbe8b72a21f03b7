/** The auth store of the client: the signed-in user, the session token and
    the state of the last register or login request. `Reduce` states what
    each action does to the four fields, `Run` applies a sequence of actions,
    and `AuthStore` holds the fields and updates them in place. Writing to
    `localStorage` is not modelled; what the store reads from it at start-up
    is passed to the constructor. */
module AuthSlice {
  import opened Common
  import opened Entities

  const RegistrationFailed := "Registration failed"
  const LoginFailed := "Login failed"

  /** The fields of the auth state. */
  datatype AuthState = AuthState(user: Option<User>, token: Option<string>, loading: bool, error: Option<string>)

  /** What a successful register or login request returns. */
  datatype AuthPayload = AuthPayload(user: User, token: string)

  /** The two requests the store tracks. */
  datatype Request = Register | Login

  /** The actions the auth store handles: its two reducers and the three
      outcomes of each request. */
  datatype AuthAction =
    | Logout
    | SetUser(newUser: User)
    | Pending(request: Request)
    | Fulfilled(request: Request, payload: AuthPayload)
    | Rejected(request: Request, message: Option<string>)
  {
    /** The request is over, one way or the other. */
    predicate Settles() {
      Fulfilled? || Rejected?
    }
  }

  /** The error text used when a rejected request carries no message. */
  function Fallback(request: Request): (r: string)
    ensures r != ""
    ensures r == RegistrationFailed <==> request == Register
    ensures r == LoginFailed <==> request == Login
  {
    match request
    case Register => RegistrationFailed
    case Login => LoginFailed
  }

  /** The state after one action. */
  function Reduce(s: AuthState, a: AuthAction): (r: AuthState)
    ensures a.Settles() ==> !r.loading
    ensures a.Pending? ==> r.loading && r.error == None && r.user == s.user && r.token == s.token
    ensures a.Fulfilled? ==> r.user == Some(a.payload.user) && r.token == Some(a.payload.token) && r.error == s.error
    ensures a.Rejected? ==> r.user == s.user && r.token == s.token
    ensures a.Rejected? ==> r.error.Some? && r.error.value != ""
    ensures a.Rejected? && a.message.Some? && a.message.value != "" ==> r.error == a.message
    ensures a.Rejected? ==> r.error == Some(ErrorText(a.message, Fallback(a.request)))
    ensures a.Logout? ==> r.user == None && r.token == None && r.loading == s.loading && r.error == s.error
    ensures a.SetUser? ==> r.user == Some(a.newUser) && r.token == s.token && r.loading == s.loading && r.error == s.error
  {
    match a
    case Logout => s.(user := None, token := None)
    case SetUser(u) => s.(user := Some(u))
    case Pending(_) => s.(loading := true, error := None)
    case Fulfilled(_, p) => s.(loading := false, user := Some(p.user), token := Some(p.token))
    case Rejected(request, message) => s.(loading := false, error := Some(ErrorText(message, Fallback(request))))
  }

  /** The state after a sequence of actions, applied in order. */
  function Run(s: AuthState, actions: seq<AuthAction>): AuthState
    decreases |actions|
  {
    if actions == [] then s else Run(Reduce(s, actions[0]), actions[1..])
  }

  /** Running one more action is reducing the state the run reached. */
  lemma {:induction false} RunSnoc(s: AuthState, actions: seq<AuthAction>, a: AuthAction)
    ensures Run(s, actions + [a]) == Reduce(Run(s, actions), a)
    decreases |actions|
  {
    if actions != [] {
      assert (actions + [a])[1..] == actions[1..] + [a];
      RunSnoc(Reduce(s, actions[0]), actions[1..], a);
    }
  }

  /** Whatever happened before, a run that ends with a fulfilled or rejected
      request is not loading. */
  lemma SettledRunIsNotLoading(s: AuthState, actions: seq<AuthAction>)
    requires actions != [] && actions[|actions| - 1].Settles()
    ensures !Run(s, actions).loading
  {
    var n := |actions| - 1;
    assert actions == actions[..n] + [actions[n]];
    RunSnoc(s, actions[..n], actions[n]);
  }

  /** Running two actions is reducing twice. */
  lemma RunPair(s: AuthState, a: AuthAction, b: AuthAction)
    ensures Run(s, [a, b]) == Reduce(Reduce(s, a), b)
  {
    assert [a, b][1..] == [b];
    assert [b][1..] == [];
    calc {
      Run(s, [a, b]);
      Run(Reduce(s, a), [b]);
      Run(Reduce(Reduce(s, a), b), []);
    }
  }

  /** A request that succeeds opens the session the server returned and
      leaves no error behind, even one left by an earlier failure. */
  lemma SuccessfulRequest(s: AuthState, request: Request, payload: AuthPayload)
    ensures Run(s, [Pending(request), Fulfilled(request, payload)])
         == AuthState(Some(payload.user), Some(payload.token), false, None)
  {
    RunPair(s, Pending(request), Fulfilled(request, payload));
  }

  /** A request that fails keeps the session that was there and records an
      error that is never empty. */
  lemma FailedRequest(s: AuthState, request: Request, message: Option<string>)
    ensures var r := Run(s, [Pending(request), Rejected(request, message)]);
      r.user == s.user && r.token == s.token && !r.loading
      && r.error == Some(ErrorText(message, Fallback(request))) && r.error.value != ""
  {
    RunPair(s, Pending(request), Rejected(request, message));
  }

  /** The token is never made up on the client: after any run it is absent,
      the one the run started from, or one a fulfilled request returned. */
  lemma {:induction false} TokenComesFromServer(s: AuthState, actions: seq<AuthAction>)
    ensures var t := Run(s, actions).token;
      t == None || t == s.token
      || exists i :: 0 <= i < |actions| && actions[i].Fulfilled? && t == Some(actions[i].payload.token)
    decreases |actions|
  {
    if actions != [] {
      var next := Reduce(s, actions[0]);
      TokenComesFromServer(next, actions[1..]);
      var t := Run(s, actions).token;
      if t != None && t != s.token && t != next.token {
        var i :| 0 <= i < |actions[1..]| && actions[1..][i].Fulfilled? && t == Some(actions[1..][i].payload.token);
        assert actions[i + 1] == actions[1..][i];
      }
    }
  }

  /** The auth store's state, updated in place by its reducers. */
  class AuthStore {
    var user: Option<User>
    var token: Option<string>
    var loading: bool
    var error: Option<string>

    /** The four fields as one value. */
    function State(): AuthState
      reads this
    {
      AuthState(user, token, loading, error)
    }

    /** `initialState`, given what `localStorage` holds under 'user' and
        'token' (both absent outside a browser). */
    constructor (storedUser: Option<User>, storedToken: Option<string>)
      ensures State() == AuthState(storedUser, storedToken, false, None)
    {
      user := storedUser;
      token := storedToken;
      loading := false;
      error := None;
    }

    /** `logout`. */
    method Logout()
      modifies this
      ensures State() == Reduce(old(State()), AuthAction.Logout)
    {
      user := None;
      token := None;
    }

    /** `setUser`. */
    method SetUser(newUser: User)
      modifies this
      ensures State() == Reduce(old(State()), AuthAction.SetUser(newUser))
    {
      user := Some(newUser);
    }

    /** `register.pending`. */
    method RegisterPending()
      modifies this
      ensures State() == Reduce(old(State()), Pending(Register))
    {
      loading := true;
      error := None;
    }

    /** `register.fulfilled`. */
    method RegisterFulfilled(payload: AuthPayload)
      modifies this
      ensures State() == Reduce(old(State()), Fulfilled(Register, payload))
    {
      loading := false;
      user := Some(payload.user);
      token := Some(payload.token);
    }

    /** `register.rejected`. */
    method RegisterRejected(message: Option<string>)
      modifies this
      ensures State() == Reduce(old(State()), Rejected(Register, message))
    {
      loading := false;
      error := Some(ErrorText(message, RegistrationFailed));
    }

    /** `login.pending`. */
    method LoginPending()
      modifies this
      ensures State() == Reduce(old(State()), Pending(Login))
    {
      loading := true;
      error := None;
    }

    /** `login.fulfilled`. */
    method LoginFulfilled(payload: AuthPayload)
      modifies this
      ensures State() == Reduce(old(State()), Fulfilled(Login, payload))
    {
      loading := false;
      user := Some(payload.user);
      token := Some(payload.token);
    }

    /** `login.rejected`. */
    method LoginRejected(message: Option<string>)
      modifies this
      ensures State() == Reduce(old(State()), Rejected(Login, message))
    {
      loading := false;
      error := Some(ErrorText(message, LoginFailed));
    }
  }
}
