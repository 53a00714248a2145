/** The client's persisted authentication store: who is signed in, with
    which token. */
module AuthStore {
  import opened Wrappers
  import Entities
  import Crypto

  /** The `{ user, token }` body of a login or register response. */
  datatype AuthResponse = AuthResponse(user: Entities.UserView, token: Crypto.Token)

  /** A snapshot of the store's three fields. */
  datatype AuthState = AuthState(user: Option<Entities.UserView>, token: Option<Crypto.Token>, isAuthenticated: bool)

  /** The invariant of the store: signed in exactly when a token (and a user) is held. */
  predicate Consistent(s: AuthState) {
    (s.isAuthenticated <==> s.token.Some?) && (s.user.Some? <==> s.token.Some?)
  }

  /** The state the store starts in, and returns to on logout. */
  function SignedOut(): (s: AuthState)
    ensures Consistent(s) && !s.isAuthenticated
  {
    AuthState(None, None, false)
  }

  /** The effect of a login or register call; `None` stands for a request
      that threw, which happens before `set` is reached. */
  function AfterSignIn(s: AuthState, response: Option<AuthResponse>): (t: AuthState)
    ensures response.None? ==> t == s
    ensures response.Some? ==>
      t.user == Some(response.value.user) && t.token == Some(response.value.token) && t.isAuthenticated
  {
    match response
    case None => s
    case Some(AuthResponse(user, token)) => AuthState(Some(user), Some(token), true)
  }

  /** Signing in keeps the invariant, from any consistent state. */
  lemma SignInConsistent(s: AuthState, response: Option<AuthResponse>)
    requires Consistent(s)
    ensures Consistent(AfterSignIn(s, response))
  {
  }

  /** A successful sign-in discards whatever the store held before. */
  lemma SignInForgetsPrevious(s: AuthState, s': AuthState, response: AuthResponse)
    ensures AfterSignIn(s, Some(response)) == AfterSignIn(s', Some(response))
  {
  }

  /** The effect of `logout`. */
  function AfterLogout(s: AuthState): (t: AuthState)
    ensures Consistent(t) && !t.isAuthenticated && t.user.None? && t.token.None?
  {
    SignedOut()
  }

  /** Logging out resets all three fields from any state, so doing it
      twice is the same as doing it once. */
  lemma LogoutIdempotent(s: AuthState)
    ensures AfterLogout(AfterLogout(s)) == AfterLogout(s) == SignedOut()
  {
  }

  class Store {
    var user: Option<Entities.UserView>
    var token: Option<Crypto.Token>
    var isAuthenticated: bool

    function State(): AuthState
      reads this
    {
      AuthState(user, token, isAuthenticated)
    }

    ghost predicate Valid()
      reads this
    {
      Consistent(State())
    }

    /** The initial, signed-out state. */
    constructor ()
      ensures Valid() && State() == SignedOut()
    {
      user := None;
      token := None;
      isAuthenticated := false;
    }

    /** `login(email, password)`: the server's answer to POST /auth/login is
        the parameter. */
    method Login(response: Option<AuthResponse>)
      requires Valid()
      modifies this
      ensures Valid()
      ensures State() == AfterSignIn(old(State()), response)
    {
      if response.Some? {
        user := Some(response.value.user);
        token := Some(response.value.token);
        isAuthenticated := true;
      }
    }

    /** `register(name, email, password)`: the same state change as a login. */
    method Register(response: Option<AuthResponse>)
      requires Valid()
      modifies this
      ensures Valid()
      ensures State() == AfterSignIn(old(State()), response)
    {
      if response.Some? {
        user := Some(response.value.user);
        token := Some(response.value.token);
        isAuthenticated := true;
      }
    }

    method Logout()
      modifies this
      ensures Valid()
      ensures State() == AfterLogout(old(State()))
    {
      user := None;
      token := None;
      isAuthenticated := false;
    }
  }
}
