/** The session held by the auth provider: one state record replaced by each
    transition. Keychain reads, keychain clearing and RPC outcomes are
    inputs to the transitions. */
module Auth {
  import opened Base
  import opened Strings
  import opened Logger
  import opened Errors

  datatype User = User(id: string, email: string)

  /** What the keychain holds after a successful sign-in. */
  datatype StoredAuth = StoredAuth(token: string, user: User)

  /** The provider's state record. */
  datatype AuthState = AuthState(user: Option<User>, token: Option<string>, isLoading: bool, isAuthenticated: bool)

  /** The credentials an RPC receives. */
  datatype Credentials = Credentials(email: string, password: string)

  /** An authenticated session always has a token. */
  predicate Consistent(s: AuthState) {
    s.isAuthenticated ==> s.token.Some?
  }

  const InitialState: AuthState := AuthState(None, None, true, false)

  const SignedOut: AuthState := AuthState(None, None, false, false)

  const LogoutMessage: string := "User logged out"

  const AuthErrorMessage: string := "Authentication error - logging out user"

  /** The state after the stored-auth read on mount. */
  function Restored(s: AuthState, stored: Option<StoredAuth>): (r: AuthState)
    ensures stored.Some? ==> r == AuthState(Some(stored.value.user), Some(stored.value.token), false, true)
    ensures stored.None? ==> r.user == s.user && r.token == s.token && !r.isLoading && !r.isAuthenticated
    ensures Consistent(r)
  {
    match stored
    case Some(a) => AuthState(Some(a.user), Some(a.token), false, true)
    case None => s.(isLoading := false, isAuthenticated := false)
  }

  /** The state after a sign-in by API key: the trimmed key becomes the token
      once it is verified; a failed verification changes nothing. */
  function SignedInWithKey(s: AuthState, apiKey: string, verified: Result<User, ApiError>): (r: AuthState)
    ensures verified.Ok? ==> r == AuthState(Some(verified.value), Some(Trim(apiKey)), false, true)
    ensures verified.Err? ==> r == s
    ensures Consistent(s) ==> Consistent(r)
  {
    match verified
    case Ok(user) => AuthState(Some(user), Some(Trim(apiKey)), false, true)
    case Err(_) => s
  }

  /** The state after `login` or `register`: the user the RPC returned, and
      the token (if any) read back from the keychain; the session counts as
      authenticated exactly when that token is a non-empty string. */
  function SignedIn(s: AuthState, result: Result<User, ApiError>, stored: Option<StoredAuth>): (r: AuthState)
    ensures result.Err? ==> r == s
    ensures result.Ok? ==> r.user == Some(result.value) && !r.isLoading
    ensures result.Ok? ==> r.token == (if stored.Some? then Some(stored.value.token) else None)
    ensures result.Ok? ==> (r.isAuthenticated <==> stored.Some? && stored.value.token != [])
    ensures Consistent(s) ==> Consistent(r)
  {
    match result
    case Ok(user) =>
      AuthState(Some(user), if stored.Some? then Some(stored.value.token) else None,
        false, stored.Some? && stored.value.token != [])
    case Err(_) => s
  }

  /** The user is replaced from the keychain when it holds one; nothing else changes. */
  function UserRefreshed(s: AuthState, stored: Option<StoredAuth>): (r: AuthState)
    ensures r.token == s.token && r.isLoading == s.isLoading && r.isAuthenticated == s.isAuthenticated
    ensures r.user == if stored.Some? then Some(stored.value.user) else s.user
    ensures Consistent(s) ==> Consistent(r)
  {
    if stored.Some? then s.(user := Some(stored.value.user)) else s
  }

  /** The state after `logout`: signed out once the keychain is cleared;
      unchanged when clearing fails, since the exception skips the update. */
  function LoggedOut(s: AuthState, cleared: bool): (r: AuthState)
    ensures cleared ==> r.user.None? && r.token.None? && !r.isLoading && !r.isAuthenticated
    ensures !cleared ==> r == s
    ensures Consistent(s) ==> Consistent(r)
  {
    if cleared then SignedOut else s
  }

  /** The log after `logout`: one info entry when the keychain was cleared. */
  function LogoutLog(log: seq<Entry>, cleared: bool, now: int): (r: seq<Entry>)
    ensures cleared ==> r == Appended(log, Entry(Info, LogoutMessage, None, now))
    ensures !cleared ==> r == log
  {
    if cleared then Appended(log, Entry(Info, LogoutMessage, None, now)) else log
  }

  /** Every transition keeps an authenticated session's token present, from
      any consistent state and for any input. */
  lemma TransitionsKeepToken(s: AuthState, stored: Option<StoredAuth>, apiKey: string,
                             verified: Result<User, ApiError>, cleared: bool)
    requires Consistent(s)
    ensures Consistent(InitialState)
    ensures Consistent(Restored(s, stored))
    ensures Consistent(SignedInWithKey(s, apiKey, verified))
    ensures Consistent(SignedIn(s, verified, stored))
    ensures Consistent(UserRefreshed(s, stored))
    ensures Consistent(LoggedOut(s, cleared))
  {
  }

  /** Logging out twice is logging out once, and whatever the state, a
      successful logout leads to the same signed-out state. */
  lemma LogoutIdempotent(s: AuthState, t: AuthState)
    ensures LoggedOut(LoggedOut(s, true), true) == LoggedOut(s, true)
    ensures LoggedOut(s, true) == LoggedOut(t, true)
  {
  }

  /** A sign-in by key, followed by a refresh from the keychain entry that
      sign-in wrote, leaves the session authenticated with the trimmed key. */
  lemma KeySignInThenRefresh(s: AuthState, apiKey: string, user: User, later: User)
    ensures var r := UserRefreshed(SignedInWithKey(s, apiKey, Ok(user)), Some(StoredAuth(Trim(apiKey), later)));
      r.isAuthenticated && r.token == Some(Trim(apiKey)) && r.user == Some(later)
  {
  }

  class AuthSession {
    var user: Option<User>
    var token: Option<string>
    var isLoading: bool
    var isAuthenticated: bool

    function State(): AuthState
      reads this
    {
      AuthState(user, token, isLoading, isAuthenticated)
    }

    ghost predicate Valid()
      reads this
    {
      Consistent(State())
    }

    /** Loading, with no user and no token. */
    constructor ()
      ensures Valid() && State() == InitialState
    {
      user := None;
      token := None;
      isLoading := true;
      isAuthenticated := false;
    }

    method SetState(s: AuthState)
      modifies this
      ensures State() == s
    {
      user := s.user;
      token := s.token;
      isLoading := s.isLoading;
      isAuthenticated := s.isAuthenticated;
    }

    /** The effect on mount, given what the keychain read returned. */
    method Restore(stored: Option<StoredAuth>)
      requires Valid()
      modifies this
      ensures Valid() && State() == Restored(old(State()), stored)
    {
      if stored.Some? {
        SetState(AuthState(Some(stored.value.user), Some(stored.value.token), false, true));
      } else {
        isLoading := false;
        isAuthenticated := false;
      }
    }

    /** `loginWithKey(apiKey)`: `verified` is the outcome of verifying the
        trimmed key; a failure is passed on to the caller. */
    method LoginWithKey(apiKey: string, verified: Result<User, ApiError>) returns (sent: string, failure: Option<ApiError>)
      requires Valid()
      modifies this
      ensures Valid() && State() == SignedInWithKey(old(State()), apiKey, verified)
      ensures sent == Trim(apiKey)
      ensures failure == if verified.Err? then Some(verified.error) else None
    {
      sent := Trim(apiKey);
      if verified.Err? {
        failure := Some(verified.error);
        return;
      }
      failure := None;
      SetState(AuthState(Some(verified.value), Some(Trim(apiKey)), false, true));
    }

    /** The shared body of `login` and `register`: `result` is the RPC's
        outcome for the trimmed email, `stored` the keychain read after it. */
    method SignInWith(email: string, password: string, result: Result<User, ApiError>, stored: Option<StoredAuth>)
      returns (sent: Credentials, failure: Option<ApiError>)
      requires Valid()
      modifies this
      ensures Valid() && State() == SignedIn(old(State()), result, stored)
      ensures sent == Credentials(Trim(email), password)
      ensures failure == if result.Err? then Some(result.error) else None
    {
      sent := Credentials(Trim(email), password);
      if result.Err? {
        failure := Some(result.error);
        return;
      }
      failure := None;
      var storedToken := if stored.Some? then Some(stored.value.token) else None;
      SetState(AuthState(Some(result.value), storedToken, false, stored.Some? && stored.value.token != []));
    }

    method Login(email: string, password: string, result: Result<User, ApiError>, stored: Option<StoredAuth>)
      returns (sent: Credentials, failure: Option<ApiError>)
      requires Valid()
      modifies this
      ensures Valid() && State() == SignedIn(old(State()), result, stored)
      ensures sent == Credentials(Trim(email), password)
      ensures failure == if result.Err? then Some(result.error) else None
    {
      sent, failure := SignInWith(email, password, result, stored);
    }

    method Register(email: string, password: string, result: Result<User, ApiError>, stored: Option<StoredAuth>)
      returns (sent: Credentials, failure: Option<ApiError>)
      requires Valid()
      modifies this
      ensures Valid() && State() == SignedIn(old(State()), result, stored)
      ensures sent == Credentials(Trim(email), password)
      ensures failure == if result.Err? then Some(result.error) else None
    {
      sent, failure := SignInWith(email, password, result, stored);
    }

    /** `logout()`: `cleared` says whether clearing the keychain succeeded;
        when it did not, the rejection reaches the caller as `rejected`. */
    method Logout(log: LogBuffer, cleared: bool, now: int) returns (rejected: bool)
      requires Valid() && log.Valid()
      modifies this, log
      ensures Valid() && log.Valid()
      ensures rejected <==> !cleared
      ensures State() == LoggedOut(old(State()), cleared)
      ensures log.entries == LogoutLog(old(log.entries), cleared, now)
    {
      rejected := !cleared;
      if !cleared {
        return;
      }
      SetState(SignedOut);
      log.LogInfo(LogoutMessage, None, now);
    }

    /** `refreshUser()`, given what the keychain read returned. */
    method RefreshUser(stored: Option<StoredAuth>)
      requires Valid()
      modifies this
      ensures Valid() && State() == UserRefreshed(old(State()), stored)
    {
      if stored.Some? {
        user := Some(stored.value.user);
      }
    }

    /** `handleAuthError()`: an error entry, then exactly what `logout` does,
        passing on a rejection of the keychain clearing. */
    method HandleAuthError(log: LogBuffer, cleared: bool, now: int) returns (rejected: bool)
      requires Valid() && log.Valid()
      modifies this, log
      ensures Valid() && log.Valid()
      ensures rejected <==> !cleared
      ensures State() == LoggedOut(old(State()), cleared)
      ensures log.entries == LogoutLog(Appended(old(log.entries), Entry(Error, AuthErrorMessage, None, now)), cleared, now)
    {
      log.LogError(AuthErrorMessage, None, now);
      rejected := Logout(log, cleared, now);
    }
  }
}
