/**
 * The session manager (context/AuthContext.tsx): the current `user`, the
 * `loading` flag, and the two keys it keeps in the browser's local storage.
 * Local storage is a string-to-string map; each asynchronous function runs as
 * one step against the store.
 */
module Session {
  import opened Wrappers
  import opened Types
  import MockApi

  const AuthTokenKey := "authToken"
  const UserIdKey := "userId"

  /** `token && userId`: both keys stored, and neither is the empty string (which is falsy). */
  predicate HasCredentials(storage: map<string, string>): (b: bool)
    ensures b ==> AuthTokenKey in storage && UserIdKey in storage
    ensures b ==> |storage[AuthTokenKey]| > 0 && |storage[UserIdKey]| > 0
  {
    && AuthTokenKey in storage && storage[AuthTokenKey] != ""
    && UserIdKey in storage && storage[UserIdKey] != ""
  }

  /** Storage after the two `removeItem` calls of `logout`. */
  function Cleared(storage: map<string, string>): (r: map<string, string>)
    ensures AuthTokenKey !in r && UserIdKey !in r
    ensures forall k :: k in storage && k != AuthTokenKey && k != UserIdKey ==> k in r && r[k] == storage[k]
    ensures forall k :: k in r ==> k in storage
  {
    storage - {AuthTokenKey, UserIdKey}
  }

  /** Storage after the two `setItem` calls of `login` and `signup`. */
  function Stored(storage: map<string, string>, token: string, userId: string): (r: map<string, string>)
    ensures AuthTokenKey in r && r[AuthTokenKey] == token && UserIdKey in r && r[UserIdKey] == userId
    ensures forall k :: k in storage && k != AuthTokenKey && k != UserIdKey ==> k in r && r[k] == storage[k]
    ensures r.Keys == storage.Keys + {AuthTokenKey, UserIdKey}
  {
    storage[AuthTokenKey := token][UserIdKey := userId]
  }

  /**
   * The session `initializeAuth` leaves behind, as a (user, storage) pair:
   * with credentials stored, the user whose id is stored is restored and, when
   * the store has no such user, the session is logged out; without credentials
   * the session is left as it was.
   */
  function Rehydrated(user: Option<User>, storage: map<string, string>, api: MockApi.Store)
    : (r: (Option<User>, map<string, string>))
    reads api
    ensures !HasCredentials(storage) ==> r == (user, storage)
    ensures HasCredentials(storage) ==> r.0 == api.GetUserById(storage[UserIdKey])
    ensures r.0.Some? && r.0 != user ==> UserIdKey in storage && r.0.value.id == storage[UserIdKey] && r.0.value in api.users
    ensures r.1 == storage || (HasCredentials(storage) && r.0.None? && r.1 == Cleared(storage))
  {
    if !HasCredentials(storage) then (user, storage)
    else
      match api.GetUserById(storage[UserIdKey])
      case Some(u) => (Some(u), storage)
      case None => (None, Cleared(storage))
  }

  /**
   * Logging out always removes the credentials; storing a token and an id
   * provides them exactly when neither is the empty string.
   */
  lemma CredentialsOfStoredAndCleared(storage: map<string, string>, token: string, userId: string)
    ensures !HasCredentials(Cleared(storage))
    ensures HasCredentials(Stored(storage, token, userId)) <==> token != "" && userId != ""
  {
  }

  class AuthProvider {
    var user: Option<User>
    var loading: bool
    var storage: map<string, string>

    /** A signed-in user is always the one whose id is in storage, next to a token. */
    ghost predicate Valid()
      reads this
    {
      user.Some? ==> AuthTokenKey in storage && UserIdKey in storage && storage[UserIdKey] == user.value.id
    }

    /** The provider mounts with no user, still loading, over whatever storage holds. */
    constructor (persisted: map<string, string>)
      ensures user == None && loading && storage == persisted
      ensures Valid()
    {
      user := None;
      loading := true;
      storage := persisted;
    }

    /** `isAuthenticated = !!user`. */
    predicate IsAuthenticated()
      reads this
    {
      user.Some?
    }

    /** `isAdmin = user?.role === Role.ADMIN`. */
    predicate IsAdmin()
      reads this
    {
      user.Some? && user.value.role == Admin
    }

    /** An administrator is always an authenticated user. */
    lemma AdminIsAuthenticated()
      ensures IsAdmin() ==> IsAuthenticated()
      ensures IsAuthenticated() <==> user.Some?
    {
    }

    /** `logout`: no user, both keys removed, everything else in storage kept. */
    method Logout()
      modifies this
      ensures Valid()
      ensures user == None && storage == Cleared(old(storage)) && loading == old(loading)
      ensures !IsAuthenticated() && !IsAdmin()
    {
      user := None;
      storage := Cleared(storage);
    }

    /**
     * `initializeAuth`: with credentials stored, the stored id is resolved
     * through the store; a found user becomes the session, anything else ends
     * in the logout state. Without credentials nothing changes. In every case
     * `loading` ends false. `getUserById` never throws in this store, so the
     * `catch` branch (which also logs out) cannot be reached here.
     */
    method InitializeAuth(api: MockApi.Store)
      requires Valid()
      modifies this
      ensures Valid()
      ensures !loading
      ensures (user, storage) == Rehydrated(old(user), old(storage), api)
      ensures !HasCredentials(old(storage)) ==> user == old(user) && storage == old(storage)
      ensures HasCredentials(old(storage)) ==>
        match api.GetUserById(old(storage)[UserIdKey])
        case Some(u) => user == Some(u) && storage == old(storage)
        case None => user == None && storage == Cleared(old(storage))
    {
      if HasCredentials(storage) {
        var fetched := api.GetUserById(storage[UserIdKey]);
        if fetched.Some? {
          user := fetched;
        } else {
          Logout();
        }
      }
      loading := false;
    }

    /** `login`: on success the user and both keys are set; a thrown error changes nothing. */
    method Login(api: MockApi.Store, email: string, password: string)
      returns (r: Result<(), MockApi.ApiError>)
      requires Valid()
      modifies this
      ensures Valid()
      ensures loading == old(loading)
      ensures match MockApi.Login(api.users, email)
        case Success(p) =>
          r == Success(()) && user == Some(p.user) && storage == Stored(old(storage), p.token, p.user.id)
        case Failure(e) =>
          r == Failure(e) && user == old(user) && storage == old(storage)
    {
      var res := MockApi.Login(api.users, email);
      if res.Failure? {
        return Failure(res.error);
      }
      user := Some(res.value.user);
      storage := Stored(storage, res.value.token, res.value.user.id);
      r := Success(());
    }

    /** `signup`: like `login`, after the store has created the account. */
    method Signup(api: MockApi.Store, name: string, email: string, password: string, idStamp: nat, now: int)
      returns (r: Result<(), MockApi.ApiError>)
      requires Valid() && api.Valid()
      modifies this, api
      ensures Valid() && api.Valid()
      ensures loading == old(loading)
      ensures var res := MockApi.SignupResult(old(api.users), name, email, idStamp, now);
        && api.users == MockApi.UsersAfterSignup(old(api.users), res)
        && api.courses == old(api.courses) && api.feedback == old(api.feedback)
        && match res
           case Success(p) =>
             r == Success(()) && user == Some(p.user) && storage == Stored(old(storage), p.token, p.user.id)
           case Failure(e) =>
             r == Failure(e) && user == old(user) && storage == old(storage)
    {
      var res := api.Signup(name, email, idStamp, now);
      if res.Failure? {
        return Failure(res.error);
      }
      user := Some(res.value.user);
      storage := Stored(storage, res.value.token, res.value.user.id);
      r := Success(());
    }
  }

  /** A rehydration whose stored id names no user ends anonymous with both keys removed. */
  lemma RehydrationOfUnknownIdLogsOut(api: MockApi.Store, user: Option<User>, storage: map<string, string>)
    requires HasCredentials(storage)
    requires forall k :: 0 <= k < |api.users| ==> api.users[k].id != storage[UserIdKey]
    ensures Rehydrated(user, storage, api) == (None, Cleared(storage))
    ensures AuthTokenKey !in Rehydrated(user, storage, api).1
  {
  }

  /** A rehydration whose stored id names a user signs that user in and keeps storage. */
  lemma RehydrationOfKnownIdSignsIn(api: MockApi.Store, user: Option<User>, storage: map<string, string>, k: nat)
    requires HasCredentials(storage)
    requires k < |api.users| && api.users[k].id == storage[UserIdKey]
    ensures var r := Rehydrated(user, storage, api);
      && r.0.Some? && r.0.value.id == storage[UserIdKey] && r.0.value in api.users
      && r.1 == storage
  {
  }

  /** Rehydrating a rehydrated session changes nothing: a second mount is harmless. */
  lemma RehydrationIsIdempotent(api: MockApi.Store, user: Option<User>, storage: map<string, string>)
    ensures var r := Rehydrated(user, storage, api);
      Rehydrated(r.0, r.1, api) == r
  {
    var r := Rehydrated(user, storage, api);
    if HasCredentials(storage) && r.0.None? {
      assert UserIdKey !in r.1;
    }
  }

  /** Starting from a valid session, rehydration ends in a valid one. */
  lemma RehydrationKeepsSessionValid(api: MockApi.Store, user: Option<User>, storage: map<string, string>)
    requires user.Some? ==> AuthTokenKey in storage && UserIdKey in storage && storage[UserIdKey] == user.value.id
    ensures var r := Rehydrated(user, storage, api);
      r.0.Some? ==> AuthTokenKey in r.1 && UserIdKey in r.1 && r.1[UserIdKey] == r.0.value.id
  {
  }
}
