/**
 * The session store: `{user, accessToken, loading}` with login, register,
 * logout and hydrate, pushing the token into the HTTP client's default header.
 *
 * Each awaited auth-service call is represented by its settlement, passed in:
 * `Ok` with the service's data, or `Err` with the error it was rejected with.
 */
module AuthStore {
  import opened Wrappers
  import opened AuthService
  import opened HttpClient

  /** The part of the store written to client storage under `StorageKey`. */
  datatype PersistedAuth = PersistedAuth(user: Option<PublicUser>, accessToken: Option<string>)

  const StorageKey: string := "auth-storage"

  class Store {
    var user: Option<PublicUser>
    var accessToken: Option<string>
    var loading: bool
    /** The HTTP client the store pushes the token into. */
    const api: Api

    /** A session exists exactly when a token is held: every operation keeps this. */
    ghost predicate Consistent()
      reads this
    {
      user.None? <==> accessToken.None?
    }

    constructor (api: Api)
      ensures user == None && accessToken == None && !loading && this.api == api
      ensures Consistent()
    {
      this.api := api;
      user := None;
      accessToken := None;
      loading := false;
    }

    /** The store as rebuilt from client storage: the persisted fields, `loading` at its initial false. */
    constructor Restore(api: Api, saved: PersistedAuth)
      ensures user == saved.user && accessToken == saved.accessToken && !loading && this.api == api
      ensures Persisted() == saved
    {
      this.api := api;
      user := saved.user;
      accessToken := saved.accessToken;
      loading := false;
    }

    /** `partialize`: only `user` and `accessToken` are persisted, never `loading`. */
    function Persisted(): (p: PersistedAuth)
      reads this
      ensures p.user == user && p.accessToken == accessToken
    {
      PersistedAuth(user, accessToken)
    }

    /** Installs a session handed out by the service. */
    method Install(data: AuthData)
      modifies this, api
      ensures user == Some(data.user) && accessToken == Some(data.accessToken)
      ensures api.defaultAuthorization == Some(Bearer(data.accessToken)) && api.sent == old(api.sent)
      ensures loading == old(loading)
    {
      api.SetAccessToken(data.accessToken);
      user, accessToken := Some(data.user), Some(data.accessToken);
    }

    /**
     * `login`: on success the session and the client header take the service's
     * user and token; on rejection nothing but `loading` is touched and the error
     * goes back to the caller. Either way `loading` ends false.
     */
    method Login(email: string, password: string, reply: Result<AuthData, string>) returns (r: Result<(), string>)
      requires Consistent()
      modifies this, api
      ensures Consistent() && !loading && api.sent == old(api.sent)
      ensures reply.Ok? ==> (r.Ok? && user == Some(reply.value.user) && accessToken == Some(reply.value.accessToken)
        && api.defaultAuthorization == Some(Bearer(reply.value.accessToken)))
      ensures reply.Err? ==> (r == Err(reply.error) && user == old(user) && accessToken == old(accessToken)
        && api.defaultAuthorization == old(api.defaultAuthorization))
    {
      loading := true;
      match reply {
        case Ok(data) =>
          Install(data);
          r := Ok(());
        case Err(e) =>
          r := Err(e);
      }
      loading := false;
    }

    /**
     * `register`: exactly as `login`, so a successful registration leaves the
     * user logged in with the token the service returned.
     */
    method Register(fullName: string, email: string, password: string, reply: Result<AuthData, string>)
      returns (r: Result<(), string>)
      requires Consistent()
      modifies this, api
      ensures Consistent() && !loading && api.sent == old(api.sent)
      ensures reply.Ok? ==> (r.Ok? && user == Some(reply.value.user) && accessToken == Some(reply.value.accessToken)
        && api.defaultAuthorization == Some(Bearer(reply.value.accessToken)))
      ensures reply.Err? ==> (r == Err(reply.error) && user == old(user) && accessToken == old(accessToken)
        && api.defaultAuthorization == old(api.defaultAuthorization))
    {
      loading := true;
      match reply {
        case Ok(data) =>
          Install(data);
          r := Ok(());
        case Err(e) =>
          r := Err(e);
      }
      loading := false;
    }

    /**
     * `logout`: the service call comes first; if it is rejected nothing is
     * cleared and the error propagates. Otherwise the session is cleared and
     * the client header is set to "Bearer " (an empty token), not removed.
     */
    method Logout(reply: Result<string, string>) returns (r: Result<(), string>)
      requires Consistent()
      modifies this, api
      ensures Consistent() && loading == old(loading) && api.sent == old(api.sent)
      ensures reply.Ok? ==> (r.Ok? && user == None && accessToken == None
        && api.defaultAuthorization == Some(Bearer("")))
      ensures reply.Err? ==> (r == Err(reply.error) && user == old(user) && accessToken == old(accessToken)
        && api.defaultAuthorization == old(api.defaultAuthorization))
    {
      if reply.Err? {
        return Err(reply.error);
      }
      api.SetAccessToken("");
      user, accessToken := None, None;
      r := Ok(());
    }

    /** `hydrate`: re-installs a stored non-empty token into the client; otherwise leaves it alone. */
    method Hydrate()
      modifies api
      ensures Truthy(accessToken) ==> api.defaultAuthorization == Some(Bearer(accessToken.value))
      ensures !Truthy(accessToken) ==> api.defaultAuthorization == old(api.defaultAuthorization)
      ensures api.sent == old(api.sent)
    {
      if Truthy(accessToken) {
        api.SetAccessToken(accessToken.value);
      }
    }
  }

  /**
   * Application start after a reload: the store is rebuilt from storage and
   * hydrated, so a persisted non-empty token is back in the client header
   * without another login.
   */
  method Reload(api: Api, saved: PersistedAuth) returns (s: Store)
    modifies api
    ensures fresh(s)
    ensures (saved.user.None? <==> saved.accessToken.None?) ==> s.Consistent()
    ensures s.api == api && s.Persisted() == saved && !s.loading
    ensures Truthy(saved.accessToken) ==> api.defaultAuthorization == Some(Bearer(saved.accessToken.value))
    ensures !Truthy(saved.accessToken) ==> api.defaultAuthorization == old(api.defaultAuthorization)
  {
    s := new Store.Restore(api, saved);
    s.Hydrate();
  }

  /** A reloaded session can be ended: logging out of it clears the store and the header. */
  method ReloadThenLogout(api: Api, saved: PersistedAuth, reply: Result<string, string>) returns (s: Store)
    requires saved.user.None? <==> saved.accessToken.None?
    modifies api
    ensures fresh(s) && s.api == api
    ensures reply.Ok? ==> s.user == None && s.accessToken == None && api.defaultAuthorization == Some(Bearer(""))
    ensures reply.Err? ==> s.Persisted() == saved
  {
    s := Reload(api, saved);
    var _ := s.Logout(reply);
  }

  /** A login followed by a reload on a fresh client restores the same header. */
  method LoginThenReload(email: string, password: string, data: AuthData, later: Api) returns (header: Option<string>)
    requires data.accessToken != ""
    modifies later
    ensures header == Some(Bearer(data.accessToken))
  {
    var first := new Api();
    var s := new Store(first);
    var _ := s.Login(email, password, Ok(data));
    var restored := Reload(later, s.Persisted());
    header := later.defaultAuthorization;
  }
}
