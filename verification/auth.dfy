/** The authentication service: a cached token and two storage keys. The
    cache is `string | null`; JavaScript's `!this.token` also treats the empty
    string as absent. */
module AuthService {
  import opened Wrappers
  import opened Storage

  datatype AuthState = AuthState(token: Option<string>, storage: KeyValue)

  /** `this.token` is falsy. */
  predicate Missing(t: Option<string>) {
    t.None? || t.value == ""
  }

  /** `getItem(TOKEN_KEY)`: the stored string, or null when the key is absent
      or holds something else. */
  function ReadToken(storage: KeyValue): (r: Option<string>)
    ensures r.Some? <==> TokenKey in storage && storage[TokenKey].Text?
    ensures r.Some? ==> storage[TokenKey] == Text(r.value)
  {
    if TokenKey in storage && storage[TokenKey].Text? then Some(storage[TokenKey].s) else None
  }

  /** A new service: `private token = null` over the given storage. */
  function Fresh(storage: KeyValue): (s: AuthState)
    ensures s.storage == storage && Missing(s.token)
  {
    AuthState(None, storage)
  }

  /** `init()`: the cache becomes whatever storage holds; a rejected read
      leaves the cache as it was and rejects the call. */
  function Init(s: AuthState, readOk: bool): (r: (AuthState, Outcome))
    ensures r.0.storage == s.storage
    ensures readOk ==> r.0.token == ReadToken(s.storage) && r.1 == Done
    ensures !readOk ==> r.0 == s && r.1 == Raised
  {
    if readOk then (AuthState(ReadToken(s.storage), s.storage), Done) else (s, Raised)
  }

  /** `getToken()`: a present cache is returned without reading storage;
      a missing one is refreshed from storage first. On `Done` the call
      resolves to the new cache `r.0.token`; a rejected read leaves the
      cache as it was and rejects the call. */
  function GetToken(s: AuthState, readOk: bool): (r: (AuthState, Outcome))
    ensures r.0.storage == s.storage
    ensures !Missing(s.token) ==> r.0 == s && r.1 == Done
    ensures Missing(s.token) && readOk ==> r.0.token == ReadToken(s.storage) && r.1 == Done
    ensures Missing(s.token) && !readOk ==> r.0 == s && r.1 == Raised
  {
    if Missing(s.token) then Init(s, readOk) else (s, Done)
  }

  /** `setToken(token, refreshToken?)`: cache first, then the token write,
      then the refresh-token write when one is given and non-empty; a failed
      write propagates and stops the sequence. */
  function SetToken(s: AuthState, token: string, refresh: Option<string>, tokenOk: bool, refreshOk: bool): (r: (AuthState, Outcome))
    ensures r.0.token == Some(token)
    ensures r.0.storage - {TokenKey, RefreshTokenKey} == s.storage - {TokenKey, RefreshTokenKey}
    ensures !tokenOk ==> r.0.storage == s.storage && r.1 == Raised
    ensures tokenOk ==> TokenKey in r.0.storage && r.0.storage[TokenKey] == Text(token)
    ensures tokenOk && Missing(refresh) ==> r.0.storage == s.storage[TokenKey := Text(token)] && r.1 == Done
    ensures tokenOk && !Missing(refresh) && refreshOk ==>
      r.0.storage == s.storage[TokenKey := Text(token)][RefreshTokenKey := Text(refresh.value)] && r.1 == Done
    ensures tokenOk && !Missing(refresh) && !refreshOk ==>
      r.0.storage == s.storage[TokenKey := Text(token)] && r.1 == Raised
  {
    var (st, out) := Persist(Some(token), s.storage, TokenKey, Text(token), tokenOk, Propagate);
    if out != Done || Missing(refresh) then (AuthState(st.mem, st.storage), out)
    else
      var (st2, out2) := Persist(st.mem, st.storage, RefreshTokenKey, Text(refresh.value), refreshOk, Propagate);
      (AuthState(st2.mem, st2.storage), out2)
  }

  /** `logout()`: the cache is cleared, then both keys are removed in turn; a
      failed removal propagates and stops the sequence. */
  function Logout(s: AuthState, tokenOk: bool, refreshOk: bool): (r: (AuthState, Outcome))
    ensures r.0.token == None
    ensures r.0.storage - {TokenKey, RefreshTokenKey} == s.storage - {TokenKey, RefreshTokenKey}
    ensures tokenOk && refreshOk ==> TokenKey !in r.0.storage && RefreshTokenKey !in r.0.storage && r.1 == Done
    ensures tokenOk && !refreshOk ==> r.0.storage == s.storage - {TokenKey} && r.1 == Raised
    ensures !tokenOk ==> r.0.storage == s.storage && r.1 == Raised
  {
    var (st, out) := Erase(None, s.storage, TokenKey, tokenOk, Propagate);
    if out != Done then (AuthState(st.mem, st.storage), out)
    else
      var (st2, out2) := Erase(None, st.storage, RefreshTokenKey, refreshOk, Propagate);
      (AuthState(st2.mem, st2.storage), out2)
  }

  /** After `setToken(t)` with a non-empty `t`, `getToken()` returns `t` from
      the cache, whether or not the writes succeeded, without reading storage. */
  lemma GetAfterSet(s: AuthState, t: string, refresh: Option<string>, ok1: bool, ok2: bool, readOk: bool)
    requires t != ""
    ensures var r := SetToken(s, t, refresh, ok1, ok2).0;
      GetToken(r, readOk) == (r, Done) && r.token == Some(t)
  {
  }

  /** A successful `setToken(t)` also survives a restart. */
  lemma InitAfterSet(s: AuthState, t: string, refresh: Option<string>, ok2: bool)
    ensures Init(Fresh(SetToken(s, t, refresh, true, ok2).0.storage), true).0.token == Some(t)
  {
  }

  /** After a successful logout, `getToken()` resolves to null. */
  lemma GetAfterLogout(s: AuthState)
    ensures GetToken(Logout(s, true, true).0, true) == (Logout(s, true, true).0, Done)
    ensures GetToken(Logout(s, true, true).0, true).0.token == None
  {
  }

  /** If the first removal fails, the next `getToken()` brings the old token
      back from storage. */
  lemma FailedLogoutRestoresToken(s: AuthState, refreshOk: bool)
    requires TokenKey in s.storage && s.storage[TokenKey].Text?
    ensures var g := GetToken(Logout(s, false, refreshOk).0, true);
      g.1 == Done && g.0.token == Some(s.storage[TokenKey].s)
  {
  }

  /** An empty cached token is not trusted: `getToken()` reads storage again. */
  lemma EmptyTokenIsReread(storage: KeyValue)
    ensures GetToken(AuthState(Some(""), storage), true).0.token == ReadToken(storage)
  {
  }

  /** A rejected read during `getToken()` after a logout leaves the cache
      null, so the next call reads storage again. */
  lemma RejectedReadRetries(s: AuthState, readOk: bool)
    ensures var g := GetToken(Logout(s, true, true).0, false);
      g.1 == Raised && Missing(g.0.token)
      && GetToken(g.0, readOk).1 == (if readOk then Done else Raised)
  {
  }
}
