/**
 * The client's authentication store: the signed-in user, the token and the
 * `isAuthenticated` flag, mirrored into `localStorage` under the keys
 * `'user'` and `'token'` and read back from there when the page loads.
 *
 * `JSON.stringify` and `JSON.parse` are given as a codec; the only facts used
 * about them are that `'null'` parses to null and that a stringified user
 * parses back to the same user.
 */
module AuthStore {
  import opened Wrappers
  import opened BrowserStorage

  /** The `User` the client keeps: exactly what a login or register answer carries. */
  datatype User = User(id: string, name: string, email: string)

  /** `JSON.stringify` and `JSON.parse`. `parse` gives `None` when it throws, `Some(None)` for
      `null` and `Some(Some(u))` for a user object. */
  datatype Codec = Codec(stringify: User -> string, parse: string -> Option<Option<User>>)

  ghost predicate JsonLaws(codec: Codec) {
    && codec.parse("null") == Some(None)
    && forall u :: codec.parse(codec.stringify(u)) == Some(Some(u))
  }

  const UserKey := "user"
  const TokenKey := "token"

  /** The store's state together with the storage it mirrors. */
  datatype Snapshot = Snapshot(items: map<string, string>, user: Option<User>, token: Option<string>,
                               isAuthenticated: bool)

  /** `getInitialUser`: the stored user parsed, `'null'` standing in for a missing key, and null
      when parsing throws. */
  function InitialUser(items: map<string, string>, codec: Codec): (r: Option<User>)
    ensures UserKey in items && codec.parse(items[UserKey]).None? ==> r.None?
    ensures UserKey in items && codec.parse(items[UserKey]).Some? ==> r == codec.parse(items[UserKey]).value
    ensures JsonLaws(codec) && UserKey !in items ==> r.None?
  {
    var text := if UserKey in items then items[UserKey] else "null";
    match codec.parse(text)
    case None => None
    case Some(value) => value
  }

  /** `getInitialToken`: `getItem('token') || null`, so an empty token counts as none. */
  function InitialToken(items: map<string, string>): (r: Option<string>)
    ensures r.Some? <==> TokenKey in items && items[TokenKey] != ""
    ensures r.Some? ==> r.value == items[TokenKey] && r.value != ""
  {
    if TokenKey in items && items[TokenKey] != "" then Some(items[TokenKey]) else None
  }

  /** The state `create` builds when the page loads; `isAuthenticated` is `!!getInitialToken()`. */
  function Init(items: map<string, string>, codec: Codec): (s: Snapshot)
    ensures s.items == items
    ensures s.isAuthenticated <==> TokenKey in items && items[TokenKey] != ""
    ensures s.isAuthenticated <==> s.token.Some?
  {
    var token := InitialToken(items);
    Snapshot(items, InitialUser(items, codec), token, token.Some?)
  }

  /** `setAuth(u, t)`: both keys written, then the three fields set. */
  function SetAuthState(s: Snapshot, u: User, t: string, codec: Codec): Snapshot {
    Snapshot(s.items[UserKey := codec.stringify(u)][TokenKey := t], Some(u), Some(t), true)
  }

  /** `logout()`: both keys removed, then the three fields cleared. */
  function LogoutState(s: Snapshot): Snapshot {
    Snapshot(s.items - {UserKey} - {TokenKey}, None, None, false)
  }

  class Store {
    const storage: LocalStorage
    const codec: Codec
    var user: Option<User>
    var token: Option<string>
    var isAuthenticated: bool

    function State(): Snapshot
      reads this, storage
    {
      Snapshot(storage.items, user, token, isAuthenticated)
    }

    /** `create(...)` at page load. */
    constructor (storage: LocalStorage, codec: Codec)
      ensures this.storage == storage && this.codec == codec
      ensures State() == Init(storage.items, codec)
    {
      this.storage, this.codec := storage, codec;
      var initialToken := InitialToken(storage.items);
      user := InitialUser(storage.items, codec);
      token := initialToken;
      isAuthenticated := initialToken.Some?;
    }

    method SetAuth(u: User, t: string)
      modifies this, storage
      ensures State() == SetAuthState(old(State()), u, t, codec)
    {
      storage.SetItem(UserKey, codec.stringify(u));
      storage.SetItem(TokenKey, t);
      user, token, isAuthenticated := Some(u), Some(t), true;
    }

    method Logout()
      modifies this, storage
      ensures State() == LogoutState(old(State()))
    {
      storage.RemoveItem(UserKey);
      storage.RemoveItem(TokenKey);
      user, token, isAuthenticated := None, None, false;
    }
  }

  /** Logging out twice is logging out once. */
  lemma LogoutIdempotent(s: Snapshot)
    ensures LogoutState(LogoutState(s)) == LogoutState(s)
  {
    var once := s.items - {UserKey} - {TokenKey};
    assert once - {UserKey} - {TokenKey} == once;
  }

  /** After a logout, reloading the page gives the same signed-out state. */
  lemma LogoutSurvivesReload(s: Snapshot, codec: Codec)
    requires JsonLaws(codec)
    ensures Init(LogoutState(s).items, codec) == LogoutState(s)
  {
    var items := LogoutState(s).items;
    assert UserKey !in items && TokenKey !in items;
  }

  /** After `setAuth(u, t)`, reloading the page gives the same state exactly when `t` is not
      empty: an empty token is signed in until the next reload and signed out after it. */
  lemma SetAuthSurvivesReloadIffToken(s: Snapshot, u: User, t: string, codec: Codec)
    requires JsonLaws(codec)
    ensures Init(SetAuthState(s, u, t, codec).items, codec) == SetAuthState(s, u, t, codec) <==> t != ""
    ensures SetAuthState(s, u, t, codec).isAuthenticated
    ensures !Init(SetAuthState(s, u, t, codec).items, codec).isAuthenticated <==> t == ""
  {
    var items := SetAuthState(s, u, t, codec).items;
    assert items[UserKey] == codec.stringify(u) && items[TokenKey] == t;
    assert InitialUser(items, codec) == Some(u);
  }

  /** Signing in and then out leaves the same storage as signing out alone. */
  lemma SetAuthThenLogout(s: Snapshot, u: User, t: string, codec: Codec)
    ensures LogoutState(SetAuthState(s, u, t, codec)) == LogoutState(s)
  {
    var written := s.items[UserKey := codec.stringify(u)][TokenKey := t];
    assert written - {UserKey} - {TokenKey} == s.items - {UserKey} - {TokenKey};
  }
}
