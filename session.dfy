/** The authentication context: who is signed in, whether the boot check is still running,
    and the credential kept in the browser's key/value storage. */
module Session {
  import opened Wrappers
  import opened Accounts
  import opened Numbers

  const TokenKey := "auth_token"
  const ExpiresKey := "auth_expires"
  /** 24 hours in milliseconds. */
  const SessionLength := 24 * 60 * 60 * 1000

  const AdminPassword := "admin123"
  const ManagerPassword := "manager123"
  const AdminToken := "mock_admin_token"
  const ManagerToken := "mock_manager_token"

  /** A stored string is truthy unless it is empty; an absent key reads as null. */
  predicate StoredTruthy(store: map<string, string>, key: string) {
    key in store && store[key] != ""
  }

  /** The boot check: a token and an expiry are stored and the clock is strictly before
      the expiry read back with parseInt (NaN compares false). */
  predicate BootAccepts(store: map<string, string>, now: int) {
    && StoredTruthy(store, TokenKey)
    && StoredTruthy(store, ExpiresKey)
    && match ParseInt(store[ExpiresKey])
       case Some(expires) => now < expires
       case None => false
  }

  /** `mockUsersData[0]`: undefined (a falsy user) when the list is empty. */
  function FirstUser(users: seq<User>): Option<User> {
    if |users| > 0 then Some(users[0]) else None
  }

  /** The user after the boot check: the first fixture user whatever token is stored, or
      the current one when the check fails. */
  function BootUser(users: seq<User>, store: map<string, string>, now: int, current: Option<User>): Option<User> {
    if BootAccepts(store, now) then FirstUser(users) else current
  }

  /** Which fixture entry a login matches, with the token it writes. Reading a missing
      entry's email throws, which login reports as failure: so does None. */
  datatype Grant = Grant(index: nat, token: string)

  /** The administrator's pair: the first fixture user's email with "admin123". */
  predicate AdminPair(users: seq<User>, email: string, password: string) {
    |users| > 0 && email == users[0].email && password == AdminPassword
  }

  /** The manager's pair: the second fixture user's email with "manager123". */
  predicate ManagerPair(users: seq<User>, email: string, password: string) {
    |users| > 1 && email == users[1].email && password == ManagerPassword
  }

  /** The administrator's pair is tried first, then the manager's; every other pair fails. */
  function MatchCredentials(users: seq<User>, email: string, password: string): (g: Option<Grant>)
    ensures g.Some? ==> g.value.index < |users|
    ensures g.Some? ==> email == users[g.value.index].email
    ensures g == Some(Grant(0, AdminToken)) <==> AdminPair(users, email, password)
    ensures g == Some(Grant(1, ManagerToken))
        <==> !AdminPair(users, email, password) && ManagerPair(users, email, password)
    ensures g.None? <==> !AdminPair(users, email, password) && !ManagerPair(users, email, password)
  {
    if |users| > 0 && email == users[0].email && password == AdminPassword then Some(Grant(0, AdminToken))
    else if |users| > 1 && email == users[1].email && password == ManagerPassword then Some(Grant(1, ManagerToken))
    else None
  }

  /** The storage after a successful login at time now. */
  function Persist(store: map<string, string>, token: string, now: int): (r: map<string, string>)
    ensures r.Keys == store.Keys + {TokenKey, ExpiresKey}
    ensures r[TokenKey] == token
    ensures ParseInt(r[ExpiresKey]) == Some(now + SessionLength)
    ensures forall k :: k in store && k != TokenKey && k != ExpiresKey ==> r[k] == store[k]
  {
    var expires := IntToString(now + SessionLength);
    assert |TokenKey| != |ExpiresKey|;
    UpdateTwo(store, TokenKey, token, ExpiresKey, expires);
    ParseIntToString(now + SessionLength);
    store[TokenKey := token][ExpiresKey := expires]
  }

  /** Two updates under different keys: both keys are present with their new values and
      every other key keeps its value. */
  lemma UpdateTwo(m: map<string, string>, k1: string, v1: string, k2: string, v2: string)
    requires k1 != k2
    ensures m[k1 := v1][k2 := v2].Keys == m.Keys + {k1, k2}
    ensures m[k1 := v1][k2 := v2][k1] == v1 && m[k1 := v1][k2 := v2][k2] == v2
    ensures forall k :: k in m && k != k1 && k != k2 ==> m[k1 := v1][k2 := v2][k] == m[k]
  {
  }

  /** The storage after logout. */
  function Cleared(store: map<string, string>): map<string, string> {
    store - {TokenKey, ExpiresKey}
  }

  // ---- what the transitions promise together ----

  /** A login at time t is honoured by a later boot exactly while the clock is before t + 24h. */
  lemma LoginThenBoot(store: map<string, string>, token: string, t: int, now: int)
    requires token != ""
    ensures BootAccepts(Persist(store, token, t), now) <==> now < t + SessionLength
  {
    var s := Persist(store, token, t);
    assert s[ExpiresKey] == IntToString(t + SessionLength);
    assert s[TokenKey] == token;
    ParseIntToString(t + SessionLength);
  }

  /** A credential the boot check accepts now was accepted at every earlier time: once the
      clock passes the expiry, the check keeps failing. */
  lemma BootAcceptsEarlier(store: map<string, string>, earlier: int, now: int)
    requires earlier <= now && BootAccepts(store, now)
    ensures BootAccepts(store, earlier)
  {
  }

  /** The boot check and the user it signs in do not depend on which non-empty token is stored. */
  lemma BootIgnoresTokenValue(users: seq<User>, store: map<string, string>, a: string, b: string, now: int, current: Option<User>)
    requires a != "" && b != ""
    ensures BootAccepts(store[TokenKey := a], now) == BootAccepts(store[TokenKey := b], now)
    ensures BootUser(users, store[TokenKey := a], now, current) == BootUser(users, store[TokenKey := b], now, current)
  {
    assert |TokenKey| != |ExpiresKey|;
    var sa, sb := store[TokenKey := a], store[TokenKey := b];
    assert StoredTruthy(sa, TokenKey) && StoredTruthy(sb, TokenKey);
    assert (ExpiresKey in sa <==> ExpiresKey in store) && (ExpiresKey in sb <==> ExpiresKey in store);
    if ExpiresKey in store {
      assert sa[ExpiresKey] == store[ExpiresKey] == sb[ExpiresKey];
    }
  }

  /** Whoever logged in, a boot within the window signs in the first fixture user: a manager
      who reloads the page comes back as the administrator. */
  lemma BootIgnoresWhoLoggedIn(users: seq<User>, store: map<string, string>, email: string, password: string, t: int, now: int)
    requires MatchCredentials(users, email, password).Some?
    requires t <= now < t + SessionLength
    ensures BootUser(users, Persist(store, MatchCredentials(users, email, password).value.token, t), now, None)
         == Some(users[0])
  {
    LoginThenBoot(store, MatchCredentials(users, email, password).value.token, t, now);
  }

  /** A credential whose expiry has passed signs nobody in; the boot check leaves it in
      storage, since it only reads there. */
  lemma ExpiredCredentialIgnored(users: seq<User>, store: map<string, string>, now: int, current: Option<User>)
    requires ExpiresKey in store
    requires ParseInt(store[ExpiresKey]).Some? && now >= ParseInt(store[ExpiresKey]).value
    ensures !BootAccepts(store, now)
    ensures BootUser(users, store, now, current) == current
  {
  }

  /** After logout no boot accepts, whatever the clock says. */
  lemma LogoutDefeatsBoot(store: map<string, string>, now: int)
    ensures !BootAccepts(Cleared(store), now)
    ensures TokenKey !in Cleared(store) && ExpiresKey !in Cleared(store)
    ensures forall k :: k in store && k != TokenKey && k != ExpiresKey ==> k in Cleared(store) && Cleared(store)[k] == store[k]
  {
  }

  /** A login whose expiry write failed leaves only the token behind: over storage that held
      no expiry the boot check refuses it, but an expiry left by an earlier login is read
      with the new token. */
  lemma HalfWrittenLogin(store: map<string, string>, token: string, now: int)
    ensures ExpiresKey !in store ==> !BootAccepts(store[TokenKey := token], now)
    ensures token != "" && BootAccepts(store, now) ==> BootAccepts(store[TokenKey := token], now)
  {
    assert |TokenKey| != |ExpiresKey|;
  }

  /** The authentication provider's state. `users` is the user fixture of the API module,
      which is not part of this model. */
  class AuthContext {
    const users: seq<User>
    var user: Option<User>
    var isLoading: bool
    var store: map<string, string>

    /** `isAuthenticated`: a user is set. */
    function IsAuthenticated(): bool
      reads this
    {
      user.Some?
    }

    /** The provider as first rendered: no user, loading, storage as left by earlier visits. */
    constructor (users: seq<User>, store: map<string, string>)
      ensures this.users == users && this.store == store
      ensures user == None && isLoading
    {
      this.users := users;
      this.store := store;
      user := None;
      isLoading := true;
    }

    /** `checkAuth`: reads the storage, never writes it. */
    method CheckAuth(now: int)
      modifies this`user, this`isLoading
      ensures user == BootUser(users, store, now, old(user))
      ensures !isLoading
    {
      isLoading := true;
      var accepted := BootAccepts(store, now);
      if accepted {
        user := FirstUser(users);
      }
      isLoading := false;
    }

    /** `login`: the two fixed credential pairs. On a match the user is set first, then
        the token and the expiry are written to storage; `tokenWriteOk` and `expiresWriteOk`
        are whether those two writes succeed. A write that throws ends in the `catch`: the
        result is false, the user stays set, and a failed expiry write leaves the token
        stored without it. No match changes neither the user nor the storage. */
    method Login(email: string, password: string, now: int, tokenWriteOk: bool, expiresWriteOk: bool)
      returns (ok: bool)
      modifies this`user, this`isLoading, this`store
      ensures ok == (MatchCredentials(users, email, password).Some? && tokenWriteOk && expiresWriteOk)
      ensures MatchCredentials(users, email, password).Some? ==>
        user == Some(users[MatchCredentials(users, email, password).value.index])
      ensures ok ==> store == Persist(old(store), MatchCredentials(users, email, password).value.token, now)
      ensures MatchCredentials(users, email, password).None? ==> user == old(user) && store == old(store)
      ensures MatchCredentials(users, email, password).Some? && !tokenWriteOk ==> store == old(store)
      ensures MatchCredentials(users, email, password).Some? && tokenWriteOk && !expiresWriteOk ==>
        store == old(store)[TokenKey := MatchCredentials(users, email, password).value.token]
      ensures !isLoading
    {
      isLoading := true;
      var grant := MatchCredentials(users, email, password);
      match grant {
        case Some(g) =>
          user := Some(users[g.index]);
          var expiresAt := now + SessionLength;
          if !tokenWriteOk {
            ok := false;
          } else {
            store := store[TokenKey := g.token];
            if !expiresWriteOk {
              ok := false;
            } else {
              store := store[ExpiresKey := IntToString(expiresAt)];
              ok := true;
            }
          }
        case None =>
          ok := false;
      }
      isLoading := false;
    }

    /** `logout`: both keys removed, no user, and the login page as the navigation target. */
    method Logout() returns (navigateTo: string)
      modifies this`user, this`store
      ensures store == Cleared(old(store)) && user == None && !IsAuthenticated()
      ensures navigateTo == LoginPath
    {
      store := store - {TokenKey};
      store := store - {ExpiresKey};
      user := None;
      navigateTo := LoginPath;
    }
  }
}
