/**
 * The persisted credential store: `localStorage` as a string-to-string map, and
 * the helpers that write, read and delete its "token" and "role" entries.
 */
module AuthStore {
  import opened Wrappers

  const TOKEN_KEY := "token"
  const ROLE_KEY := "role"

  /** The store after `saveAuth(token, role)`: both keys written, every other entry kept. */
  function AfterSave(m: map<string, string>, token: string, role: string): (m': map<string, string>)
    ensures m'.Keys == m.Keys + {TOKEN_KEY, ROLE_KEY}
    ensures m'[TOKEN_KEY] == token && m'[ROLE_KEY] == role
    ensures forall k :: k in m && k != TOKEN_KEY && k != ROLE_KEY ==> m'[k] == m[k]
  {
    m[TOKEN_KEY := token][ROLE_KEY := role]
  }

  /** The store after `logout()`: both keys removed, every other entry kept. */
  function AfterLogout(m: map<string, string>): (m': map<string, string>)
    ensures m'.Keys == m.Keys - {TOKEN_KEY, ROLE_KEY}
    ensures forall k :: k in m' ==> m'[k] == m[k]
  {
    m - {TOKEN_KEY, ROLE_KEY}
  }

  /** `localStorage.getItem(key)`: `None` is the `null` of a missing key. */
  function Lookup(m: map<string, string>, key: string): (v: Option<string>)
    ensures v.Some? <==> key in m
    ensures v.Some? ==> v.value == m[key]
  {
    if key in m then Some(m[key]) else None
  }

  /** `!!getToken()`: a token is stored and it is not the empty string. */
  function LoggedIn(m: map<string, string>): (b: bool)
    ensures b <==> TOKEN_KEY in m && m[TOKEN_KEY] != ""
  {
    match Lookup(m, TOKEN_KEY)
    case Some(t) => t != ""
    case None => false
  }

  lemma SaveThenRead(m: map<string, string>, token: string, role: string)
    ensures Lookup(AfterSave(m, token, role), TOKEN_KEY) == Some(token)
    ensures Lookup(AfterSave(m, token, role), ROLE_KEY) == Some(role)
    ensures LoggedIn(AfterSave(m, token, role)) <==> token != ""
  {
  }

  lemma LogoutClears(m: map<string, string>)
    ensures Lookup(AfterLogout(m), TOKEN_KEY) == None
    ensures Lookup(AfterLogout(m), ROLE_KEY) == None
    ensures !LoggedIn(AfterLogout(m))
    ensures AfterLogout(AfterLogout(m)) == AfterLogout(m)
  {
  }

  /** A later `saveAuth` overrides an earlier one completely. */
  lemma SaveOverridesSave(m: map<string, string>, t1: string, r1: string, t2: string, r2: string)
    ensures AfterSave(AfterSave(m, t1, r1), t2, r2) == AfterSave(m, t2, r2)
  {
  }

  /** `logout` undoes `saveAuth` on a store that held neither key. */
  lemma LogoutUndoesSave(m: map<string, string>, token: string, role: string)
    requires TOKEN_KEY !in m && ROLE_KEY !in m
    ensures AfterLogout(AfterSave(m, token, role)) == m
  {
  }

  /** The browser's `localStorage`, updated in place by `saveAuth` and `logout`. */
  class Storage {
    var items: map<string, string>

    constructor (initial: map<string, string>)
      ensures items == initial
    {
      items := initial;
    }

    /** `saveAuth(token, role)`: two `setItem` calls. */
    method SaveAuth(token: string, role: string)
      modifies this
      ensures items == AfterSave(old(items), token, role)
    {
      items := items[TOKEN_KEY := token];
      items := items[ROLE_KEY := role];
    }

    /** `logout()`: two `removeItem` calls. */
    method Logout()
      modifies this
      ensures items == AfterLogout(old(items))
    {
      items := items - {TOKEN_KEY};
      items := items - {ROLE_KEY};
    }

    /** `getToken()`. */
    function GetToken(): (v: Option<string>)
      reads this
      ensures v.Some? <==> TOKEN_KEY in items
      ensures v.Some? ==> v.value == items[TOKEN_KEY]
    {
      Lookup(items, TOKEN_KEY)
    }

    /** `getRole()`. */
    function GetRole(): (v: Option<string>)
      reads this
      ensures v.Some? <==> ROLE_KEY in items
      ensures v.Some? ==> v.value == items[ROLE_KEY]
    {
      Lookup(items, ROLE_KEY)
    }

    /** `isLoggedIn()`. */
    function IsLoggedIn(): (b: bool)
      reads this
      ensures b <==> TOKEN_KEY in items && items[TOKEN_KEY] != ""
    {
      LoggedIn(items)
    }
  }
}
