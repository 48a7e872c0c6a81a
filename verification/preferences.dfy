/**
 * UserPreferencesRepository: the DataStore file "user_auth_prefs" as a string-keyed map, of which the
 * repository only ever touches the single key "auth_token".
 */
module UserPreferences {
  import opened Wrappers
  import opened Api

  const StoreName := "user_auth_prefs"
  const AuthTokenKey := "auth_token"

  /** How the next read of the underlying file behaves. */
  datatype ReadFault = Healthy | IOFailure | OtherFailure(message: Option<string>)

  datatype Store = Store(prefs: map<string, string>, fault: ReadFault)

  /** The slot the repository manages. */
  function Slot(s: Store): Option<string> {
    if AuthTokenKey in s.prefs then Some(s.prefs[AuthTokenKey]) else None
  }

  /** `saveAuthToken(token)`: `preferences[AUTH_TOKEN] = token`. */
  function SaveAuthToken(s: Store, token: string): (r: Store)
    ensures Slot(r) == Some(token)
    ensures r.prefs.Keys == s.prefs.Keys + {AuthTokenKey}
    ensures forall k :: k in s.prefs && k != AuthTokenKey ==> r.prefs[k] == s.prefs[k]
    ensures r.fault == s.fault
  {
    s.(prefs := s.prefs[AuthTokenKey := token])
  }

  /** `clearAuthToken()`: `preferences.remove(AUTH_TOKEN)`. */
  function ClearAuthToken(s: Store): (r: Store)
    ensures Slot(r) == None
    ensures r.prefs.Keys == s.prefs.Keys - {AuthTokenKey}
    ensures forall k :: k in r.prefs ==> r.prefs[k] == s.prefs[k]
    ensures r.fault == s.fault
  {
    s.(prefs := s.prefs - {AuthTokenKey})
  }

  /**
   * `getAuthToken()` (called as `getAuthTokenOnce()` elsewhere): the first value of the data flow mapped
   * to the token; an IOException while reading is replaced by empty preferences, any other exception
   * propagates.
   */
  function GetAuthToken(s: Store): (r: TokenRead)
    ensures s.fault.Healthy? ==> r == Value(Slot(s))
    ensures s.fault.IOFailure? ==> r == Value(None)
    ensures s.fault.OtherFailure? ==> r == Raised(s.fault.message)
  {
    match s.fault
    case Healthy => Value(Slot(s))
    case IOFailure => Value(None)
    case OtherFailure(m) => Raised(m)
  }

  /** Whatever the store holds, save then get returns the saved token unless the read fails. */
  lemma SaveThenGet(s: Store, token: string)
    requires s.fault.Healthy?
    ensures GetAuthToken(SaveAuthToken(s, token)) == Value(Some(token))
  {
  }

  /** A second save replaces the first: the store ends up as if only the second had happened. */
  lemma SaveOverwrites(s: Store, a: string, b: string)
    ensures SaveAuthToken(SaveAuthToken(s, a), b) == SaveAuthToken(s, b)
  {
  }

  /** After a clear, a read yields no token (or the read's own exception). */
  lemma ClearThenGet(s: Store)
    ensures !s.fault.OtherFailure? ==> GetAuthToken(ClearAuthToken(s)) == Value(None)
  {
  }

  /** Clearing an empty slot changes nothing, and clearing twice is clearing once. */
  lemma ClearIsIdempotent(s: Store)
    ensures Slot(s) == None ==> ClearAuthToken(s) == s
    ensures ClearAuthToken(ClearAuthToken(s)) == ClearAuthToken(s)
  {
    if Slot(s) == None {
      assert s.prefs - {AuthTokenKey} == s.prefs;
    }
  }

  /** Only the "auth_token" entry is ever read: stores that agree on it and on the read fault read the same. */
  lemma ReadDependsOnlyOnSlot(s: Store, t: Store)
    requires s.fault == t.fault && Slot(s) == Slot(t)
    ensures GetAuthToken(s) == GetAuthToken(t)
  {
  }
}
