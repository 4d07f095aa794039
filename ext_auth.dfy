/**
 * The extension's auth record in `chrome.storage.local`: the access token
 * under one key and the rest of the session under another. Reading the
 * session checks the expiry and clears both keys once it has passed.
 */
module ExtAuth {
  import opened Wrappers

  const AuthKey: string := "recall_auth_token"
  const UserKey: string := "recall_user_data"

  datatype User = User(id: string, email: Option<string>)

  /** What the web app sends: `expiresAt` is in seconds since the epoch. */
  datatype AuthData = AuthData(accessToken: string, refreshToken: Option<string>, expiresAt: Option<int>, user: Option<User>)

  /** A stored value: the token string, or the user-data record. */
  datatype Stored = Token(token: string) | UserData(refreshToken: Option<string>, expiresAt: Option<int>, user: Option<User>)

  /** The token as `result[AUTH_STORAGE_KEY]` read as a condition: present
      and non-empty. */
  function TokenOf(entries: map<string, Stored>): Option<string> {
    if AuthKey in entries && entries[AuthKey].Token? && entries[AuthKey].token != "" then Some(entries[AuthKey].token)
    else None
  }

  /** `userData?.expiresAt && Date.now() > userData.expiresAt * 1000`. */
  predicate Expired(entries: map<string, Stored>, nowMs: int) {
    UserKey in entries && entries[UserKey].UserData? && entries[UserKey].expiresAt.Some?
    && entries[UserKey].expiresAt.value != 0
    && nowMs > entries[UserKey].expiresAt.value * 1000
  }

  /** `chrome.storage.local.remove([AUTH_STORAGE_KEY, USER_STORAGE_KEY])`. */
  function Cleared(entries: map<string, Stored>): (e: map<string, Stored>)
    ensures AuthKey !in e && UserKey !in e
    ensures forall k :: k != AuthKey && k != UserKey ==> (k in e <==> k in entries) && (k in e ==> e[k] == entries[k])
  {
    entries - {AuthKey, UserKey}
  }

  /** `saveAuthToStorage(data)`. */
  function Saved(entries: map<string, Stored>, data: AuthData): map<string, Stored> {
    entries[AuthKey := Token(data.accessToken)][UserKey := UserData(data.refreshToken, data.expiresAt, data.user)]
  }

  /** `getSessionFromStorage()`: the storage afterwards and the token. */
  function ReadSession(entries: map<string, Stored>, nowMs: int): (map<string, Stored>, Option<string>) {
    match TokenOf(entries)
    case None => (entries, None)
    case Some(t) => if Expired(entries, nowMs) then (Cleared(entries), None) else (entries, Some(t))
  }

  /** Without a stored token the answer is null and nothing changes. After
      the expiry both keys are removed and the answer is null; before it, or
      without an expiry, the stored token comes back and nothing changes. */
  lemma ReadSessionSpec(entries: map<string, Stored>, nowMs: int)
    ensures var (e, r) := ReadSession(entries, nowMs);
            (TokenOf(entries).None? ==> r.None? && e == entries)
            && (TokenOf(entries).Some? && Expired(entries, nowMs) ==> r.None? && e == Cleared(entries))
            && (TokenOf(entries).Some? && !Expired(entries, nowMs) ==> r == TokenOf(entries) && e == entries)
            && (r.Some? <==> TokenOf(entries).Some? && !Expired(entries, nowMs))
  {
  }

  /** A stored session without an expiry never expires. */
  lemma NoExpiryNeverExpires(entries: map<string, Stored>, data: AuthData, nowMs: int)
    requires data.accessToken != "" && data.expiresAt.None?
    ensures ReadSession(Saved(entries, data), nowMs) == (Saved(entries, data), Some(data.accessToken))
  {
  }

  /** Save, then read before the expiry: the saved token comes back. Read
      after it: null, and the auth keys are gone. */
  lemma SaveThenRead(entries: map<string, Stored>, data: AuthData, nowMs: int)
    requires data.accessToken != ""
    ensures data.expiresAt.None? || data.expiresAt.value == 0 || nowMs <= data.expiresAt.value * 1000 ==>
              ReadSession(Saved(entries, data), nowMs).1 == Some(data.accessToken)
    ensures data.expiresAt.Some? && data.expiresAt.value != 0 && nowMs > data.expiresAt.value * 1000 ==>
              ReadSession(Saved(entries, data), nowMs).1 == None
              && AuthKey !in ReadSession(Saved(entries, data), nowMs).0
              && UserKey !in ReadSession(Saved(entries, data), nowMs).0
  {
    var e := Saved(entries, data);
    assert e[AuthKey] == Token(data.accessToken);
    assert e[UserKey] == UserData(data.refreshToken, data.expiresAt, data.user);
  }

  /** Reading the session a second time gives the same answer and changes
      nothing more: an expired session is already gone after the first. */
  lemma ReadSessionTwice(entries: map<string, Stored>, nowMs: int)
    ensures var (e, r) := ReadSession(entries, nowMs);
            ReadSession(e, nowMs) == (e, r)
  {
    if TokenOf(entries).Some? && Expired(entries, nowMs) {
      assert AuthKey !in Cleared(entries);
    }
  }

  /** `getUserFromStorage()`: the stored user, or null. */
  function UserOf(entries: map<string, Stored>): (u: Option<User>)
    ensures u.Some? <==> UserKey in entries && entries[UserKey].UserData? && entries[UserKey].user.Some?
    ensures u.Some? ==> entries[UserKey].user == u
  {
    if UserKey in entries && entries[UserKey].UserData? then entries[UserKey].user else None
  }

  /** The storage area. */
  class Storage {
    var entries: map<string, Stored>

    constructor (initial: map<string, Stored>)
      ensures entries == initial
    {
      entries := initial;
    }

    method Save(data: AuthData)
      modifies this
      ensures entries == Saved(old(entries), data)
      ensures entries[AuthKey] == Token(data.accessToken)
    {
      entries := entries[AuthKey := Token(data.accessToken)];
      entries := entries[UserKey := UserData(data.refreshToken, data.expiresAt, data.user)];
    }

    method Clear()
      modifies this
      ensures entries == Cleared(old(entries))
    {
      entries := entries - {AuthKey, UserKey};
    }

    method GetSession(nowMs: int) returns (token: Option<string>)
      modifies this
      ensures (entries, token) == ReadSession(old(entries), nowMs)
    {
      token := TokenOf(entries);
      if token.None? {
        return;
      }
      if Expired(entries, nowMs) {
        Clear();
        token := None;
      }
    }

    /** `getSessionFromCookies`, kept under its old name: the same read. */
    method GetSessionFromCookies(nowMs: int) returns (token: Option<string>)
      modifies this
      ensures (entries, token) == ReadSession(old(entries), nowMs)
    {
      token := GetSession(nowMs);
    }

    method IsAuthenticated(nowMs: int) returns (authenticated: bool)
      modifies this
      ensures authenticated <==> ReadSession(old(entries), nowMs).1.Some?
      ensures entries == ReadSession(old(entries), nowMs).0
    {
      var token := GetSession(nowMs);
      authenticated := token.Some?;
    }

    method GetUser() returns (user: Option<User>)
      ensures user == UserOf(entries)
    {
      user := if UserKey in entries && entries[UserKey].UserData? then entries[UserKey].user else None;
    }
  }
}
