/**
 * The Google sign-in storage helpers (mobile/services/googleAuthService.ts):
 * saving and clearing tokens and the user record in the secure store, and
 * the expiry rule.  The OAuth flow and the HTTP calls are left out; the
 * clock is a parameter, and so are storage failures: `failAt` is the
 * position, among the storage calls an operation makes, of the first one
 * that throws (none when absent).  JSON serialisation of the user record is
 * a pair of functions supplied by the caller.
 */
module GoogleAuthService {
  import opened Wrappers
  import opened Text
  import KeyValue

  const AccessTokenKey: string := "google_access_token"
  const RefreshTokenKey: string := "google_refresh_token"
  const UserInfoKey: string := "google_user_info"
  const TokenExpiryKey: string := "google_token_expiry"

  /** Five minutes, in milliseconds: a token this close to expiry counts as expired. */
  const ExpiryMargin: int := 5 * 60 * 1000

  datatype GoogleUserInfo = GoogleUserInfo(
    id: string, email: string, name: string, picture: string,
    givenName: Option<string>, familyName: Option<string>)

  /** `expiresAt` is absent when `None`; 0 is present but falsy. */
  datatype AuthTokens = AuthTokens(accessToken: string, refreshToken: Option<string>, expiresAt: Option<int>)

  // ---------------------------------------------------------------------
  // Storage calls as values
  // ---------------------------------------------------------------------

  datatype StorageCall = Put(key: string, value: string) | Delete(key: string)

  function Perform(items: map<string, string>, call: StorageCall): map<string, string> {
    match call
    case Put(key, value) => items[key := value]
    case Delete(key) => items - {key}
  }

  /** The store after the calls, in order. */
  function PerformAll(items: map<string, string>, calls: seq<StorageCall>): map<string, string>
    decreases |calls|
  {
    if calls == [] then items else Perform(PerformAll(items, calls[..|calls| - 1]), calls[|calls| - 1])
  }

  /** One more completed call extends the prefix by that call. */
  lemma PerformPrefixStep(items: map<string, string>, calls: seq<StorageCall>, k: nat)
    requires k < |calls|
    ensures PerformAll(items, calls[..k + 1]) == Perform(PerformAll(items, calls[..k]), calls[k])
  {
    assert calls[..k + 1][..k] == calls[..k];
  }

  /** How many of n calls complete when call `failAt` throws. */
  function Completed(failAt: Option<nat>, n: nat): (done: nat)
    ensures done <= n
    ensures done < n <==> failAt.Some? && failAt.value < n
  {
    if failAt.Some? && failAt.value < n then failAt.value else n
  }

  /** The writes `saveAuthTokens` makes: the access token always, the others when present and truthy. */
  function TokenWrites(tokens: AuthTokens): (calls: seq<StorageCall>)
    ensures 1 <= |calls| <= 3 && calls[0] == Put(AccessTokenKey, tokens.accessToken)
    ensures forall k :: 0 <= k < |calls| ==> calls[k].Put?
  {
    [Put(AccessTokenKey, tokens.accessToken)]
    + (if Present(tokens.refreshToken) then [Put(RefreshTokenKey, tokens.refreshToken.value)] else [])
    + (if tokens.expiresAt.Some? && tokens.expiresAt.value != 0 then [Put(TokenExpiryKey, IntToString(tokens.expiresAt.value))] else [])
  }

  /** The deletions `clearAuthData` makes, in order. */
  const ClearCalls: seq<StorageCall> :=
    [Delete(AccessTokenKey), Delete(RefreshTokenKey), Delete(UserInfoKey), Delete(TokenExpiryKey)]

  /** Saved tokens read back: the access token, the refresh token when given, the expiry when truthy. */
  lemma SavedTokensReadBack(items: map<string, string>, tokens: AuthTokens)
    ensures var after := PerformAll(items, TokenWrites(tokens));
      && AccessTokenKey in after && after[AccessTokenKey] == tokens.accessToken
      && (Present(tokens.refreshToken) ==> RefreshTokenKey in after && after[RefreshTokenKey] == tokens.refreshToken.value)
      && (!Present(tokens.refreshToken) ==> (RefreshTokenKey in after <==> RefreshTokenKey in items))
      && (tokens.expiresAt.Some? && tokens.expiresAt.value != 0 ==>
            TokenExpiryKey in after && ParseInt(after[TokenExpiryKey]) == tokens.expiresAt)
  {
    var calls := TokenWrites(tokens);
    var a := [Put(AccessTokenKey, tokens.accessToken)];
    var r: seq<StorageCall> := if Present(tokens.refreshToken) then [Put(RefreshTokenKey, tokens.refreshToken.value)] else [];
    var e: seq<StorageCall> := if tokens.expiresAt.Some? && tokens.expiresAt.value != 0 then [Put(TokenExpiryKey, IntToString(tokens.expiresAt.value))] else [];
    assert calls == a + r + e;
    assert PerformAll(items, a) == items[AccessTokenKey := tokens.accessToken] by {
      assert a[..0] == [];
    }
    assert PerformAll(items, a + r) == if r == [] then PerformAll(items, a) else PerformAll(items, a)[RefreshTokenKey := tokens.refreshToken.value] by {
      if r != [] {
        assert (a + r)[..1] == a;
      } else {
        assert a + r == a;
      }
    }
    if e != [] {
      assert (a + r + e)[..|a + r|] == a + r;
      ParseIntOfIntToString(tokens.expiresAt.value);
    } else {
      assert a + r + e == a + r;
    }
  }

  /** Clearing removes all four keys and leaves every other key as it was. */
  lemma ClearRemovesAuthKeys(items: map<string, string>)
    ensures var after := PerformAll(items, ClearCalls);
      && AccessTokenKey !in after && RefreshTokenKey !in after && UserInfoKey !in after && TokenExpiryKey !in after
      && forall key :: key in items && key != AccessTokenKey && key != RefreshTokenKey && key != UserInfoKey && key != TokenExpiryKey
           ==> key in after && after[key] == items[key]
  {
    assert ClearCalls[..0] == [];
    PerformPrefixStep(items, ClearCalls, 0);
    PerformPrefixStep(items, ClearCalls, 1);
    PerformPrefixStep(items, ClearCalls, 2);
    PerformPrefixStep(items, ClearCalls, 3);
    assert ClearCalls[..4] == ClearCalls;
  }

  // ---------------------------------------------------------------------
  // Operations
  // ---------------------------------------------------------------------

  /** `saveAuthTokens`: the writes of `TokenWrites` up to the first failure, which is re-thrown. */
  method SaveAuthTokens(store: KeyValue.Store, tokens: AuthTokens, failAt: Option<nat>) returns (thrown: bool)
    modifies store
    ensures thrown <==> Completed(failAt, |TokenWrites(tokens)|) < |TokenWrites(tokens)|
    ensures store.items == PerformAll(old(store.items), TokenWrites(tokens)[..Completed(failAt, |TokenWrites(tokens)|)])
  {
    var calls := TokenWrites(tokens);
    var k := 0;
    assert calls[..0] == [];
    var ok := store.SetItem(AccessTokenKey, tokens.accessToken, failAt == Some(k));
    if !ok {
      return true;
    }
    PerformPrefixStep(old(store.items), calls, 0);
    k := k + 1;
    if Present(tokens.refreshToken) {
      assert calls[k] == Put(RefreshTokenKey, tokens.refreshToken.value);
      ok := store.SetItem(RefreshTokenKey, tokens.refreshToken.value, failAt == Some(k));
      if !ok {
        return true;
      }
      PerformPrefixStep(old(store.items), calls, k);
      k := k + 1;
    }
    if tokens.expiresAt.Some? && tokens.expiresAt.value != 0 {
      assert calls[k] == Put(TokenExpiryKey, IntToString(tokens.expiresAt.value));
      ok := store.SetItem(TokenExpiryKey, IntToString(tokens.expiresAt.value), failAt == Some(k));
      if !ok {
        return true;
      }
      PerformPrefixStep(old(store.items), calls, k);
      k := k + 1;
    }
    assert k == |calls|;
    assert calls[..k] == calls;
    return false;
  }

  /** `clearAuthData`: the four deletions up to the first failure, which is re-thrown. */
  method ClearAuthData(store: KeyValue.Store, failAt: Option<nat>) returns (thrown: bool)
    modifies store
    ensures thrown <==> failAt.Some? && failAt.value < 4
    ensures store.items == PerformAll(old(store.items), ClearCalls[..Completed(failAt, 4)])
  {
    assert ClearCalls[..0] == [];
    var ok := store.DeleteItem(AccessTokenKey, failAt == Some(0));
    if !ok { return true; }
    PerformPrefixStep(old(store.items), ClearCalls, 0);
    ok := store.DeleteItem(RefreshTokenKey, failAt == Some(1));
    if !ok { return true; }
    PerformPrefixStep(old(store.items), ClearCalls, 1);
    ok := store.DeleteItem(UserInfoKey, failAt == Some(2));
    if !ok { return true; }
    PerformPrefixStep(old(store.items), ClearCalls, 2);
    ok := store.DeleteItem(TokenExpiryKey, failAt == Some(3));
    if !ok { return true; }
    PerformPrefixStep(old(store.items), ClearCalls, 3);
    assert ClearCalls[..4] == ClearCalls;
    return false;
  }

  /** `saveUserInfo`: the serialised record under its key; a failure is re-thrown. */
  method SaveUserInfo(store: KeyValue.Store, user: GoogleUserInfo, stringify: GoogleUserInfo -> string, fails: bool)
    returns (thrown: bool)
    modifies store
    ensures thrown == fails
    ensures store.items == if fails then old(store.items) else old(store.items)[UserInfoKey := stringify(user)]
  {
    var ok := store.SetItem(UserInfoKey, stringify(user), fails);
    thrown := !ok;
  }

  /** The stored access token (`getAccessToken`); a failing read gives null. */
  function StoredAccessToken(items: map<string, string>, readFails: bool): (token: Option<string>)
    ensures token.Some? <==> !readFails && AccessTokenKey in items
  {
    if readFails || AccessTokenKey !in items then None else Some(items[AccessTokenKey])
  }

  /** `getStoredUserInfo`: absent, empty or unparseable data and a failing read all give null. */
  function StoredUserInfo(items: map<string, string>, parse: string -> Option<GoogleUserInfo>, readFails: bool)
    : (user: Option<GoogleUserInfo>)
    ensures user.Some? ==> !readFails && UserInfoKey in items && items[UserInfoKey] != "" && user == parse(items[UserInfoKey])
    ensures readFails || UserInfoKey !in items ==> user.None?
  {
    if readFails || UserInfoKey !in items || items[UserInfoKey] == "" then None
    else parse(items[UserInfoKey])
  }

  /** What was saved is what is read back, for a serialiser that round-trips and never yields "". */
  lemma UserInfoRoundTrip(items: map<string, string>, user: GoogleUserInfo,
                          stringify: GoogleUserInfo -> string, parse: string -> Option<GoogleUserInfo>)
    requires stringify(user) != "" && parse(stringify(user)) == Some(user)
    ensures StoredUserInfo(items[UserInfoKey := stringify(user)], parse, false) == Some(user)
  {
  }

  /**
   * `isTokenExpired` over the stored items: no expiry (or an empty one)
   * counts as expired; otherwise expired iff now > expiry - 5 min.  A value
   * `parseInt` cannot read is NaN, every comparison with which is false, so
   * such a token never expires.
   */
  function TokenExpiredIn(items: map<string, string>, now: int): (expired: bool)
    ensures TokenExpiryKey !in items ==> expired
    ensures TokenExpiryKey in items && ParseInt(items[TokenExpiryKey]).None? && items[TokenExpiryKey] != "" ==> !expired
    ensures TokenExpiryKey in items && ParseInt(items[TokenExpiryKey]).Some? ==>
      (expired <==> now > ParseInt(items[TokenExpiryKey]).value - ExpiryMargin)
  {
    if TokenExpiryKey !in items || items[TokenExpiryKey] == "" then true
    else
      match ParseInt(items[TokenExpiryKey])
      case None => false
      case Some(expiresAt) => now > expiresAt - ExpiryMargin
  }

  /** `isTokenExpired`: a failing read counts as expired. */
  method IsTokenExpired(store: KeyValue.Store, now: int, readFails: bool) returns (expired: bool)
    ensures expired == (readFails || TokenExpiredIn(store.items, now))
  {
    if readFails {
      return true;
    }
    var expiryStr := store.GetItem(TokenExpiryKey);
    if expiryStr.None? || expiryStr.value == "" {
      return true;
    }
    var expiresAt := ParseInt(expiryStr.value);
    if expiresAt.None? {
      return false;
    }
    expired := now > expiresAt.value - ExpiryMargin;
  }

  /** Right after saving an expiry, the token counts as expired exactly within five minutes of it. */
  lemma ExpiryAfterSave(items: map<string, string>, tokens: AuthTokens, now: int)
    requires tokens.expiresAt.Some? && tokens.expiresAt.value != 0
    ensures TokenExpiredIn(PerformAll(items, TokenWrites(tokens)), now) <==> now > tokens.expiresAt.value - ExpiryMargin
  {
    SavedTokensReadBack(items, tokens);
    var s := IntToString(tokens.expiresAt.value);
    assert s != "";
  }
}
