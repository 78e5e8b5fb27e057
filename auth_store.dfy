/**
 * The mobile sign-in state (mobile/stores/authStore.ts): the signed-in user,
 * the access token, the loading flag and the last error, kept in step with
 * the tokens saved in the secure store.  The network fetch of the user
 * record and the clock are inputs; so is every storage failure.
 */
module AuthStore {
  import opened Wrappers
  import KeyValue
  import opened GoogleAuthService

  const UserInfoFailedMessage: string := "Failed to get user information"
  /** One hour, in milliseconds: the lifetime assumed when none is given. */
  const DefaultLifetime: int := 3600 * 1000

  /** The expiry saved after sign-in: `expiresIn` seconds from now when given and non-zero, else one hour. */
  function ExpiresAt(now: int, expiresIn: Option<int>): (at: int)
    ensures expiresIn.Some? && expiresIn.value != 0 ==> at - now == expiresIn.value * 1000
    ensures expiresIn.None? || expiresIn.value >= 0 ==> at > now
    ensures expiresIn.None? || expiresIn.value == 0 ==> at == now + DefaultLifetime
  {
    if expiresIn.Some? && expiresIn.value != 0 then now + expiresIn.value * 1000 else now + DefaultLifetime
  }

  /** The storage writes of a sign-in: the tokens, then the user record when one was fetched. */
  function SignInWrites(accessToken: string, expiresAt: int, user: Option<GoogleUserInfo>,
                        stringify: GoogleUserInfo -> string): (calls: seq<StorageCall>)
    ensures |calls| == |TokenWrites(AuthTokens(accessToken, None, Some(expiresAt)))| + (if user.Some? then 1 else 0)
    ensures calls[..|TokenWrites(AuthTokens(accessToken, None, Some(expiresAt)))|] == TokenWrites(AuthTokens(accessToken, None, Some(expiresAt)))
  {
    TokenWrites(AuthTokens(accessToken, None, Some(expiresAt)))
    + (if user.Some? then [Put(UserInfoKey, stringify(user.value))] else [])
  }

  /**
   * The storage side of `handleAuthSuccess`: the token writes of
   * `saveAuthTokens`, then, when a user record was fetched, the write of
   * `saveUserInfo`.  A throwing write stops the sequence, and the writes
   * before it stay.
   */
  method SaveSignIn(store: KeyValue.Store, token: string, expiresAt: int, fetched: Option<GoogleUserInfo>,
                    stringify: GoogleUserInfo -> string, failAt: Option<nat>)
    returns (tokensFailed: bool, userFailed: bool)
    modifies store
    ensures var writes := SignInWrites(token, expiresAt, fetched, stringify);
      var tokenCount := |TokenWrites(AuthTokens(token, None, Some(expiresAt)))|;
      && store.items == PerformAll(old(store.items), writes[..Completed(failAt, |writes|)])
      && (tokensFailed <==> Completed(failAt, tokenCount) < tokenCount)
      && (userFailed ==> !tokensFailed && fetched.Some?)
      && (tokensFailed || userFailed <==> Completed(failAt, |writes|) < |writes|)
  {
    var tokens := AuthTokens(token, None, Some(expiresAt));
    ghost var writes := SignInWrites(token, expiresAt, fetched, stringify);
    var tokenWrites := TokenWrites(tokens);
    var tc := |tokenWrites|;
    userFailed := false;
    tokensFailed := SaveAuthTokens(store, tokens, failAt);
    if tokensFailed {
      assert Completed(failAt, |writes|) == Completed(failAt, tc);
      assert writes[..Completed(failAt, |writes|)] == tokenWrites[..Completed(failAt, tc)];
      return;
    }
    assert Completed(failAt, tc) == tc;
    assert tokenWrites[..tc] == tokenWrites;
    if fetched.None? {
      assert writes == tokenWrites;
      return;
    }
    userFailed := SaveUserInfo(store, fetched.value, stringify, failAt == Some(tc));
    PerformPrefixStep(old(store.items), writes, tc);
    if userFailed {
      assert Completed(failAt, |writes|) == tc;
    } else {
      assert Completed(failAt, |writes|) == |writes| == tc + 1;
      assert writes[..|writes|] == writes;
    }
  }

  /**
   * The session `loadStoredAuth` restores from the stored items: a truthy
   * token and a user record that has not expired.  A failing read gives
   * null (token, user) or "expired" (expiry), as the helpers do.
   */
  function StoredSession(items: map<string, string>, now: int, parse: string -> Option<GoogleUserInfo>,
                         tokenReadFails: bool, userReadFails: bool, expiryReadFails: bool)
    : (session: Option<(GoogleUserInfo, string)>)
    ensures session.Some? ==> !tokenReadFails && !userReadFails && !expiryReadFails
    ensures session.Some? ==> AccessTokenKey in items && session.value.1 == items[AccessTokenKey] != ""
    ensures session.Some? ==> StoredUserInfo(items, parse, false) == Some(session.value.0)
    ensures session.Some? <==>
      && StoredAccessToken(items, tokenReadFails).Some? && StoredAccessToken(items, tokenReadFails).value != ""
      && StoredUserInfo(items, parse, userReadFails).Some?
      && !expiryReadFails && !TokenExpiredIn(items, now)
  {
    var token := StoredAccessToken(items, tokenReadFails);
    var user := StoredUserInfo(items, parse, userReadFails);
    var expired := expiryReadFails || TokenExpiredIn(items, now);
    if token.Some? && token.value != "" && user.Some? && !expired then Some((user.value, token.value)) else None
  }

  /** Whether `loadStoredAuth` clears storage: an expired token that is present and non-empty. */
  predicate ClearsOnLoad(items: map<string, string>, now: int, tokenReadFails: bool, expiryReadFails: bool) {
    var token := StoredAccessToken(items, tokenReadFails);
    (expiryReadFails || TokenExpiredIn(items, now)) && token.Some? && token.value != ""
  }

  class Store {
    var user: Option<GoogleUserInfo>
    var accessToken: Option<string>
    var isAuthenticated: bool
    var isLoading: bool
    var error: Option<string>
    const storage: KeyValue.Store

    /** Signed in exactly when a user is held. */
    predicate Valid()
      reads this
    {
      isAuthenticated <==> user.Some?
    }

    /** Nobody signed in, loading until the stored session has been checked. */
    constructor(storage: KeyValue.Store)
      ensures Valid() && this.storage == storage
      ensures user.None? && accessToken.None? && !isAuthenticated && isLoading && error.None?
    {
      this.storage := storage;
      user := None;
      accessToken := None;
      isAuthenticated := false;
      isLoading := true;
      error := None;
    }

    /** `setUser`: the signed-in flag follows the user. */
    method SetUser(u: Option<GoogleUserInfo>)
      modifies this
      ensures user == u && isAuthenticated == u.Some? && Valid()
      ensures accessToken == old(accessToken) && isLoading == old(isLoading) && error == old(error)
    {
      user := u;
      isAuthenticated := u.Some?;
    }

    method SetAccessToken(token: Option<string>)
      modifies this
      ensures accessToken == token
      ensures user == old(user) && isAuthenticated == old(isAuthenticated) && isLoading == old(isLoading) && error == old(error)
      ensures old(Valid()) ==> Valid()
    {
      accessToken := token;
    }

    method SetLoading(loading: bool)
      modifies this
      ensures isLoading == loading
      ensures user == old(user) && accessToken == old(accessToken) && isAuthenticated == old(isAuthenticated) && error == old(error)
      ensures old(Valid()) ==> Valid()
    {
      isLoading := loading;
    }

    method SetError(e: Option<string>)
      modifies this
      ensures error == e
      ensures user == old(user) && accessToken == old(accessToken) && isAuthenticated == old(isAuthenticated) && isLoading == old(isLoading)
      ensures old(Valid()) ==> Valid()
    {
      error := e;
    }

    /**
     * `handleAuthSuccess`: save the tokens, then the fetched user record.
     * A failed fetch or a failed write ends signed out with the error
     * shown, and the error is re-thrown; what was written before the
     * failure stays.  A missing user shows the fixed message; a failed
     * write, of the tokens or of the user record, re-throws the storage
     * error, whose own message (`storageMessage`) is shown.
     */
    method HandleAuthSuccess(token: string, expiresIn: Option<int>, now: int, fetched: Option<GoogleUserInfo>,
                             stringify: GoogleUserInfo -> string, failAt: Option<nat>, storageMessage: string)
      returns (thrown: bool)
      modifies this, storage
      ensures Valid() && !isLoading
      ensures var writes := SignInWrites(token, ExpiresAt(now, expiresIn), fetched, stringify);
        var tokenCount := |TokenWrites(AuthTokens(token, None, Some(ExpiresAt(now, expiresIn))))|;
        && storage.items == PerformAll(old(storage.items), writes[..Completed(failAt, |writes|)])
        && (thrown <==> fetched.None? || Completed(failAt, |writes|) < |writes|)
        && (!thrown ==> user == fetched && accessToken == Some(token) && isAuthenticated && error.None?)
        && (thrown ==> user.None? && accessToken.None? && !isAuthenticated)
        && (thrown && fetched.None? && Completed(failAt, tokenCount) == tokenCount ==> error == Some(UserInfoFailedMessage))
        && (thrown && Completed(failAt, |writes|) < |writes| ==> error == Some(storageMessage))
    {
      isLoading := true;
      error := None;
      var tokensFailed, userFailed := SaveSignIn(storage, token, ExpiresAt(now, expiresIn), fetched, stringify, failAt);
      if tokensFailed {
        SignOutWithError(storageMessage);
        return true;
      }
      if fetched.None? {
        SignOutWithError(UserInfoFailedMessage);
        return true;
      }
      if userFailed {
        SignOutWithError(storageMessage);
        return true;
      }
      user := fetched;
      accessToken := Some(token);
      isAuthenticated := true;
      isLoading := false;
      error := None;
      return false;
    }

    /** The catch block of `handleAuthSuccess`. */
    method SignOutWithError(message: string)
      modifies this
      ensures user.None? && accessToken.None? && !isAuthenticated && !isLoading && error == Some(message)
      ensures Valid()
    {
      error := Some(message);
      isLoading := false;
      isAuthenticated := false;
      user := None;
      accessToken := None;
    }

    /**
     * `loadStoredAuth`: restore the stored session when it is complete and
     * unexpired; an expired stored token is cleared from storage; every
     * other case (a failed clear included) ends signed out.  The error is
     * left as it was.
     */
    method LoadStoredAuth(now: int, parse: string -> Option<GoogleUserInfo>,
                          tokenReadFails: bool, userReadFails: bool, expiryReadFails: bool, clearFailAt: Option<nat>)
      modifies this, storage
      ensures Valid() && !isLoading && error == old(error)
      ensures var session := StoredSession(old(storage.items), now, parse, tokenReadFails, userReadFails, expiryReadFails);
        && (session.Some? ==> user == Some(session.value.0) && accessToken == Some(session.value.1) && isAuthenticated)
        && (session.None? ==> user.None? && accessToken.None? && !isAuthenticated)
      ensures isAuthenticated ==> !expiryReadFails && !TokenExpiredIn(old(storage.items), now)
      ensures storage.items ==
        if ClearsOnLoad(old(storage.items), now, tokenReadFails, expiryReadFails)
        then PerformAll(old(storage.items), ClearCalls[..Completed(clearFailAt, 4)])
        else old(storage.items)
    {
      isLoading := true;
      var storedToken := StoredAccessToken(storage.items, tokenReadFails);
      var storedUser := StoredUserInfo(storage.items, parse, userReadFails);
      var expired := IsTokenExpired(storage, now, expiryReadFails);
      if storedToken.Some? && storedToken.value != "" && storedUser.Some? && !expired {
        user := storedUser;
        accessToken := storedToken;
        isAuthenticated := true;
        isLoading := false;
      } else {
        if expired && storedToken.Some? && storedToken.value != "" {
          var _ := ClearAuthData(storage, clearFailAt);
        }
        user := None;
        accessToken := None;
        isAuthenticated := false;
        isLoading := false;
      }
    }

    /** `logout`: clear storage; on success everything is reset, on failure only loading ends. */
    method Logout(failAt: Option<nat>)
      modifies this, storage
      ensures storage.items == PerformAll(old(storage.items), ClearCalls[..Completed(failAt, 4)])
      ensures !isLoading
      ensures Completed(failAt, 4) == 4 ==> user.None? && accessToken.None? && !isAuthenticated && error.None?
      ensures Completed(failAt, 4) < 4 ==>
        user == old(user) && accessToken == old(accessToken) && isAuthenticated == old(isAuthenticated) && error == old(error)
      ensures old(Valid()) ==> Valid()
    {
      isLoading := true;
      var failed := ClearAuthData(storage, failAt);
      if !failed {
        user := None;
        accessToken := None;
        isAuthenticated := false;
        isLoading := false;
        error := None;
      } else {
        isLoading := false;
      }
    }

    /**
     * `checkAndRefreshAuth`: true for a signed-in store with a non-empty
     * token that has not expired; an expired one is logged out, exactly as
     * `logout` leaves the store; a signed-out store is left as it was.
     */
    method CheckAndRefreshAuth(now: int, expiryReadFails: bool, logoutFailAt: Option<nat>) returns (ok: bool)
      modifies this, storage
      ensures ok <==> old(isAuthenticated) && old(accessToken).Some? && old(accessToken).value != ""
                      && !expiryReadFails && !TokenExpiredIn(old(storage.items), now)
      ensures ok ==> user == old(user) && accessToken == old(accessToken) && isAuthenticated && storage.items == old(storage.items)
      ensures !(old(isAuthenticated) && old(accessToken).Some? && old(accessToken).value != "") ==>
        user == old(user) && accessToken == old(accessToken) && isAuthenticated == old(isAuthenticated)
        && isLoading == old(isLoading) && error == old(error) && storage.items == old(storage.items)
      ensures ok ==> isLoading == old(isLoading) && error == old(error)
      ensures old(isAuthenticated) && old(accessToken).Some? && old(accessToken).value != ""
              && (expiryReadFails || TokenExpiredIn(old(storage.items), now)) ==>
        && storage.items == PerformAll(old(storage.items), ClearCalls[..Completed(logoutFailAt, 4)])
        && !isLoading
        && (Completed(logoutFailAt, 4) == 4 ==> user.None? && accessToken.None? && !isAuthenticated && error.None?)
        && (Completed(logoutFailAt, 4) < 4 ==>
              user == old(user) && accessToken == old(accessToken) && isAuthenticated == old(isAuthenticated) && error == old(error))
      ensures old(Valid()) ==> Valid()
    {
      if !isAuthenticated || accessToken.None? || accessToken.value == "" {
        return false;
      }
      var expired := IsTokenExpired(storage, now, expiryReadFails);
      if expired {
        Logout(logoutFailAt);
        return false;
      }
      return true;
    }
  }

  /**
   * A sign-in that completes is restored on the next launch until five
   * minutes before its expiry, for a serialiser that round-trips.
   */
  lemma SignInIsRestored(items: map<string, string>, token: string, expiresAt: int, user: GoogleUserInfo,
                         stringify: GoogleUserInfo -> string, parse: string -> Option<GoogleUserInfo>, now: int)
    requires token != "" && expiresAt != 0 && now <= expiresAt - ExpiryMargin
    requires stringify(user) != "" && parse(stringify(user)) == Some(user)
    ensures StoredSession(PerformAll(items, SignInWrites(token, expiresAt, Some(user), stringify)), now, parse, false, false, false)
         == Some((user, token))
  {
    var tokens := AuthTokens(token, None, Some(expiresAt));
    var mid := PerformAll(items, TokenWrites(tokens));
    var after := mid[UserInfoKey := stringify(user)];
    SignInWritesPerformed(items, token, expiresAt, user, stringify);
    SavedTokensReadBack(items, tokens);
    ExpiryAfterSave(items, tokens, now);
    ExpiryOnlyReadsItsKey(mid, after, now);
    assert StoredAccessToken(after, false) == Some(token);
    assert StoredUserInfo(after, parse, false) == Some(user);
  }

  /** The sign-in writes leave the token writes' items with the user record added. */
  lemma SignInWritesPerformed(items: map<string, string>, token: string, expiresAt: int, user: GoogleUserInfo,
                              stringify: GoogleUserInfo -> string)
    ensures PerformAll(items, SignInWrites(token, expiresAt, Some(user), stringify))
         == PerformAll(items, TokenWrites(AuthTokens(token, None, Some(expiresAt))))[UserInfoKey := stringify(user)]
  {
    var writes := SignInWrites(token, expiresAt, Some(user), stringify);
    var n := |TokenWrites(AuthTokens(token, None, Some(expiresAt)))|;
    PerformPrefixStep(items, writes, n);
    assert writes[..n + 1] == writes;
    assert writes[n] == Put(UserInfoKey, stringify(user));
  }

  /** Expiry depends on the stored expiry alone. */
  lemma ExpiryOnlyReadsItsKey(a: map<string, string>, b: map<string, string>, now: int)
    requires TokenExpiryKey in a <==> TokenExpiryKey in b
    requires TokenExpiryKey in a ==> a[TokenExpiryKey] == b[TokenExpiryKey]
    ensures TokenExpiredIn(a, now) == TokenExpiredIn(b, now)
  {
  }

  /** After a completed logout nothing is restored. */
  lemma LogoutForgetsSession(items: map<string, string>, now: int, parse: string -> Option<GoogleUserInfo>)
    ensures StoredSession(PerformAll(items, ClearCalls), now, parse, false, false, false).None?
  {
    ClearRemovesAuthKeys(items);
  }
}
