/**
 * The authentication store: one state record (user, token, flags, error) whose
 * writes are mirrored into `localStorage` under `auth_token` and `user_data`,
 * and role queries over the user's roles.
 */
module AuthStores {
  import opened Optional
  import opened Seqs
  import opened Json
  import opened WebStorage
  import opened AuthModel
  import opened AppConstants

  // ---- selectors ----------------------------------------------------------------

  /** `user?.roles || []`: the user's roles, or none without a user. */
  function UserRoles(s: AuthState): (r: seq<string>)
    ensures s.user.None? ==> r == []
    ensures s.user.Some? ==> r == s.user.value.roles
  {
    match s.user
    case Some(u) => u.roles
    case None => []
  }

  /** `user?.username || ''`. */
  function Username(s: AuthState): (r: string)
    ensures s.user.None? ==> r == ""
    ensures s.user.Some? ==> r == s.user.value.username
  {
    match s.user
    case Some(u) => u.username
    case None => ""
  }

  /** `hasRole(role)`: only a signed-in user holds roles. */
  function HasRole(s: AuthState, role: string): (r: bool)
    ensures s.user.None? ==> !r
    ensures s.user.Some? ==> (r <==> role in s.user.value.roles)
  {
    role in UserRoles(s)
  }

  /** `roles.some(role => userRoles.includes(role))`. */
  function HasAnyRole(s: AuthState, roles: seq<string>): (r: bool)
    ensures r <==> exists i :: 0 <= i < |roles| && roles[i] in UserRoles(s)
  {
    Any(roles, (role: string) => HasRole(s, role))
  }

  /** `roles.every(role => userRoles.includes(role))`. */
  function HasAllRoles(s: AuthState, roles: seq<string>): (r: bool)
    ensures r <==> forall i :: 0 <= i < |roles| ==> roles[i] in UserRoles(s)
  {
    Every(roles, (role: string) => HasRole(s, role))
  }

  function IsAdmin(s: AuthState): (r: bool)
    ensures r <==> s.user.Some? && "ROLE_ADMIN" in s.user.value.roles
  {
    HasRole(s, RoleAdmin)
  }

  function IsEmployee(s: AuthState): (r: bool)
    ensures r <==> s.user.Some? && "ROLE_EMPLOYEE" in s.user.value.roles
  {
    HasRole(s, RoleEmployee)
  }

  /** As sets: "any" is a non-empty intersection, "all" is inclusion. */
  lemma RoleQueriesAsSets(s: AuthState, roles: seq<string>)
    ensures HasAnyRole(s, roles) <==> Elements(roles) * Elements(UserRoles(s)) != {}
    ensures HasAllRoles(s, roles) <==> Elements(roles) <= Elements(UserRoles(s))
  {
    if HasAnyRole(s, roles) {
      var i :| 0 <= i < |roles| && roles[i] in UserRoles(s);
      assert roles[i] in Elements(roles) * Elements(UserRoles(s));
    }
    if Elements(roles) * Elements(UserRoles(s)) != {} {
      var r :| r in Elements(roles) * Elements(UserRoles(s));
      var i :| 0 <= i < |roles| && roles[i] == r;
      assert HasRole(s, roles[i]);
    }
    if Elements(roles) <= Elements(UserRoles(s)) {
      forall i | 0 <= i < |roles| ensures roles[i] in UserRoles(s) {
        assert roles[i] in Elements(roles);
      }
    }
  }

  /** No role asked for: "any" fails and "all" holds; holding all of a non-empty list means holding one. */
  lemma RoleQueriesOnEmpty(s: AuthState, roles: seq<string>)
    ensures !HasAnyRole(s, []) && HasAllRoles(s, [])
    ensures roles != [] && HasAllRoles(s, roles) ==> HasAnyRole(s, roles)
  {
    if roles != [] && HasAllRoles(s, roles) {
      assert roles[0] in UserRoles(s);
    }
  }

  /** Without a user there are no roles: every role query is false except "all of nothing". */
  lemma NoUserNoRoles(s: AuthState, role: string, roles: seq<string>)
    requires s.user.None?
    ensures !HasRole(s, role) && !IsAdmin(s) && !IsEmployee(s)
    ensures !HasAnyRole(s, roles)
    ensures HasAllRoles(s, roles) <==> roles == []
  {
    if roles != [] {
      assert roles[0] !in UserRoles(s);
    }
  }

  // ---- transitions ----------------------------------------------------------------

  function AfterSetAuthenticated(s: AuthState, user: User, token: string): AuthState {
    s.(user := Some(user), token := Some(token), isAuthenticated := true, loading := false, error := None)
  }

  function AfterClearAuth(s: AuthState): AuthState {
    s.(user := None, token := None, isAuthenticated := false, loading := false, error := None)
  }

  /** `{ ...state.user, ...patch }` when there is a user; no user stays no user. */
  function AfterUpdateUser(s: AuthState, patch: UserPatch): (r: AuthState)
    ensures r.user.Some? <==> s.user.Some?
    ensures r.token == s.token && r.isAuthenticated == s.isAuthenticated
  {
    s.(user := if s.user.Some? then Some(MergeUser(s.user.value, patch)) else None)
  }

  /** The storage entries that mirror an authenticated state. */
  function AuthenticatedStorage(items: map<string, string>, user: User, token: string): map<string, string> {
    items[AuthTokenKey := token][UserDataKey := EncodeUser(user)]
  }

  function ClearedStorage(items: map<string, string>): map<string, string> {
    items - {AuthTokenKey, UserDataKey}
  }

  /** Clearing is idempotent, on the state and on the storage. */
  lemma ClearAuthIdempotent(s: AuthState, items: map<string, string>)
    ensures AfterClearAuth(AfterClearAuth(s)) == AfterClearAuth(s)
    ensures ClearedStorage(ClearedStorage(items)) == ClearedStorage(items)
    ensures AuthTokenKey !in ClearedStorage(items) && UserDataKey !in ClearedStorage(items)
    ensures !AfterClearAuth(s).isAuthenticated && UserRoles(AfterClearAuth(s)) == []
  {
  }

  /** What `setAuthenticated` stores reads back as the same user and token. */
  lemma AuthenticatedStorageReadsBack(items: map<string, string>, user: User, token: string)
    ensures var m := AuthenticatedStorage(items, user, token);
      m[AuthTokenKey] == token && DecodeUser(m[UserDataKey]) == Some(user)
  {
    UserRoundTrip(user);
  }

  /**
   * The storage `initializeFromStorage` reads: whether both entries are truthy,
   * and whether the user entry parses.
   */
  predicate StoredSession(items: map<string, string>) {
    && AuthTokenKey in items && items[AuthTokenKey] != ""
    && UserDataKey in items && items[UserDataKey] != ""
  }

  // ---- the store --------------------------------------------------------------------

  class AuthStore {
    var state: AuthState
    const local: Storage

    constructor (local: Storage)
      ensures state == InitialAuthState && this.local == local
    {
      state := InitialAuthState;
      this.local := local;
    }

    /** Starting an operation clears the error; finishing one keeps it. */
    method SetLoading(loading: bool)
      modifies this
      ensures state == old(state).(loading := loading, error := if loading then None else old(state).error)
    {
      state := state.(loading := loading, error := if loading then None else state.error);
    }

    method SetError(error: Option<string>)
      modifies this
      ensures state == old(state).(error := error, loading := false)
    {
      state := state.(error := error, loading := false);
    }

    method SetAuthenticated(user: User, token: string)
      modifies this, local
      ensures state == AfterSetAuthenticated(old(state), user, token)
      ensures local.items == AuthenticatedStorage(old(local.items), user, token)
    {
      state := AfterSetAuthenticated(state, user, token);
      local.SetItem(AuthTokenKey, token);
      local.SetItem(UserDataKey, EncodeUser(user));
    }

    method ClearAuth()
      modifies this, local
      ensures state == AfterClearAuth(old(state))
      ensures local.items == ClearedStorage(old(local.items))
    {
      state := AfterClearAuth(state);
      local.RemoveItem(AuthTokenKey);
      local.RemoveItem(UserDataKey);
    }

    /** Merges into an existing user and re-stores it; without a user nothing is written. */
    method UpdateUser(patch: UserPatch)
      modifies this, local
      ensures state == AfterUpdateUser(old(state), patch)
      ensures old(state).user.None? ==> local.items == old(local.items)
      ensures old(state).user.Some? ==> local.items == old(local.items)[UserDataKey := EncodeUser(state.user.value)]
    {
      state := AfterUpdateUser(state, patch);
      if state.user.Some? {
        local.SetItem(UserDataKey, EncodeUser(state.user.value));
      }
    }

    /**
     * Authenticates from the stored entries when both are present; a user entry
     * that does not parse clears the authentication; otherwise nothing changes.
     * Re-storing a parsed user writes back the very text that was read.
     */
    method InitializeFromStorage()
      modifies this, local
      ensures !StoredSession(old(local.items)) ==> state == old(state) && local.items == old(local.items)
      ensures StoredSession(old(local.items)) && DecodeUser(old(local.items)[UserDataKey]).None? ==>
        state == AfterClearAuth(old(state)) && local.items == ClearedStorage(old(local.items))
      ensures StoredSession(old(local.items)) && DecodeUser(old(local.items)[UserDataKey]).Some? ==>
        && state == AfterSetAuthenticated(old(state), DecodeUser(old(local.items)[UserDataKey]).value,
                                          old(local.items)[AuthTokenKey])
        && local.items == old(local.items)
    {
      var token := local.GetItem(AuthTokenKey);
      var userData := local.GetItem(UserDataKey);
      if token.Some? && token.value != "" && userData.Some? && userData.value != "" {
        match DecodeUser(userData.value)
        case Some(user) =>
          UserDecodedCanonical(userData.value);
          SetAuthenticated(user, token.value);
        case None =>
          ClearAuth();
      }
    }
  }
}
