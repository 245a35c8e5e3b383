/**
 * The token storage service: `login` stores the token, the user name and the
 * roles under the `localStorage` keys `token`, `username` and `roles`; `logout`
 * removes them; the queries read them back.
 */
module AuthServices {
  import opened Optional
  import opened Seqs
  import opened Text
  import opened Json
  import opened WebStorage
  import opened Http

  const TokenItem := "token"
  const UsernameItem := "username"
  const RolesItem := "roles"

  const LoginRoute := "/login"

  /** The `data` part of the login response; every field may be missing from the body. */
  datatype LoginData = LoginData(token: Option<string>, username: Option<string>, roles: Option<seq<string>>)

  datatype LoginResponse = LoginResponse(success: bool, message: string, data: Option<LoginData>)

  /** `res?.data?.token` is truthy: the body carries a non-empty token. */
  predicate CarriesToken(res: LoginResponse) {
    res.data.Some? && res.data.value.token.Some? && res.data.value.token.value != ""
  }

  /** `setItem` stores `String(value)`: a missing user name is stored as the text `undefined`. */
  function StoredUsername(d: LoginData): string {
    match d.username
    case Some(u) => u
    case None => "undefined"
  }

  /** The storage after the `tap` of `login` has seen the response body. */
  function LoginStorage(items: map<string, string>, res: LoginResponse): (r: map<string, string>)
    ensures !CarriesToken(res) ==> r == items
    ensures CarriesToken(res) ==> r.Keys == items.Keys + {TokenItem, UsernameItem, RolesItem}
    ensures forall k :: k in items && k !in {TokenItem, UsernameItem, RolesItem} ==> k in r && r[k] == items[k]
  {
    if CarriesToken(res) then
      var d := res.data.value;
      items[TokenItem := d.token.value][UsernameItem := StoredUsername(d)]
           [RolesItem := EncodeStringArray(d.roles.GetOr([]))]
    else items
  }

  /** The storage after `logout`. */
  function LogoutStorage(items: map<string, string>): (r: map<string, string>)
    ensures r.Keys == items.Keys - {TokenItem, UsernameItem, RolesItem}
    ensures forall k :: k in r ==> r[k] == items[k]
  {
    items - {TokenItem, UsernameItem, RolesItem}
  }

  /** `getToken()`. */
  function GetToken(items: map<string, string>): (r: Option<string>)
    ensures r.Some? <==> TokenItem in items
    ensures r.Some? ==> r.value == items[TokenItem]
  {
    if TokenItem in items then Some(items[TokenItem]) else None
  }

  /**
   * `getRoles()`: the parsed `roles` entry; a missing or empty entry parses as
   * `[]`, and text that does not parse gives the empty list too.
   */
  function GetRoles(items: map<string, string>): (r: seq<string>)
    ensures RolesItem !in items || items[RolesItem] == "" ==> r == []
    ensures RolesItem in items && DecodeStringArray(items[RolesItem]).Some? ==> EncodeStringArray(r) == items[RolesItem]
  {
    var text := if RolesItem in items && items[RolesItem] != "" then items[RolesItem] else "[]";
    assert DecodeStringArray("[]") == Some([]);
    match DecodeStringArray(text)
    case Some(roles) =>
      StringArrayDecodedCanonical(text);
      roles
    case None => []
  }

  /** `isAuthenticated()`: `!!getToken()`. */
  function IsAuthenticated(items: map<string, string>): (r: bool)
    ensures r <==> GetToken(items).Some? && GetToken(items).value != ""
  {
    TokenItem in items && items[TokenItem] != ""
  }

  /** `hasRole(role)`: the upper-cased role is among the stored roles, which are compared as stored. */
  function HasRole(items: map<string, string>, role: string): (r: bool)
    ensures r <==> ToUpper(role) in GetRoles(items)
    ensures r ==> RolesItem in items && items[RolesItem] != ""
  {
    ToUpper(role) in GetRoles(items)
  }

  // ---- properties --------------------------------------------------------------

  /** A response with a token stores exactly what it carries, and the queries read it back. */
  lemma LoginThenRead(items: map<string, string>, res: LoginResponse)
    requires CarriesToken(res)
    ensures var r := LoginStorage(items, res);
      && GetToken(r) == res.data.value.token
      && IsAuthenticated(r)
      && r[UsernameItem] == StoredUsername(res.data.value)
      && GetRoles(r) == res.data.value.roles.GetOr([])
  {
    var d := res.data.value;
    var roles := d.roles.GetOr([]);
    StringArrayRoundTrip(roles);
    assert EncodeStringArray(roles) != "";
  }

  /** After a login that carries a token, a role is held exactly when its upper-case form was in the reply. */
  lemma LoginThenHasRole(items: map<string, string>, res: LoginResponse, role: string)
    requires CarriesToken(res)
    ensures HasRole(LoginStorage(items, res), role) <==> ToUpper(role) in res.data.value.roles.GetOr([])
  {
    LoginThenRead(items, res);
  }

  /** Without roles in the response the stored list is empty. */
  lemma LoginWithoutRoles(items: map<string, string>, res: LoginResponse)
    requires CarriesToken(res) && res.data.value.roles.None?
    ensures LoginStorage(items, res)[RolesItem] == "[]"
    ensures GetRoles(LoginStorage(items, res)) == []
    ensures forall role :: !HasRole(LoginStorage(items, res), role)
  {
    LoginThenRead(items, res);
  }

  /** After `logout` no token, no role and no authentication remain; a second `logout` changes nothing. */
  lemma LogoutClears(items: map<string, string>)
    ensures GetToken(LogoutStorage(items)).None?
    ensures !IsAuthenticated(LogoutStorage(items))
    ensures GetRoles(LogoutStorage(items)) == []
    ensures forall role :: !HasRole(LogoutStorage(items), role)
    ensures LogoutStorage(LogoutStorage(items)) == LogoutStorage(items)
  {
    StringArrayRoundTrip([]);
  }

  /** A `roles` entry that does not parse behaves as no role at all. */
  lemma UnparsableRoles(items: map<string, string>, role: string)
    requires RolesItem in items && items[RolesItem] != "" && DecodeStringArray(items[RolesItem]).None?
    ensures GetRoles(items) == [] && !HasRole(items, role)
  {
  }

  /**
   * The stored roles are not normalised: when every stored role holds a
   * lower-case letter, no query matches, since the query is upper-cased.
   */
  lemma LowerCaseRolesNeverMatch(items: map<string, string>, role: string)
    requires forall i :: 0 <= i < |GetRoles(items)| ==>
      exists j :: 0 <= j < |GetRoles(items)[i]| && IsAsciiLower(GetRoles(items)[i][j])
    ensures !HasRole(items, role)
  {
    var q := ToUpper(role);
    forall i | 0 <= i < |GetRoles(items)| ensures GetRoles(items)[i] != q {
      var j :| 0 <= j < |GetRoles(items)[i]| && IsAsciiLower(GetRoles(items)[i][j]);
      assert j < |q| ==> !IsAsciiLower(q[j]);
    }
  }

  /** The query is case-insensitive in the role asked for: `hasRole('role_admin')` is `hasRole('ROLE_ADMIN')`. */
  lemma HasRoleIgnoresQueryCase(items: map<string, string>, role: string)
    ensures HasRole(items, role) <==> HasRole(items, ToUpper(role))
  {
    ToUpperIdempotent(role);
  }

  lemma {:induction false} ToUpperIdempotent(s: string)
    ensures ToUpper(ToUpper(s)) == ToUpper(s)
  {
    if s != [] {
      ToUpperIdempotent(s[1..]);
      assert ToUpper(s)[1..] == ToUpper(s[1..]);
    }
  }

  // ---- the service ------------------------------------------------------------

  class AuthService {
    const local: Storage

    constructor (local: Storage)
      ensures this.local == local
    {
      this.local := local;
    }

    /**
     * `login(document, password)`: the HTTP reply is a parameter; the storage is
     * written only for a successful reply that carries a token, and the reply is
     * passed on unchanged.
     */
    method Login(document: string, password: string, reply: Result<LoginResponse, HttpError>)
      returns (r: Result<LoginResponse, HttpError>)
      modifies local
      ensures r == reply
      ensures reply.Ok? ==> local.items == LoginStorage(old(local.items), reply.value)
      ensures reply.Err? ==> local.items == old(local.items)
    {
      if reply.Ok? {
        var res := reply.value;
        if res.data.Some? && res.data.value.token.Some? && res.data.value.token.value != "" {
          var d := res.data.value;
          local.SetItem(TokenItem, d.token.value);
          local.SetItem(UsernameItem, StoredUsername(d));
          local.SetItem(RolesItem, EncodeStringArray(d.roles.GetOr([])));
        }
      }
      r := reply;
    }

    /** `logout()`: removes the three keys and navigates to the login view. */
    method Logout() returns (redirect: string)
      modifies local
      ensures local.items == LogoutStorage(old(local.items))
      ensures redirect == LoginRoute
    {
      local.RemoveItem(TokenItem);
      local.RemoveItem(UsernameItem);
      local.RemoveItem(RolesItem);
      redirect := LoginRoute;
    }
  }
}
