/**
 * The access middlewares and role helpers of
 * internal/controllers/webserver/handlers/tenant_access.go, as decisions over
 * the session's uid, the `tenant` URL parameter and the membership store.
 * Calling `next` is the outcome Next; the values TenantAccessMiddleware
 * stores in the request context travel with it.
 */
module TenantAccess {
  import opened Wrappers
  import Strconv
  import opened UserTenants

  /** What a middleware leaves in the request context. */
  datatype ContextWrites = NoWrites | TenantUser(tenantID: int, userID: string)

  /** How a request leaves a middleware: the login page, the next handler, or an HTTP error. */
  datatype Outcome = Login | Next(writes: ContextWrites) | BadRequest | Forbidden | InternalError

  /** strconv.Atoi's success, as the middlewares use it. */
  predicate ParsesAsInt(s: string) {
    Strconv.Atoi(s).Parsed?
  }

  /**
   * TenantAccessMiddleware: "" and "-1" pass with no check and no context
   * values; any other parameter must be an integer the user has a row for.
   */
  function TenantAccessMiddleware(uid: string, tenantParam: string, store: TenantStore): (r: Outcome)
    reads store
    ensures uid == "" ==> r == Login
    ensures uid != "" && (tenantParam == "" || tenantParam == "-1") ==> r == Next(NoWrites)
    ensures uid != "" && tenantParam != "" && tenantParam != "-1" && !ParsesAsInt(tenantParam) ==> r == BadRequest
    ensures r == Forbidden <==>
      uid != "" && tenantParam != "" && tenantParam != "-1" && ParsesAsInt(tenantParam) &&
      !store.UserHasAccessToTenant(uid, Strconv.Atoi(tenantParam).value)
    ensures r.Next? && r.writes != NoWrites <==>
      uid != "" && tenantParam != "" && tenantParam != "-1" && ParsesAsInt(tenantParam) &&
      store.UserHasAccessToTenant(uid, Strconv.Atoi(tenantParam).value)
    ensures r.Next? && r.writes != NoWrites ==> r.writes == TenantUser(Strconv.Atoi(tenantParam).value, uid)
    ensures r != InternalError
  {
    if uid == "" then Login
    else if tenantParam == "" || tenantParam == "-1" then Next(NoWrites)
    else
      match Strconv.Atoi(tenantParam)
      case Parsed(tid) =>
        if !store.UserHasAccessToTenant(uid, tid) then Forbidden
        else Next(TenantUser(tid, uid))
      case _ => BadRequest
  }

  /**
   * TenantAdminMiddleware: the parameter is required (no "-1" bypass) and must
   * be an integer; the admin lookup's error (a missing row included) is an
   * internal error; a non-admin member is forbidden.
   */
  function TenantAdminMiddleware(uid: string, tenantParam: string, store: TenantStore): (r: Outcome)
    reads store
    ensures uid == "" ==> r == Login
    ensures uid != "" && tenantParam == "" ==> r == BadRequest
    ensures uid != "" && !ParsesAsInt(tenantParam) ==> r == BadRequest
    ensures uid != "" && ParsesAsInt(tenantParam) && !store.UserHasAccessToTenant(uid, Strconv.Atoi(tenantParam).value) ==>
      r == InternalError
    ensures r.Next? <==>
      uid != "" && ParsesAsInt(tenantParam) && store.GetUserRoleInTenant(uid, Strconv.Atoi(tenantParam).value) == Ok(Admin)
    ensures r == Forbidden <==>
      uid != "" && ParsesAsInt(tenantParam) &&
      store.GetUserRoleInTenant(uid, Strconv.Atoi(tenantParam).value) in {Ok(Operator), Ok(User)}
    ensures r == InternalError <==>
      uid != "" && ParsesAsInt(tenantParam) && store.GetUserRoleInTenant(uid, Strconv.Atoi(tenantParam).value).Err?
    ensures r.Next? ==> r.writes == NoWrites
  {
    if uid == "" then Login
    else if tenantParam == "" then BadRequest
    else
      match Strconv.Atoi(tenantParam)
      case Parsed(tid) =>
        (match store.IsUserTenantAdmin(uid, tid)
         case Err(_) => InternalError
         case Ok(isAdmin) => if !isAdmin then Forbidden else Next(NoWrites))
      case _ => BadRequest
  }

  /**
   * SuperAdminMiddleware: no tenant parameter is read; the hoster tenant must
   * be unique (otherwise an internal error) and the user an admin there.
   */
  function SuperAdminMiddleware(uid: string, store: TenantStore): (r: Outcome)
    reads store
    ensures uid == "" ==> r == Login
    ensures uid != "" && store.GetHosterTenant().Err? ==> r == InternalError
    ensures r.Next? <==>
      uid != "" && store.GetHosterTenant().Ok? &&
      store.GetUserRoleInTenant(uid, store.GetHosterTenant().value.id) == Ok(Admin)
    ensures r == Forbidden <==>
      uid != "" && store.GetHosterTenant().Ok? &&
      store.GetUserRoleInTenant(uid, store.GetHosterTenant().value.id) in {Ok(Operator), Ok(User)}
    ensures r == InternalError <==>
      uid != "" &&
      (store.GetHosterTenant().Err? || store.GetUserRoleInTenant(uid, store.GetHosterTenant().value.id).Err?)
    ensures uid != "" && store.GetHosterTenant().Ok? && !store.UserHasAccessToTenant(uid, store.GetHosterTenant().value.id) ==>
      r == InternalError
    ensures r.Next? ==> r.writes == NoWrites
  {
    if uid == "" then Login
    else
      match store.GetHosterTenant()
      case Err(_) => InternalError
      case Ok(hoster) =>
        match store.IsUserTenantAdmin(uid, hoster.id)
        case Err(_) => InternalError
        case Ok(isAdmin) => if !isAdmin then Forbidden else Next(NoWrites)
  }

  /**
   * TenantOperatorMiddleware: as TenantAdminMiddleware, but the roles admin
   * and operator both pass and only the role user is forbidden.
   */
  function TenantOperatorMiddleware(uid: string, tenantParam: string, store: TenantStore): (r: Outcome)
    reads store
    ensures uid == "" ==> r == Login
    ensures uid != "" && tenantParam == "" ==> r == BadRequest
    ensures uid != "" && !ParsesAsInt(tenantParam) ==> r == BadRequest
    ensures uid != "" && ParsesAsInt(tenantParam) && !store.UserHasAccessToTenant(uid, Strconv.Atoi(tenantParam).value) ==>
      r == InternalError
    ensures r.Next? <==>
      uid != "" && ParsesAsInt(tenantParam) &&
      store.GetUserRoleInTenant(uid, Strconv.Atoi(tenantParam).value) in {Ok(Admin), Ok(Operator)}
    ensures r == Forbidden <==>
      uid != "" && ParsesAsInt(tenantParam) && store.GetUserRoleInTenant(uid, Strconv.Atoi(tenantParam).value) == Ok(User)
    ensures r == InternalError <==>
      uid != "" && ParsesAsInt(tenantParam) && store.GetUserRoleInTenant(uid, Strconv.Atoi(tenantParam).value).Err?
    ensures r.Next? ==> r.writes == NoWrites
  {
    if uid == "" then Login
    else if tenantParam == "" then BadRequest
    else
      match Strconv.Atoi(tenantParam)
      case Parsed(tid) =>
        (match store.GetUserRoleInTenant(uid, tid)
         case Err(_) => InternalError
         case Ok(role) => if role != Admin && role != Operator then Forbidden else Next(NoWrites))
      case _ => BadRequest
  }

  /** The failures GetCurrentUserTenantRole passes on. */
  datatype RoleError = InvalidTenantParam | LookupError(error: StoreError)

  /**
   * GetCurrentUserTenantRole: "" with no error when there is no user or no
   * specific tenant; otherwise the name of the user's role in the parsed
   * tenant, or the lookup's error.
   */
  function GetCurrentUserTenantRole(uid: string, tenantParam: string, store: TenantStore): (r: Result<string, RoleError>)
    reads store
    ensures uid == "" || tenantParam == "" || tenantParam == "-1" ==> r == Ok("")
    ensures uid != "" && tenantParam != "" && tenantParam != "-1" && !ParsesAsInt(tenantParam) ==> r == Err(InvalidTenantParam)
    ensures r.Ok? && r.value != "" ==>
      ParsesAsInt(tenantParam) &&
      (exists role :: store.GetUserRoleInTenant(uid, Strconv.Atoi(tenantParam).value) == Ok(role) && r.value == RoleName(role))
    ensures r.Err? && r.error.LookupError? ==>
      store.GetUserRoleInTenant(uid, Strconv.Atoi(tenantParam).value) == Err(r.error.error)
    ensures uid != "" && tenantParam != "" && tenantParam != "-1" && ParsesAsInt(tenantParam) ==>
      r == (match store.GetUserRoleInTenant(uid, Strconv.Atoi(tenantParam).value)
            case Ok(role) => Ok(RoleName(role))
            case Err(e) => Err(LookupError(e)))
  {
    if uid == "" then Ok("")
    else if tenantParam == "" || tenantParam == "-1" then Ok("")
    else
      match Strconv.Atoi(tenantParam)
      case Parsed(tid) =>
        (match store.GetUserRoleInTenant(uid, tid)
         case Err(e) => Err(LookupError(e))
         case Ok(role) => Ok(RoleName(role)))
      case _ => Err(InvalidTenantParam)
  }

  /**
   * The "-1" bypass is textual: "-01" parses to -1 as well, but goes through
   * the membership check of tenant -1.
   */
  lemma BypassIsTextual(uid: string, padded: string, store: TenantStore)
    requires uid != "" && padded == "-01"
    ensures TenantAccessMiddleware(uid, "-1", store) == Next(NoWrites)
    ensures TenantAccessMiddleware(uid, padded, store) ==
      (if store.UserHasAccessToTenant(uid, -1) then Next(TenantUser(-1, uid)) else Forbidden)
  {
    var digits := padded[1..];
    assert digits == "01" && digits[..1] == "0" && digits[..1][..0] == "";
    assert Strconv.AllDigits(digits);
    assert Strconv.DigitsValue(digits[..1]) == 0;
    assert Strconv.DigitsValue(digits) == 1;
    assert Strconv.IsNumeral(padded) && Strconv.NumeralValue(padded) == -1;
    Strconv.AtoiAcceptsNumerals(padded);
  }

  /** Operator access includes admin access: every request the admin gate passes, the operator gate passes. */
  lemma AdminPassesOperatorGate(uid: string, tenantParam: string, store: TenantStore)
    ensures TenantAdminMiddleware(uid, tenantParam, store).Next? ==> TenantOperatorMiddleware(uid, tenantParam, store).Next?
  {
  }

  /**
   * The super-admin gate and IsSuperAdmin agree while the hoster tenant is
   * unique; without a unique hoster the gate refuses even a user whose legacy
   * flag IsSuperAdmin reports.
   */
  lemma SuperAdminGateVersusFlag(uid: string, store: TenantStore)
    requires uid != ""
    ensures store.GetHosterTenant().Ok? ==> (SuperAdminMiddleware(uid, store).Next? <==> store.IsSuperAdmin(uid) == Ok(true))
    ensures store.GetHosterTenant().Err? ==> SuperAdminMiddleware(uid, store) == InternalError
  {
  }

  /** One entry of the tenant switcher. */
  datatype TenantInfo = TenantInfo(id: int, description: string, isDefault: bool, isHoster: bool, userRole: string)

  /** The role text shown for a tenant: the lookup's error is dropped and shows as "". */
  function RoleText(r: Result<Role, StoreError>): string {
    match r
    case Ok(role) => RoleName(role)
    case Err(_) => ""
  }

  /** The switcher entry of a tenant, given the user's role lookup there. */
  function InfoOf(t: Tenant, role: Result<Role, StoreError>): TenantInfo {
    TenantInfo(t.id, t.description, t.isDefault, t.isHoster, RoleText(role))
  }

  /**
   * GetUserAccessibleTenants: for each tenant of the user, its fields and the
   * user's role there; nothing for an empty uid.
   */
  method GetUserAccessibleTenants(uid: string, store: TenantStore) returns (r: seq<TenantInfo>)
    ensures uid == "" ==> r == []
    ensures uid != "" ==>
      var ts := TenantsOfRows(Filter(store.memberships, UserOf(uid)), store.tenants);
      |r| == |ts| && forall i :: 0 <= i < |r| ==> r[i] == InfoOf(ts[i], store.GetUserRoleInTenant(uid, ts[i].id))
    ensures forall i :: 0 <= i < |r| ==> store.UserHasAccessToTenant(uid, r[i].id)
  {
    if uid == "" {
      return [];
    }
    var ts := store.GetUserTenants(uid);
    r := EntriesFor(uid, store, ts);
    UserTenantsAreAccessible(uid, store, ts);
    InfosAreAccessible(uid, store, ts, r);
  }

  /** The loop of GetUserAccessibleTenants: one entry per tenant, with the user's role there. */
  method EntriesFor(uid: string, store: TenantStore, ts: seq<Tenant>) returns (r: seq<TenantInfo>)
    ensures |r| == |ts|
    ensures forall k :: 0 <= k < |r| ==> r[k] == InfoOf(ts[k], store.GetUserRoleInTenant(uid, ts[k].id))
  {
    r := [];
    var i := 0;
    while i < |ts|
      invariant 0 <= i <= |ts|
      invariant |r| == i
      invariant forall k :: 0 <= k < i ==> r[k] == InfoOf(ts[k], store.GetUserRoleInTenant(uid, ts[k].id))
    {
      var role := store.GetUserRoleInTenant(uid, ts[i].id);
      r := r + [InfoOf(ts[i], role)];
      i := i + 1;
    }
  }

  /** The entries built for accessible tenants name accessible tenants. */
  lemma InfosAreAccessible(uid: string, store: TenantStore, ts: seq<Tenant>, r: seq<TenantInfo>)
    requires |r| == |ts|
    requires forall k :: 0 <= k < |r| ==> r[k] == InfoOf(ts[k], store.GetUserRoleInTenant(uid, ts[k].id))
    requires forall k :: 0 <= k < |ts| ==> store.UserHasAccessToTenant(uid, ts[k].id)
    ensures forall k :: 0 <= k < |r| ==> store.UserHasAccessToTenant(uid, r[k].id)
  {
    forall k | 0 <= k < |r| ensures store.UserHasAccessToTenant(uid, r[k].id) {
      assert r[k].id == ts[k].id;
    }
  }

  /** Every tenant GetUserTenants lists is one the user has a row for. */
  lemma UserTenantsAreAccessible(uid: string, store: TenantStore, ts: seq<Tenant>)
    requires forall t :: t in ts <==>
      exists m :: m in store.memberships && m.userID == uid && TenantById(store.tenants, m.tenantID) == Some(t)
    ensures forall i :: 0 <= i < |ts| ==> store.UserHasAccessToTenant(uid, ts[i].id)
  {
    forall i | 0 <= i < |ts| ensures store.UserHasAccessToTenant(uid, ts[i].id) {
      assert ts[i] in ts;
      var m :| m in store.memberships && m.userID == uid && TenantById(store.tenants, m.tenantID) == Some(ts[i]);
    }
  }
}
