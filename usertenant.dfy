/**
 * The tenant-membership and hoster-tenant store (internal/models/usertenant.go).
 *
 * The store's tables are in memory: membership rows (user, tenant, role,
 * default flag), tenants with their hoster flag, and users with the legacy
 * super-admin flag. Rows keep the order of the table, which is the order the
 * unordered queries and First() see. Failures of the database itself are not
 * modelled; the errors left are those of the code and of ent's Only().
 */
module UserTenants {
  import opened Wrappers

  /** The three roles of a membership; ent's enum validator rejects any other value. */
  datatype Role = Admin | Operator | User

  function RoleName(r: Role): string {
    match r
    case Admin => "admin"
    case Operator => "operator"
    case User => "user"
  }

  datatype Membership = Membership(userID: string, tenantID: int, role: Role, isDefault: bool)

  datatype Tenant = Tenant(id: int, description: string, isDefault: bool, isHoster: bool)

  datatype UserRecord = UserRecord(id: string, isSuperAdmin: bool)

  /** NotFound and NotSingular are the two failures of ent's Only(). */
  datatype StoreError = AlreadyAssigned(userID: string, tenantID: int) | NotFound | NotSingular

  // ---------------------------------------------------------------------------
  // Queries over a table
  // ---------------------------------------------------------------------------

  /** The rows of a table that satisfy a query's predicates, in table order. */
  function Filter<T(!new)>(xs: seq<T>, p: T -> bool): (r: seq<T>)
    ensures |r| <= |xs|
    ensures forall x :: x in r <==> x in xs && p(x)
  {
    if xs == [] then []
    else Filter(xs[..|xs| - 1], p) + (if p(xs[|xs| - 1]) then [xs[|xs| - 1]] else [])
  }

  lemma FilterAppend<T(!new)>(xs: seq<T>, x: T, p: T -> bool)
    ensures p(x) ==> Filter(xs + [x], p) == Filter(xs, p) + [x]
    ensures !p(x) ==> Filter(xs + [x], p) == Filter(xs, p)
  {
    assert (xs + [x])[..|xs|] == xs;
    assert Filter(xs, p) + [] == Filter(xs, p);
  }

  /** ent's Only(): the single matching row; no row and several rows are both errors. */
  function Only<T>(rows: seq<T>): (r: Result<T, StoreError>)
    ensures r == Err(NotFound) <==> |rows| == 0
    ensures r == Err(NotSingular) <==> |rows| > 1
    ensures r.Ok? <==> |rows| == 1
    ensures r.Ok? ==> r.value == rows[0]
  {
    if |rows| == 0 then Err(NotFound) else if |rows| > 1 then Err(NotSingular) else Ok(rows[0])
  }

  /** ent's First(): the first matching row in table order. */
  function First<T>(rows: seq<T>): (r: Result<T, StoreError>)
    ensures r.Ok? <==> |rows| > 0
    ensures r.Ok? ==> r.value == rows[0]
    ensures r.Err? ==> r.error == NotFound
  {
    if |rows| == 0 then Err(NotFound) else Ok(rows[0])
  }

  function PairOf(uid: string, tid: int): Membership -> bool {
    (m: Membership) => m.userID == uid && m.tenantID == tid
  }

  function NotPairOf(uid: string, tid: int): Membership -> bool {
    (m: Membership) => !(m.userID == uid && m.tenantID == tid)
  }

  function UserOf(uid: string): Membership -> bool {
    (m: Membership) => m.userID == uid
  }

  function DefaultOf(uid: string): Membership -> bool {
    (m: Membership) => m.userID == uid && m.isDefault
  }

  function AdminOf(uid: string): Membership -> bool {
    (m: Membership) => m.userID == uid && m.role == Admin
  }

  function InTenant(tid: int): Membership -> bool {
    (m: Membership) => m.tenantID == tid
  }

  function HosterFlag(t: Tenant): bool {
    t.isHoster
  }

  function TenantIdIs(id: int): Tenant -> bool {
    (t: Tenant) => t.id == id
  }

  function UserIdIs(id: string): UserRecord -> bool {
    (u: UserRecord) => u.id == id
  }

  /** The tenant a membership row points to, as WithTenant() loads it (None when it is missing). */
  function TenantById(ts: seq<Tenant>, id: int): (r: Option<Tenant>)
    ensures r.Some? <==> exists t :: t in ts && t.id == id
    ensures r.Some? ==> r.value in ts && r.value.id == id
  {
    var found := Filter(ts, TenantIdIs(id));
    if found == [] then None
    else
      assert found[0] in found;
      Some(found[0])
  }

  /** The user a membership row points to, as WithUser() loads it. */
  function UserById(us: seq<UserRecord>, id: string): (r: Option<UserRecord>)
    ensures r.Some? <==> exists u :: u in us && u.id == id
    ensures r.Some? ==> r.value in us && r.value.id == id
  {
    var found := Filter(us, UserIdIs(id));
    if found == [] then None
    else
      assert found[0] in found;
      Some(found[0])
  }

  /** The loaded tenants of some membership rows, skipping rows whose tenant is missing. */
  function TenantsOfRows(rows: seq<Membership>, ts: seq<Tenant>): seq<Tenant> {
    if rows == [] then []
    else
      TenantsOfRows(rows[..|rows| - 1], ts) +
      (match TenantById(ts, rows[|rows| - 1].tenantID) case Some(t) => [t] case None => [])
  }

  /** The loaded users of some membership rows, skipping rows whose user is missing. */
  function UsersOfRows(rows: seq<Membership>, us: seq<UserRecord>): seq<UserRecord> {
    if rows == [] then []
    else
      UsersOfRows(rows[..|rows| - 1], us) +
      (match UserById(us, rows[|rows| - 1].userID) case Some(u) => [u] case None => [])
  }

  /** The user ids of some membership rows, in order. */
  function UserIdsOf(rows: seq<Membership>): seq<string> {
    if rows == [] then [] else UserIdsOf(rows[..|rows| - 1]) + [rows[|rows| - 1].userID]
  }

  lemma TenantsOfRowsAppend(rows: seq<Membership>, m: Membership, ts: seq<Tenant>)
    ensures TenantById(ts, m.tenantID).Some? ==>
      TenantsOfRows(rows + [m], ts) == TenantsOfRows(rows, ts) + [TenantById(ts, m.tenantID).value]
    ensures TenantById(ts, m.tenantID).None? ==> TenantsOfRows(rows + [m], ts) == TenantsOfRows(rows, ts)
  {
    assert (rows + [m])[..|rows|] == rows;
    assert TenantsOfRows(rows, ts) + [] == TenantsOfRows(rows, ts);
  }

  lemma UsersOfRowsAppend(rows: seq<Membership>, m: Membership, us: seq<UserRecord>)
    ensures UserById(us, m.userID).Some? ==>
      UsersOfRows(rows + [m], us) == UsersOfRows(rows, us) + [UserById(us, m.userID).value]
    ensures UserById(us, m.userID).None? ==> UsersOfRows(rows + [m], us) == UsersOfRows(rows, us)
  {
    assert (rows + [m])[..|rows|] == rows;
    assert UsersOfRows(rows, us) + [] == UsersOfRows(rows, us);
  }

  lemma UserIdsOfAppend(rows: seq<Membership>, m: Membership)
    ensures UserIdsOf(rows + [m]) == UserIdsOf(rows) + [m.userID]
  {
    assert (rows + [m])[..|rows|] == rows;
  }

  /** One more row of a table scanned in order joins the filtered rows iff it satisfies the query. */
  lemma FilterStep<T(!new)>(xs: seq<T>, i: int, p: T -> bool)
    requires 0 <= i < |xs|
    ensures Filter(xs[..i + 1], p) == Filter(xs[..i], p) + (if p(xs[i]) then [xs[i]] else [])
  {
    assert xs[..i + 1] == xs[..i] + [xs[i]];
    FilterAppend(xs[..i], xs[i], p);
  }

  /** One step of a scan that loads the tenant of each matching row. */
  lemma TenantRowsStep(ms: seq<Membership>, i: int, p: Membership -> bool, ts: seq<Tenant>)
    requires 0 <= i < |ms|
    ensures TenantsOfRows(Filter(ms[..i + 1], p), ts) ==
      TenantsOfRows(Filter(ms[..i], p), ts) +
      (if p(ms[i]) then (match TenantById(ts, ms[i].tenantID) case Some(t) => [t] case None => []) else [])
  {
    FilterStep(ms, i, p);
    if p(ms[i]) {
      TenantsOfRowsAppend(Filter(ms[..i], p), ms[i], ts);
    } else {
      assert Filter(ms[..i], p) + [] == Filter(ms[..i], p);
    }
  }

  /** One step of a scan that loads the user of each matching row. */
  lemma UserRowsStep(ms: seq<Membership>, i: int, p: Membership -> bool, us: seq<UserRecord>)
    requires 0 <= i < |ms|
    ensures UsersOfRows(Filter(ms[..i + 1], p), us) ==
      UsersOfRows(Filter(ms[..i], p), us) +
      (if p(ms[i]) then (match UserById(us, ms[i].userID) case Some(u) => [u] case None => []) else [])
  {
    FilterStep(ms, i, p);
    if p(ms[i]) {
      UsersOfRowsAppend(Filter(ms[..i], p), ms[i], us);
    } else {
      assert Filter(ms[..i], p) + [] == Filter(ms[..i], p);
    }
  }

  /** One step of a scan that collects the user id of each matching row. */
  lemma UserIdsStep(ms: seq<Membership>, i: int, p: Membership -> bool)
    requires 0 <= i < |ms|
    ensures UserIdsOf(Filter(ms[..i + 1], p)) ==
      UserIdsOf(Filter(ms[..i], p)) + (if p(ms[i]) then [ms[i].userID] else [])
  {
    FilterStep(ms, i, p);
    if p(ms[i]) {
      UserIdsOfAppend(Filter(ms[..i], p), ms[i]);
    } else {
      assert Filter(ms[..i], p) + [] == Filter(ms[..i], p);
    }
  }

  function IdNotIn(ids: seq<string>): UserRecord -> bool {
    (u: UserRecord) => u.id !in ids
  }

  lemma {:induction false} TenantsOfRowsMembers(rows: seq<Membership>, ts: seq<Tenant>)
    ensures forall t :: t in TenantsOfRows(rows, ts) <==> exists m :: m in rows && TenantById(ts, m.tenantID) == Some(t)
  {
    if rows != [] {
      var init := rows[..|rows| - 1];
      var last := rows[|rows| - 1];
      TenantsOfRowsMembers(init, ts);
      assert rows == init + [last];
      forall t ensures t in TenantsOfRows(rows, ts) <==> exists m :: m in rows && TenantById(ts, m.tenantID) == Some(t) {
        if t in TenantsOfRows(rows, ts) && t !in TenantsOfRows(init, ts) {
          assert TenantById(ts, last.tenantID) == Some(t);
        }
        if exists m :: m in rows && TenantById(ts, m.tenantID) == Some(t) {
          var m :| m in rows && TenantById(ts, m.tenantID) == Some(t);
          if m != last { assert m in init; }
        }
      }
    }
  }

  lemma {:induction false} UsersOfRowsMembers(rows: seq<Membership>, us: seq<UserRecord>)
    ensures forall u :: u in UsersOfRows(rows, us) <==> exists m :: m in rows && UserById(us, m.userID) == Some(u)
  {
    if rows != [] {
      var init := rows[..|rows| - 1];
      var last := rows[|rows| - 1];
      UsersOfRowsMembers(init, us);
      assert rows == init + [last];
      forall u ensures u in UsersOfRows(rows, us) <==> exists m :: m in rows && UserById(us, m.userID) == Some(u) {
        if u in UsersOfRows(rows, us) && u !in UsersOfRows(init, us) {
          assert UserById(us, last.userID) == Some(u);
        }
        if exists m :: m in rows && UserById(us, m.userID) == Some(u) {
          var m :| m in rows && UserById(us, m.userID) == Some(u);
          if m != last { assert m in init; }
        }
      }
    }
  }

  lemma {:induction false} UserIdsOfMembers(rows: seq<Membership>)
    ensures forall id :: id in UserIdsOf(rows) <==> exists m :: m in rows && m.userID == id
  {
    if rows != [] {
      var init := rows[..|rows| - 1];
      var last := rows[|rows| - 1];
      UserIdsOfMembers(init);
      assert rows == init + [last];
      forall id ensures id in UserIdsOf(rows) <==> exists m :: m in rows && m.userID == id {
        if exists m :: m in rows && m.userID == id {
          var m :| m in rows && m.userID == id;
          if m != last { assert m in init; }
        }
      }
    }
  }

  // ---------------------------------------------------------------------------
  // The updates, on the tables as values
  // ---------------------------------------------------------------------------

  function ClearDefault(m: Membership, uid: string): Membership {
    if m.userID == uid then m.(isDefault := false) else m
  }

  function MarkDefault(m: Membership, uid: string, tid: int): Membership {
    if m.userID == uid && m.tenantID == tid then m.(isDefault := true) else m
  }

  function WithRole(m: Membership, uid: string, tid: int, role: Role): Membership {
    if m.userID == uid && m.tenantID == tid then m.(role := role) else m
  }

  function ClearHoster(t: Tenant): Tenant {
    t.(isHoster := false)
  }

  function MarkHoster(t: Tenant, tid: int): Tenant {
    if t.id == tid then t.(isHoster := true) else t
  }

  /** UPDATE user_tenants SET is_default = false WHERE user_id = uid. */
  function ClearDefaults(ms: seq<Membership>, uid: string): seq<Membership> {
    seq(|ms|, i requires 0 <= i < |ms| => ClearDefault(ms[i], uid))
  }

  /** UPDATE user_tenants SET is_default = true WHERE user_id = uid AND tenant_id = tid. */
  function MarkDefaults(ms: seq<Membership>, uid: string, tid: int): seq<Membership> {
    seq(|ms|, i requires 0 <= i < |ms| => MarkDefault(ms[i], uid, tid))
  }

  /** UPDATE user_tenants SET role = role WHERE user_id = uid AND tenant_id = tid. */
  function WithRoles(ms: seq<Membership>, uid: string, tid: int, role: Role): seq<Membership> {
    seq(|ms|, i requires 0 <= i < |ms| => WithRole(ms[i], uid, tid, role))
  }

  /** UPDATE tenants SET is_hoster_tenant = false. */
  function ClearHosters(ts: seq<Tenant>): seq<Tenant> {
    seq(|ts|, i requires 0 <= i < |ts| => ClearHoster(ts[i]))
  }

  /** UPDATE tenants SET is_hoster_tenant = true WHERE id = tid. */
  function MarkHosters(ts: seq<Tenant>, tid: int): seq<Tenant> {
    seq(|ts|, i requires 0 <= i < |ts| => MarkHoster(ts[i], tid))
  }

  /** The membership table after a successful AssignUserToTenant. */
  function AssignRows(ms: seq<Membership>, uid: string, tid: int, role: Role, isDefault: bool): seq<Membership> {
    (if isDefault then ClearDefaults(ms, uid) else ms) + [Membership(uid, tid, role, isDefault)]
  }

  /** The membership table after SetUserDefaultTenant: clear, then set. */
  function DefaultRows(ms: seq<Membership>, uid: string, tid: int): seq<Membership> {
    MarkDefaults(ClearDefaults(ms, uid), uid, tid)
  }

  /** The tenant table after SetHosterTenant: clear, then set. */
  function HosterRows(ts: seq<Tenant>, tid: int): seq<Tenant> {
    MarkHosters(ClearHosters(ts), tid)
  }

  // ---------------------------------------------------------------------------
  // Invariants of the tables
  // ---------------------------------------------------------------------------

  /** No (user, tenant) pair appears twice; AssignUserToTenant's existence check keeps this. */
  predicate UniquePairs(ms: seq<Membership>) {
    forall i, j :: 0 <= i < j < |ms| ==> ms[i].userID != ms[j].userID || ms[i].tenantID != ms[j].tenantID
  }

  /** Each user has at most one default row. */
  predicate DefaultsUnique(ms: seq<Membership>) {
    forall i, j :: 0 <= i < j < |ms| && ms[i].isDefault && ms[j].isDefault ==> ms[i].userID != ms[j].userID
  }

  /** Tenant ids are distinct (the primary key). */
  predicate DistinctTenantIds(ts: seq<Tenant>) {
    forall i, j :: 0 <= i < j < |ts| ==> ts[i].id != ts[j].id
  }

  /** Two rows at different places never both satisfy p. */
  predicate AtMostOne<T(!new)>(xs: seq<T>, p: T -> bool) {
    forall i, j :: 0 <= i < j < |xs| && p(xs[i]) ==> !p(xs[j])
  }

  lemma {:induction false} FilterNone<T(!new)>(xs: seq<T>, p: T -> bool)
    requires forall x :: x in xs ==> !p(x)
    ensures Filter(xs, p) == []
  {
    if xs != [] {
      FilterNone(xs[..|xs| - 1], p);
    }
  }

  lemma {:induction false} AtMostOneFilter<T(!new)>(xs: seq<T>, p: T -> bool)
    requires AtMostOne(xs, p)
    ensures |Filter(xs, p)| <= 1
  {
    if xs != [] {
      var init := xs[..|xs| - 1];
      assert AtMostOne(init, p);
      AtMostOneFilter(init, p);
      if p(xs[|xs| - 1]) {
        forall x | x in init ensures !p(x) {
          var k :| 0 <= k < |init| && init[k] == x;
          assert xs[k] == x;
        }
        FilterNone(init, p);
      }
    }
  }

  /** At most one default row per user, whichever user is asked about. */
  lemma DefaultsUniqueCount(ms: seq<Membership>, uid: string)
    requires DefaultsUnique(ms)
    ensures |Filter(ms, DefaultOf(uid))| <= 1
  {
    AtMostOneFilter(ms, DefaultOf(uid));
  }

  /** At most one hoster when the ids are distinct and each hoster is the tenant with id tid. */
  lemma HostersAtMostOne(ts: seq<Tenant>, tid: int)
    requires DistinctTenantIds(ts)
    requires forall t :: t in ts && t.isHoster ==> t.id == tid
    ensures |Filter(ts, HosterFlag)| <= 1
  {
    assert forall i :: 0 <= i < |ts| ==> ts[i] in ts;
    AtMostOneFilter(ts, HosterFlag);
  }

  // ---------------------------------------------------------------------------
  // What each update promises
  // ---------------------------------------------------------------------------

  /**
   * After assigning with isDefault, the new row is the user's one default row;
   * every row of another user is as it was.
   */
  lemma AssignDefaultIsOnlyDefault(ms: seq<Membership>, uid: string, tid: int, role: Role)
    ensures Filter(AssignRows(ms, uid, tid, role, true), DefaultOf(uid)) == [Membership(uid, tid, role, true)]
    ensures forall i :: 0 <= i < |ms| && ms[i].userID != uid ==> AssignRows(ms, uid, tid, role, true)[i] == ms[i]
  {
    ClearedHasNoDefault(ms, uid);
    FilterAppend(ClearDefaults(ms, uid), Membership(uid, tid, role, true), DefaultOf(uid));
  }

  lemma ClearedHasNoDefault(ms: seq<Membership>, uid: string)
    ensures Filter(ClearDefaults(ms, uid), DefaultOf(uid)) == []
  {
    var c := ClearDefaults(ms, uid);
    forall x | x in c ensures !DefaultOf(uid)(x) {
      var k :| 0 <= k < |c| && c[k] == x;
    }
    FilterNone(c, DefaultOf(uid));
  }

  /** Assigning without isDefault only appends: no existing row changes. */
  lemma AssignPlainAppends(ms: seq<Membership>, uid: string, tid: int, role: Role)
    ensures AssignRows(ms, uid, tid, role, false) == ms + [Membership(uid, tid, role, false)]
    ensures Filter(AssignRows(ms, uid, tid, role, false), DefaultOf(uid)) == Filter(ms, DefaultOf(uid))
  {
    FilterAppend(ms, Membership(uid, tid, role, false), DefaultOf(uid));
  }

  /** A new pair keeps the pairs unique. */
  lemma AssignKeepsPairsUnique(ms: seq<Membership>, uid: string, tid: int, role: Role, isDefault: bool)
    requires UniquePairs(ms)
    requires forall m :: m in ms ==> !(m.userID == uid && m.tenantID == tid)
    ensures UniquePairs(AssignRows(ms, uid, tid, role, isDefault))
  {
    var r := AssignRows(ms, uid, tid, role, isDefault);
    forall i, j | 0 <= i < j < |r| ensures r[i].userID != r[j].userID || r[i].tenantID != r[j].tenantID {
      assert ms[i] in ms;
      if j < |ms| { assert ms[j] in ms; }
    }
  }

  /** Assigning keeps every user at one default row at most. */
  lemma AssignKeepsDefaultsUnique(ms: seq<Membership>, uid: string, tid: int, role: Role, isDefault: bool)
    requires DefaultsUnique(ms)
    ensures DefaultsUnique(AssignRows(ms, uid, tid, role, isDefault))
  {
  }

  /**
   * SetUserDefaultTenant: every row of the user is a default exactly when it is
   * the (user, tenant) row; no default is left when that row is missing; other
   * users' rows and every other field are unchanged.
   */
  lemma SetDefaultExact(ms: seq<Membership>, uid: string, tid: int)
    ensures |DefaultRows(ms, uid, tid)| == |ms|
    ensures forall i :: 0 <= i < |ms| && ms[i].userID == uid ==>
      DefaultRows(ms, uid, tid)[i] == ms[i].(isDefault := ms[i].tenantID == tid)
    ensures forall i :: 0 <= i < |ms| && ms[i].userID != uid ==> DefaultRows(ms, uid, tid)[i] == ms[i]
    ensures (forall m :: m in ms ==> !(m.userID == uid && m.tenantID == tid)) ==>
      Filter(DefaultRows(ms, uid, tid), DefaultOf(uid)) == []
  {
    var r := DefaultRows(ms, uid, tid);
    if forall m :: m in ms ==> !(m.userID == uid && m.tenantID == tid) {
      forall x | x in r ensures !DefaultOf(uid)(x) {
        var k :| 0 <= k < |r| && r[k] == x;
        assert ms[k] in ms;
      }
      FilterNone(r, DefaultOf(uid));
    }
  }

  /** With unique pairs, SetUserDefaultTenant leaves each user at one default at most. */
  lemma SetDefaultKeepsDefaultsUnique(ms: seq<Membership>, uid: string, tid: int)
    requires UniquePairs(ms) && DefaultsUnique(ms)
    ensures DefaultsUnique(DefaultRows(ms, uid, tid))
    ensures |Filter(DefaultRows(ms, uid, tid), DefaultOf(uid))| <= 1
  {
    var r := DefaultRows(ms, uid, tid);
    assert DefaultsUnique(r);
    DefaultsUniqueCount(r, uid);
  }

  /** UpdateUserTenantRole changes the role of the (user, tenant) row and nothing else. */
  lemma UpdateRoleExact(ms: seq<Membership>, uid: string, tid: int, role: Role)
    ensures |WithRoles(ms, uid, tid, role)| == |ms|
    ensures forall i :: 0 <= i < |ms| ==>
      WithRoles(ms, uid, tid, role)[i] == (if ms[i].userID == uid && ms[i].tenantID == tid then ms[i].(role := role) else ms[i])
    ensures DefaultsUnique(ms) ==> DefaultsUnique(WithRoles(ms, uid, tid, role))
  {
  }

  /** RemoveUserFromTenant keeps exactly the rows of other pairs, in order. */
  lemma RemoveExact(ms: seq<Membership>, uid: string, tid: int)
    ensures forall m :: m in Filter(ms, NotPairOf(uid, tid)) <==> m in ms && !(m.userID == uid && m.tenantID == tid)
    ensures forall m :: m in Filter(ms, NotPairOf(uid, tid)) ==> !PairOf(uid, tid)(m)
  {
  }

  /**
   * SetHosterTenant: afterwards the hosters are exactly the tenants with id tid;
   * with distinct ids there is one if that tenant exists and none otherwise.
   * No other field of any tenant changes.
   */
  lemma SetHosterExact(ts: seq<Tenant>, tid: int)
    ensures |HosterRows(ts, tid)| == |ts|
    ensures forall i :: 0 <= i < |ts| ==> HosterRows(ts, tid)[i] == ts[i].(isHoster := ts[i].id == tid)
    ensures DistinctTenantIds(ts) && (exists t :: t in ts && t.id == tid) ==> |Filter(HosterRows(ts, tid), HosterFlag)| == 1
    ensures (forall t :: t in ts ==> t.id != tid) ==> Filter(HosterRows(ts, tid), HosterFlag) == []
  {
    var r := HosterRows(ts, tid);
    HosterRowsFlags(ts, tid);
    if DistinctTenantIds(ts) && (exists t :: t in ts && t.id == tid) {
      OneHoster(ts, tid);
    }
    if forall t :: t in ts ==> t.id != tid {
      FilterNone(r, HosterFlag);
    }
  }

  lemma HosterRowsFlags(ts: seq<Tenant>, tid: int)
    ensures forall t :: t in HosterRows(ts, tid) ==> t.isHoster == (t.id == tid)
  {
    var r := HosterRows(ts, tid);
    forall t | t in r ensures t.isHoster == (t.id == tid) {
      var k :| 0 <= k < |r| && r[k] == t;
    }
  }

  lemma OneHoster(ts: seq<Tenant>, tid: int)
    requires DistinctTenantIds(ts) && exists t :: t in ts && t.id == tid
    ensures |Filter(HosterRows(ts, tid), HosterFlag)| == 1
  {
    var r := HosterRows(ts, tid);
    HosterRowsFlags(ts, tid);
    assert DistinctTenantIds(r);
    HostersAtMostOne(r, tid);
    var t :| t in ts && t.id == tid;
    var k :| 0 <= k < |ts| && ts[k] == t;
    assert r[k] in r && HosterFlag(r[k]);
    assert r[k] in Filter(r, HosterFlag);
  }

  // ---------------------------------------------------------------------------
  // The store
  // ---------------------------------------------------------------------------

  class TenantStore {
    var memberships: seq<Membership>
    var tenants: seq<Tenant>
    var users: seq<UserRecord>

    constructor(ms: seq<Membership>, ts: seq<Tenant>, us: seq<UserRecord>)
      ensures memberships == ms && tenants == ts && users == us
    {
      memberships := ms;
      tenants := ts;
      users := us;
    }

    // ---- queries ----------------------------------------------------------

    /** UserHasAccessToTenant: a (user, tenant) row exists, whatever its role. */
    function UserHasAccessToTenant(uid: string, tid: int): (r: bool)
      reads this
      ensures r <==> exists m :: m in memberships && m.userID == uid && m.tenantID == tid
    {
      var rows := Filter(memberships, PairOf(uid, tid));
      if rows == [] then false
      else
        assert rows[0] in rows;
        true
    }

    /** GetUserRoleInTenant: Only() on the (user, tenant) rows. */
    function GetUserRoleInTenant(uid: string, tid: int): (r: Result<Role, StoreError>)
      reads this
      ensures r == Err(NotFound) <==> !UserHasAccessToTenant(uid, tid)
      ensures r.Ok? <==> |Filter(memberships, PairOf(uid, tid))| == 1
      ensures r.Ok? ==> exists m :: m in memberships && m.userID == uid && m.tenantID == tid && m.role == r.value
      ensures r.Err? ==> r.error == NotFound || r.error == NotSingular
    {
      var rows := Filter(memberships, PairOf(uid, tid));
      match Only(rows)
      case Ok(m) =>
        assert m in rows;
        Ok(m.role)
      case Err(e) =>
        assert rows != [] ==> rows[0] in rows;
        Err(e)
    }

    /** IsUserTenantAdmin: the role lookup's error is passed on, never turned into false. */
    function IsUserTenantAdmin(uid: string, tid: int): (r: Result<bool, StoreError>)
      reads this
      ensures !UserHasAccessToTenant(uid, tid) ==> r == Err(NotFound)
      ensures r.Ok? <==> GetUserRoleInTenant(uid, tid).Ok?
      ensures r.Ok? ==> (r.value <==> GetUserRoleInTenant(uid, tid) == Ok(Admin))
    {
      match GetUserRoleInTenant(uid, tid)
      case Ok(role) => Ok(role == Admin)
      case Err(e) => Err(e)
    }

    /** GetHosterTenant: Only() on the tenants flagged as hoster. */
    function GetHosterTenant(): (r: Result<Tenant, StoreError>)
      reads this
      ensures r.Ok? <==> |Filter(tenants, HosterFlag)| == 1
      ensures r.Ok? ==> r.value in tenants && r.value.isHoster
      ensures r == Err(NotFound) <==> forall t :: t in tenants ==> !t.isHoster
    {
      var hs := Filter(tenants, HosterFlag);
      assert hs != [] ==> hs[0] in hs;
      Only(hs)
    }

    /** IsHosterTenant: Only() on the tenant with that id. */
    function IsHosterTenant(tid: int): (r: Result<bool, StoreError>)
      reads this
      ensures r.Ok? <==> |Filter(tenants, TenantIdIs(tid))| == 1
      ensures r.Ok? ==> exists t :: t in tenants && t.id == tid && t.isHoster == r.value
      ensures r == Err(NotFound) <==> forall t :: t in tenants ==> t.id != tid
    {
      var found := Filter(tenants, TenantIdIs(tid));
      assert found != [] ==> found[0] in found;
      match Only(found)
      case Ok(t) => Ok(t.isHoster)
      case Err(e) => Err(e)
    }

    /**
     * IsSuperAdmin. With a unique hoster tenant: the admin role there (a
     * non-member is false, not an error). Without one (no hoster, or several):
     * the legacy flag of the user, found with Only().
     */
    function IsSuperAdmin(uid: string): (r: Result<bool, StoreError>)
      reads this
      ensures GetHosterTenant().Ok? ==> r == Ok(GetUserRoleInTenant(uid, GetHosterTenant().value.id) == Ok(Admin))
      ensures GetHosterTenant().Ok? && !UserHasAccessToTenant(uid, GetHosterTenant().value.id) ==> r == Ok(false)
      ensures GetHosterTenant().Err? && |Filter(users, UserIdIs(uid))| == 1 ==>
        r == Ok(Filter(users, UserIdIs(uid))[0].isSuperAdmin)
      ensures GetHosterTenant().Err? && (forall u :: u in users ==> u.id != uid) ==> r == Err(NotFound)
      ensures GetHosterTenant().Err? && |Filter(users, UserIdIs(uid))| > 1 ==> r == Err(NotSingular)
    {
      match GetHosterTenant()
      case Err(_) =>
        var found := Filter(users, UserIdIs(uid));
        assert found != [] ==> found[0] in found;
        (match Only(found)
         case Ok(u) => Ok(u.isSuperAdmin)
         case Err(e) => Err(e))
      case Ok(h) =>
        match GetUserRoleInTenant(uid, h.id)
        case Err(_) => Ok(false)
        case Ok(role) => Ok(role == Admin)
    }

    /**
     * GetUserDefaultTenant, as the id of the tenant it returns: the user's
     * unique default row, else the user's first row, else NotFound.
     */
    function GetUserDefaultTenant(uid: string): (r: Result<int, StoreError>)
      reads this
      ensures |Filter(memberships, DefaultOf(uid))| == 1 ==> r == Ok(Filter(memberships, DefaultOf(uid))[0].tenantID)
      ensures |Filter(memberships, DefaultOf(uid))| != 1 && Filter(memberships, UserOf(uid)) != [] ==>
        r == Ok(Filter(memberships, UserOf(uid))[0].tenantID)
      ensures r.Err? <==> forall m :: m in memberships ==> m.userID != uid
      ensures r.Err? ==> r.error == NotFound
      ensures r.Ok? ==> UserHasAccessToTenant(uid, r.value)
    {
      var defaults := Filter(memberships, DefaultOf(uid));
      var rows := Filter(memberships, UserOf(uid));
      assert defaults != [] ==> defaults[0] in defaults;
      assert rows != [] ==> rows[0] in rows;
      match Only(defaults)
      case Ok(m) => Ok(m.tenantID)
      case Err(_) =>
        match First(rows)
        case Ok(m) => Ok(m.tenantID)
        case Err(e) => Err(e)
    }

    // ---- list queries -----------------------------------------------------

    /** GetUserTenants: the loaded tenant of each of the user's rows, in row order. */
    method GetUserTenants(uid: string) returns (r: seq<Tenant>)
      ensures r == TenantsOfRows(Filter(memberships, UserOf(uid)), tenants)
      ensures forall t :: t in r <==> exists m :: m in memberships && m.userID == uid && TenantById(tenants, m.tenantID) == Some(t)
    {
      r := [];
      var i := 0;
      while i < |memberships|
        invariant 0 <= i <= |memberships|
        invariant r == TenantsOfRows(Filter(memberships[..i], UserOf(uid)), tenants)
      {
        var m := memberships[i];
        TenantRowsStep(memberships, i, UserOf(uid), tenants);
        if m.userID == uid {
          match TenantById(tenants, m.tenantID) {
            case Some(t) => r := r + [t];
            case None =>
          }
        }
        i := i + 1;
      }
      assert memberships[..i] == memberships;
      TenantsOfRowsMembers(Filter(memberships, UserOf(uid)), tenants);
    }

    /** GetTenantsWhereUserIsAdmin: the loaded tenant of each of the user's admin rows, in row order. */
    method GetTenantsWhereUserIsAdmin(uid: string) returns (r: seq<Tenant>)
      ensures r == TenantsOfRows(Filter(memberships, AdminOf(uid)), tenants)
      ensures forall t :: t in r <==>
        exists m :: m in memberships && m.userID == uid && m.role == Admin && TenantById(tenants, m.tenantID) == Some(t)
    {
      r := [];
      var i := 0;
      while i < |memberships|
        invariant 0 <= i <= |memberships|
        invariant r == TenantsOfRows(Filter(memberships[..i], AdminOf(uid)), tenants)
      {
        var m := memberships[i];
        TenantRowsStep(memberships, i, AdminOf(uid), tenants);
        if m.userID == uid && m.role == Admin {
          match TenantById(tenants, m.tenantID) {
            case Some(t) => r := r + [t];
            case None =>
          }
        }
        i := i + 1;
      }
      assert memberships[..i] == memberships;
      TenantsOfRowsMembers(Filter(memberships, AdminOf(uid)), tenants);
    }

    /** GetTenantUsers: the loaded user of each row of the tenant, in row order. */
    method GetTenantUsers(tid: int) returns (r: seq<UserRecord>)
      ensures r == UsersOfRows(Filter(memberships, InTenant(tid)), users)
      ensures forall u :: u in r <==> exists m :: m in memberships && m.tenantID == tid && UserById(users, m.userID) == Some(u)
    {
      r := [];
      var i := 0;
      while i < |memberships|
        invariant 0 <= i <= |memberships|
        invariant r == UsersOfRows(Filter(memberships[..i], InTenant(tid)), users)
      {
        var m := memberships[i];
        UserRowsStep(memberships, i, InTenant(tid), users);
        if m.tenantID == tid {
          match UserById(users, m.userID) {
            case Some(u) => r := r + [u];
            case None =>
          }
        }
        i := i + 1;
      }
      assert memberships[..i] == memberships;
      UsersOfRowsMembers(Filter(memberships, InTenant(tid)), users);
    }

    /**
     * GetUsersNotInTenant: the ids of the tenant's rows, then every user whose
     * id is not among them, in table order (with no rows, every user).
     */
    method GetUsersNotInTenant(tid: int) returns (r: seq<UserRecord>)
      ensures r == Filter(users, IdNotIn(UserIdsOf(Filter(memberships, InTenant(tid)))))
      ensures forall u :: u in r <==> u in users && !exists m :: m in memberships && m.tenantID == tid && m.userID == u.id
    {
      var ids := TenantUserIds(tid);
      r := UsersNotIn(ids);
      UserIdsOfMembers(Filter(memberships, InTenant(tid)));
    }

    /** The user id of each row of the tenant, in row order. */
    method TenantUserIds(tid: int) returns (ids: seq<string>)
      ensures ids == UserIdsOf(Filter(memberships, InTenant(tid)))
    {
      ids := [];
      var i := 0;
      while i < |memberships|
        invariant 0 <= i <= |memberships|
        invariant ids == UserIdsOf(Filter(memberships[..i], InTenant(tid)))
      {
        var m := memberships[i];
        UserIdsStep(memberships, i, InTenant(tid));
        if m.tenantID == tid {
          ids := ids + [m.userID];
        }
        i := i + 1;
      }
      assert memberships[..i] == memberships;
    }

    /** The users whose id is not in `ids`, in table order. */
    method UsersNotIn(ids: seq<string>) returns (r: seq<UserRecord>)
      ensures r == Filter(users, IdNotIn(ids))
    {
      r := [];
      var j := 0;
      while j < |users|
        invariant 0 <= j <= |users|
        invariant r == Filter(users[..j], IdNotIn(ids))
      {
        var u := users[j];
        FilterStep(users, j, IdNotIn(ids));
        if u.id !in ids {
          r := r + [u];
        }
        j := j + 1;
      }
      assert users[..j] == users;
    }

    // ---- updates ----------------------------------------------------------

    /** The bulk update clearing every default flag of the user (lines 39-45 and 80-86). */
    method ClearUserDefaults(uid: string)
      modifies this
      ensures memberships == ClearDefaults(old(memberships), uid)
      ensures tenants == old(tenants) && users == old(users)
    {
      var out: seq<Membership> := [];
      var i := 0;
      while i < |memberships|
        invariant 0 <= i <= |memberships|
        invariant |out| == i
        invariant forall k :: 0 <= k < i ==> out[k] == ClearDefault(memberships[k], uid)
      {
        out := out + [ClearDefault(memberships[i], uid)];
        i := i + 1;
      }
      memberships := out;
    }

    /** AssignUserToTenant: refused, changing nothing, when the pair exists; otherwise clear defaults if asked, then add the row. */
    method AssignUserToTenant(uid: string, tid: int, role: Role, isDefault: bool) returns (err: Option<StoreError>)
      modifies this
      ensures old(UserHasAccessToTenant(uid, tid)) ==>
        err == Some(AlreadyAssigned(uid, tid)) && memberships == old(memberships)
      ensures !old(UserHasAccessToTenant(uid, tid)) ==>
        err == None && memberships == AssignRows(old(memberships), uid, tid, role, isDefault)
      ensures tenants == old(tenants) && users == old(users)
    {
      if UserHasAccessToTenant(uid, tid) {
        return Some(AlreadyAssigned(uid, tid));
      }
      if isDefault {
        ClearUserDefaults(uid);
      }
      memberships := memberships + [Membership(uid, tid, role, isDefault)];
      err := None;
    }

    /** RemoveUserFromTenant: delete the (user, tenant) rows. */
    method RemoveUserFromTenant(uid: string, tid: int)
      modifies this
      ensures memberships == Filter(old(memberships), NotPairOf(uid, tid))
      ensures tenants == old(tenants) && users == old(users)
    {
      var ms := memberships;
      var out: seq<Membership> := [];
      var i := 0;
      while i < |ms|
        invariant 0 <= i <= |ms|
        invariant out == Filter(ms[..i], NotPairOf(uid, tid))
        invariant memberships == ms && tenants == old(tenants) && users == old(users)
      {
        var m := ms[i];
        FilterStep(ms, i, NotPairOf(uid, tid));
        if !(m.userID == uid && m.tenantID == tid) {
          out := out + [m];
        }
        i := i + 1;
      }
      assert ms[..i] == ms;
      memberships := out;
    }

    /** UpdateUserTenantRole: set the role of the (user, tenant) rows. */
    method UpdateUserTenantRole(uid: string, tid: int, role: Role)
      modifies this
      ensures memberships == WithRoles(old(memberships), uid, tid, role)
      ensures tenants == old(tenants) && users == old(users)
    {
      var out: seq<Membership> := [];
      var i := 0;
      while i < |memberships|
        invariant 0 <= i <= |memberships|
        invariant |out| == i
        invariant forall k :: 0 <= k < i ==> out[k] == WithRole(memberships[k], uid, tid, role)
      {
        out := out + [WithRole(memberships[i], uid, tid, role)];
        i := i + 1;
      }
      memberships := out;
    }

    /** SetUserDefaultTenant: clear every default of the user, then set the (user, tenant) row. */
    method SetUserDefaultTenant(uid: string, tid: int)
      modifies this
      ensures memberships == DefaultRows(old(memberships), uid, tid)
      ensures tenants == old(tenants) && users == old(users)
    {
      ClearUserDefaults(uid);
      var out: seq<Membership> := [];
      var i := 0;
      while i < |memberships|
        invariant 0 <= i <= |memberships|
        invariant |out| == i
        invariant forall k :: 0 <= k < i ==> out[k] == MarkDefault(memberships[k], uid, tid)
      {
        out := out + [MarkDefault(memberships[i], uid, tid)];
        i := i + 1;
      }
      memberships := out;
    }

    /** SetHosterTenant: clear the hoster flag of every tenant, then set it on the tenant with that id. */
    method SetHosterTenant(tid: int)
      modifies this
      ensures tenants == HosterRows(old(tenants), tid)
      ensures memberships == old(memberships) && users == old(users)
    {
      var cleared: seq<Tenant> := [];
      var i := 0;
      while i < |tenants|
        invariant 0 <= i <= |tenants|
        invariant |cleared| == i
        invariant forall k :: 0 <= k < i ==> cleared[k] == ClearHoster(tenants[k])
      {
        cleared := cleared + [ClearHoster(tenants[i])];
        i := i + 1;
      }
      tenants := cleared;
      var marked: seq<Tenant> := [];
      i := 0;
      while i < |tenants|
        invariant 0 <= i <= |tenants|
        invariant |marked| == i
        invariant forall k :: 0 <= k < i ==> marked[k] == MarkHoster(tenants[k], tid)
      {
        marked := marked + [MarkHoster(tenants[i], tid)];
        i := i + 1;
      }
      tenants := marked;
    }

    /**
     * EnsureHosterTenantExists: nothing to do when some tenant is a hoster;
     * otherwise the default tenant becomes the hoster. `defaultTenant` is the
     * result of the store's GetDefaultTenant, which is not part of this model.
     */
    method EnsureHosterTenantExists(defaultTenant: Result<int, StoreError>) returns (err: Option<StoreError>)
      modifies this
      ensures old(exists t :: t in tenants && t.isHoster) ==> err == None && tenants == old(tenants)
      ensures !old(exists t :: t in tenants && t.isHoster) && defaultTenant.Err? ==>
        err == Some(defaultTenant.error) && tenants == old(tenants)
      ensures !old(exists t :: t in tenants && t.isHoster) && defaultTenant.Ok? ==>
        err == None && tenants == HosterRows(old(tenants), defaultTenant.value)
      ensures memberships == old(memberships) && users == old(users)
    {
      var hs := Filter(tenants, HosterFlag);
      if hs != [] {
        assert hs[0] in hs;
        return None;
      }
      match defaultTenant {
        case Err(e) => err := Some(e);
        case Ok(id) =>
          SetHosterTenant(id);
          err := None;
      }
    }
  }
}
