/** scripts/apply_migration_0018.py: what one reading of the catalog holds, what a first apply requires
    of it, and what the post-checks accept after service_role was narrowed. */
module Route0018 {
  import opened Options
  import opened Rows
  import opened Policies
  import opened Grants
  import opened RoleChecks
  import opened CommonChecks
  import opened ApplyProtocol
  import opened Filters
  import FunctionOwner

  const SERVICE_EXECUTE := "service_role=EXECUTE"
  const SERVICE_ROLE_KEPT: seq<Privilege> := [SELECT]
  const CORE_TABLES: seq<string> := [
    "analysis_run_details", "analysis_runs", "prediction_derivatives_snapshots", "prediction_feature_snapshots",
    "prediction_outcomes", "predictions"]
  const BUNDLE := "save_prediction_bundle"
  const FORECAST := "save_forecast_bundle"

  /** The rest of a list of `jsonb`s, each after this separator. */
  function More(n: nat, separator: string): string {
    if n == 0 then ")" else separator + "jsonb" + More(n - 1, separator)
  }

  /** `name(jsonb, jsonb, jsonb)`, for three arguments and ", ". */
  function Signature(name: string, arguments: nat, separator: string): string
    requires arguments > 0
  {
    name + "(jsonb" + More(arguments - 1, separator)
  }

  const BUNDLE_FUNCTIONS: seq<string> := [Signature(FORECAST, 5, ","), Signature(BUNDLE, 3, ",")]
  const LOGIN_ROLES: seq<string> := [RESOLVER, SPACE_DB]

  // ------------------------------------------------------------------ one reading

  datatype InventoryKind = T | C | O | F | V | R | G | K

  datatype Surface = Surface(kind: InventoryKind, object_: string, detail: string)

  /** `inventory`: the surfaces of every kind, kind after kind. */
  datatype Reading = Reading(
    server: seq<Value>,
    roles: seq<RoleRow>,
    memberships: seq<Membership>,
    grants: seq<GrantRow>,
    sequenceGrants: seq<GrantRow>,
    schema: seq<SchemaRow>,
    schemaGrants: seq<SchemaGrant>,
    policies: seq<PolicyRow>,
    function_: seq<FunctionRow>,
    forecast: seq<FunctionRow>,
    otherFunctions: seq<Named>,
    security: seq<Security>,
    fingerprint: seq<Named>,
    eventTriggers: seq<Named>,
    inventory: seq<Surface>)

  /** The two bodies, read from the migration files. */
  datatype Bodies = Bodies(function_: string, forecast: string)

  // ------------------------------------------------------------------ already applied

  function TableOfRow(row: Security): string {
    row.table
  }

  /** {row["table"]: row["service_role"]}.get(table) */
  function ServiceHolds(rows: seq<Security>, table: string): Option<seq<Privilege>> {
    var found := ByKey(rows, TableOfRow);
    if table in found then Some(found[table].serviceRole) else None
  }

  predicate OnlySelectOnCore(rows: seq<Security>) {
    forall table :: table in CORE_TABLES ==> ServiceHolds(rows, table) == Some(SERVICE_ROLE_KEPT)
  }

  predicate AlreadyApplied(r: Reading) {
    && OnlySelectOnCore(r.security)
    && |r.function_ + r.forecast| == 2
    && (forall row :: row in r.function_ + r.forecast ==> row.acl.Some? && SERVICE_EXECUTE !in row.acl.value)
    && r.inventory == []
  }

  // ------------------------------------------------------------------ what a first apply requires

  /** `service_role_before` */
  function ServiceRoleBefore(version: int, table: string): seq<Privilege> {
    if table == "analysis_run_details" then [INSERT, SELECT, UPDATE]
    else if table == "prediction_derivatives_snapshots" then [INSERT, SELECT]
    else if version >= 170000 then [DELETE, INSERT, MAINTAIN, REFERENCES, SELECT, TRIGGER, TRUNCATE, UPDATE]
    else [DELETE, INSERT, REFERENCES, SELECT, TRIGGER, TRUNCATE, UPDATE]
  }

  predicate ServiceRoleReady(rows: seq<Security>, version: int) {
    forall table :: table in CORE_TABLES ==> ServiceHolds(rows, table) == Some(ServiceRoleBefore(version, table))
  }

  function Text(p: Privilege): string {
    match p
    case DELETE => "DELETE" case EXECUTE => "EXECUTE" case INSERT => "INSERT" case MAINTAIN => "MAINTAIN"
    case REFERENCES => "REFERENCES" case SELECT => "SELECT" case TRIGGER => "TRIGGER" case TRUNCATE => "TRUNCATE"
    case UPDATE => "UPDATE" case USAGE => "USAGE"
  }

  /** name.replace(", ", ",") */
  function Unspaced(s: string): string {
    if s == [] then []
    else if |s| >= 2 && s[0] == ',' && s[1] == ' ' then "," + Unspaced(s[2..])
    else [s[0]] + Unspaced(s[1..])
  }

  /** D6's revoke set covers the surface. */
  predicate Covered(s: Surface) {
    || ((s.kind.T? || s.kind.C?) && s.object_ in CORE_TABLES)
    || (s.kind.F? && "public." <= s.object_ && Unspaced(s.object_[|"public."|..]) in BUNDLE_FUNCTIONS)
  }

  function SurfacesOf(inventory: seq<Surface>, kind: InventoryKind): set<(string, string)> {
    set s | s in inventory && s.kind == kind :: (s.object_, s.detail)
  }

  /** What service_role holds on the core tables beyond SELECT. */
  function TableSurfacesBefore(version: int): set<(string, string)> {
    set table, p | table in CORE_TABLES && p in ServiceRoleBefore(version, table) && p !in SERVICE_ROLE_KEPT :: (table, Text(p))
  }

  function FunctionSurfacesBefore(): set<(string, string)> {
    {("public." + Signature(BUNDLE, 3, ", "), BUNDLE_OWNER), ("public." + Signature(FORECAST, 5, ", "), BUNDLE_OWNER)}
  }

  predicate InventoryReady(inventory: seq<Surface>, version: int) {
    && (forall s :: s in inventory ==> Covered(s))
    && SurfacesOf(inventory, T) == TableSurfacesBefore(version)
    && SurfacesOf(inventory, F) == FunctionSurfacesBefore()
  }

  /** `pre_check_failures` finds nothing. */
  predicate PrePasses(r: Reading, bodies: Bodies) {
    && !AlreadyApplied(r)
    && ServerReady(r.server)
    && RolesReady(r.roles, LOGIN_ROLES)
    && MembershipsReady(r.memberships, r.roles)
    && HoldBoth(r.grants, r.sequenceGrants, EXPECTED_GRANTS)
    && SchemaGrantsReady(r.schemaGrants)
    && PoliciesReady(r.policies, PoliciesOf(EXPECTED_GRANTS))
    && FunctionReady(r.function_, FunctionOwner.FUNCTION_ARGUMENTS, bodies.function_)
    && FunctionReady(r.forecast, FORECAST_ARGUMENTS, bodies.forecast)
    && SchemaRead(r.schema)
    && TablesReady(r.security, TABLES)
    && ServiceRoleReady(r.security, ServerVersion(r.server).value)
    && InventoryReady(r.inventory, ServerVersion(r.server).value)
  }

  // ------------------------------------------------------------------ what the post-checks accept

  /** Every entry but service_role's EXECUTE, in order. */
  function Revoked(entries: seq<string>): seq<string> {
    if entries == [] then []
    else
      var last := entries[|entries| - 1];
      Revoked(entries[..|entries| - 1]) + if last == SERVICE_EXECUTE then [] else [last]
  }

  predicate OfAnother(entry: string) {
    entry != "service_role=EXECUTE"
  }

  lemma {:induction false} RevokedIsFiltered(entries: seq<string>)
    ensures Filtered(entries, Revoked(entries), OfAnother)
  {
    hide Filtered;
    if entries == [] {
      NothingFiltered(OfAnother);
    } else {
      var before, last := entries[..|entries| - 1], entries[|entries| - 1];
      var left := Revoked(before);
      RevokedIsFiltered(before);
      OneMoreFiltered(before, left, OfAnother, last);
      assert Revoked(entries) == if OfAnother(last) then left + [last] else left;
      hide Revoked;
      assert entries == before + [last];
    }
  }

  /** MAIN: what is left of an EXECUTE list is its entries but service_role's, every one, from left to right. */
  lemma RevokedExactly(entries: seq<string>, left: seq<string>)
    ensures Filtered(entries, left, OfAnother) <==> left == Revoked(entries)
  {
    RevokedIsFiltered(entries);
    if Filtered(entries, left, OfAnother) {
      OneFiltering(entries, left, Revoked(entries), OfAnother);
    }
  }

  /** One function each time, the same but for its EXECUTE list, which has lost service_role's entry. */
  ghost predicate ExecuteRevoked(pre: seq<FunctionRow>, post: seq<FunctionRow>) {
    && |pre| == 1 && |post| == 1
    && post[0] == pre[0].(acl := post[0].acl)
    && post[0].acl.Some? && Filtered(EntriesOf(pre[0].acl), post[0].acl.value, OfAnother)
  }

  method RevokedEntries(entries: seq<string>) returns (wanted: seq<string>)
    ensures wanted == Revoked(entries)
  {
    wanted := [];
    for i := 0 to |entries|
      invariant wanted == Revoked(entries[..i])
    {
      if entries[i] != SERVICE_EXECUTE {
        wanted := wanted + [entries[i]];
      }
      assert entries[..i + 1][..i] == entries[..i];
    }
    assert entries[..|entries|] == entries;
  }

  method RevokedExecuteFailures(reference: string, pre: seq<FunctionRow>, post: seq<FunctionRow>) returns (failures: seq<Failure>)
    ensures failures == [] <==> ExecuteRevoked(pre, post)
  {
    if |post| != 1 {
      return [Failure(reference, Null, if post == [] then Missing else Repeated)];
    }
    if |pre| != 1 {
      return [Failure(reference, Null, Unreadable)];
    }
    var before, after := pre[0], post[0];
    failures := ChangedFields(reference, before, after);
    var wanted := RevokedEntries(EntriesOf(before.acl));
    if after.acl.Some? {
      RevokedExactly(EntriesOf(before.acl), after.acl.value);
    }
    hide Revoked, Filtered;
    if after.acl == None || after.acl.value != wanted {
      failures := failures + [Failure(reference, Value.Text("acl"), Wrong)];
    }
  }

  function WithoutCoreService(rows: seq<Security>): seq<Security> {
    seq(|rows|, i requires 0 <= i < |rows| =>
      if rows[i].table in CORE_TABLES then rows[i].(serviceRole := []) else rows[i])
  }

  predicate ServiceNarrowed(pre: seq<Security>, post: seq<Security>) {
    WithoutCoreService(post) == WithoutCoreService(pre) && OnlySelectOnCore(post)
  }

  method SecurityPostCheckFailures(pre: seq<Security>, post: seq<Security>) returns (failures: seq<Failure>)
    ensures failures == [] <==> ServiceNarrowed(pre, post)
  {
    failures := UnchangedFailures("security of table", (row: Security) => Value.Text(row.table), WithoutCoreService(pre),
                                  WithoutCoreService(post));
    ghost var same := WithoutCoreService(post) == WithoutCoreService(pre);
    for i := 0 to |CORE_TABLES|
      invariant failures == [] <==>
        same && forall k :: 0 <= k < i ==> ServiceHolds(post, CORE_TABLES[k]) == Some(SERVICE_ROLE_KEPT)
    {
      if ServiceHolds(post, CORE_TABLES[i]) != Some(SERVICE_ROLE_KEPT) {
        failures := failures + [Failure("service_role", Value.Text(CORE_TABLES[i]), Wrong)];
      }
    }
  }

  method InventoryPostCheckFailures(inventory: seq<Surface>) returns (failures: seq<Failure>)
    ensures failures == [] <==> inventory == []
    ensures |failures| == |inventory|
  {
    failures := [];
    for i := 0 to |inventory|
      invariant |failures| == i
    {
      failures := failures + [Failure("inventory", List([Value.Text(inventory[i].object_), Value.Text(inventory[i].detail)]), Appeared)];
    }
  }

  predicate UnchangedParts(pre: Reading, post: Reading) {
    && post.server == pre.server && post.roles == pre.roles && post.memberships == pre.memberships
    && post.schema == pre.schema && post.schemaGrants == pre.schemaGrants && post.policies == pre.policies
    && post.otherFunctions == pre.otherFunctions && post.fingerprint == pre.fingerprint
    && post.eventTriggers == pre.eventTriggers
  }

  /** `post_check_failures` finds nothing. */
  ghost predicate PostPasses(pre: Reading, post: Reading) {
    && UnchangedParts(pre, post)
    && HoldBoth(post.grants, post.sequenceGrants, EXPECTED_GRANTS)
    && ExecuteRevoked(pre.function_, post.function_)
    && ExecuteRevoked(pre.forecast, post.forecast)
    && ServiceNarrowed(pre.security, post.security)
    && post.inventory == []
  }

  method PostCheckFailures(pre: Reading, post: Reading) returns (failures: seq<Failure>)
    ensures failures == [] <==> PostPasses(pre, post)
  {
    hide HoldExactly, ExecuteRevoked, ServiceNarrowed;
    var fixed := FixedPartsFailures(pre, post);
    var memberships := MembershipsUnchangedFailures(pre.memberships, post.memberships);
    var grants := BothGrantsFailures(post.grants, post.sequenceGrants, EXPECTED_GRANTS);
    var bundle := RevokedExecuteFailures("public.save_prediction_bundle", pre.function_, post.function_);
    var forecast := RevokedExecuteFailures("public.save_forecast_bundle", pre.forecast, post.forecast);
    var security := SecurityPostCheckFailures(pre.security, post.security);
    var inventory := InventoryPostCheckFailures(post.inventory);
    failures := fixed + memberships + grants + bundle + forecast + security + inventory;
  }

  /** The readings that must not change at all; the memberships are compared apart. */
  method FixedPartsFailures(pre: Reading, post: Reading) returns (failures: seq<Failure>)
    ensures failures == [] && post.memberships == pre.memberships <==> UnchangedParts(pre, post)
  {
    var server := UnchangedFailures("server", (v: Value) => v, pre.server, post.server);
    var roles := UnchangedFailures("role", (row: RoleRow) => Value.Text(row.role), pre.roles, post.roles);
    var schema := UnchangedFailures("schema", (row: SchemaRow) => Value.Text(row.schema), pre.schema, post.schema);
    var rights := UnchangedFailures("schema right of", (row: SchemaGrant) => Value.Text(row.role), pre.schemaGrants, post.schemaGrants);
    var policies := UnchangedFailures("policy", (row: PolicyRow) => Value.Text(row.item), pre.policies, post.policies);
    var others := UnchangedFailures("function", (row: Named) => Value.Text(row.name), pre.otherFunctions, post.otherFunctions);
    var items := UnchangedFailures("schema item", (row: Named) => Value.Text(row.name), pre.fingerprint, post.fingerprint);
    var events := UnchangedFailures("event trigger", (row: Named) => Value.Text(row.name), pre.eventTriggers, post.eventTriggers);
    failures := server + roles + schema + rights + policies + others + items + events;
  }

  // ------------------------------------------------------------------ the post-check is exact

  /** What 0018 is for: SELECT only on the core tables, EXECUTE on neither function, nothing else. */
  function Narrowed(rows: seq<Security>): seq<Security> {
    seq(|rows|, i requires 0 <= i < |rows| =>
      if rows[i].table in CORE_TABLES then rows[i].(serviceRole := SERVICE_ROLE_KEPT) else rows[i])
  }

  function WithoutServiceExecute(row: FunctionRow): FunctionRow {
    row.(acl := Some(Revoked(EntriesOf(row.acl))))
  }

  function Intended(pre: Reading): Reading
    requires |pre.function_| == 1 && |pre.forecast| == 1
  {
    pre.(function_ := [WithoutServiceExecute(pre.function_[0])],
         forecast := [WithoutServiceExecute(pre.forecast[0])],
         security := Narrowed(pre.security),
         inventory := [])
  }

  lemma CoreTablesAreRead(t: seq<string>, c: seq<string>)
    requires t == TABLES && c == CORE_TABLES
    ensures Distinct(t) && forall k :: 0 <= k < |c| ==> c[k] in t
  {
    assert c[0] == t[0] && c[1] == t[1] && c[2] == t[9] && c[3] == t[10] && c[4] == t[11] && c[5] == t[13];
  }

  lemma HeldByItsRow(rows: seq<Security>, i: nat)
    requires Distinct(Tables(rows)) && i < |rows|
    ensures ServiceHolds(rows, rows[i].table) == Some(rows[i].serviceRole)
  {
    KeysOf(rows, TableOfRow, rows[i].table);
    var row := ByKey(rows, TableOfRow)[rows[i].table];
    var k :| 0 <= k < |rows| && rows[k] == row;
    assert Tables(rows)[k] == Tables(rows)[i];
  }

  /** Read row by row: the narrowing and nothing else. */
  lemma NarrowedExactly(pre: seq<Security>, post: seq<Security>)
    requires Tables(pre) == TABLES
    ensures ServiceNarrowed(pre, post) <==> post == Narrowed(pre)
  {
    CoreTablesAreRead(TABLES, CORE_TABLES);
    hide ServiceHolds;
    if ServiceNarrowed(pre, post) {
      SameTables(pre, post);
      forall i | 0 <= i < |pre| ensures post[i] == Narrowed(pre)[i] {
        assert WithoutCoreService(post)[i] == WithoutCoreService(pre)[i];
        HeldByItsRow(post, i);
      }
    }
    if post == Narrowed(pre) {
      assert Tables(post) == Tables(pre);
      assert WithoutCoreService(post) == WithoutCoreService(pre);
      forall table | table in CORE_TABLES ensures ServiceHolds(post, table) == Some(SERVICE_ROLE_KEPT) {
        var k :| 0 <= k < |CORE_TABLES| && CORE_TABLES[k] == table;
        assert table in Tables(post);
        var i :| 0 <= i < |post| && Tables(post)[i] == table;
        HeldByItsRow(post, i);
      }
    }
  }

  lemma SameTables(pre: seq<Security>, post: seq<Security>)
    requires WithoutCoreService(post) == WithoutCoreService(pre)
    ensures |post| == |pre| && Tables(post) == Tables(pre)
  {
    assert |WithoutCoreService(post)| == |WithoutCoreService(pre)|;
    forall i | 0 <= i < |pre| ensures post[i].table == pre[i].table {
      assert WithoutCoreService(post)[i] == WithoutCoreService(pre)[i];
    }
  }

  /** What 0018 is for: SELECT only on the core tables. */
  predicate SelectOnlyOnCore(pre: seq<Security>, post: seq<Security>) {
    && |post| == |pre|
    && forall i :: 0 <= i < |pre| ==>
         post[i] == if pre[i].table in CORE_TABLES then pre[i].(serviceRole := [SELECT]) else pre[i]
  }

  /** And service_role's EXECUTE entry gone from both lists, no write surface left, and nothing else changed. */
  ghost predicate AsIntended(pre: Reading, post: Reading) {
    && |pre.function_| == 1 && |pre.forecast| == 1
    && (exists bundle, forecast ::
          && Filtered(EntriesOf(pre.function_[0].acl), bundle, OfAnother)
          && Filtered(EntriesOf(pre.forecast[0].acl), forecast, OfAnother)
          && post == pre.(function_ := [pre.function_[0].(acl := Some(bundle))],
                          forecast := [pre.forecast[0].(acl := Some(forecast))],
                          security := post.security, grants := post.grants, sequenceGrants := post.sequenceGrants,
                          inventory := []))
    && SelectOnlyOnCore(pre.security, post.security)
    && multiset(post.grants) == multiset(pre.grants) && multiset(post.sequenceGrants) == multiset(pre.sequenceGrants)
  }

  /** Part by part, that is what the post-checks compare. */
  ghost predicate PartsAsIntended(pre: Reading, post: Reading) {
    && ExecuteRevoked(pre.function_, post.function_) && ExecuteRevoked(pre.forecast, post.forecast)
    && UnchangedParts(pre, post) && post.inventory == []
    && SelectOnlyOnCore(pre.security, post.security)
    && multiset(post.grants) == multiset(pre.grants) && multiset(post.sequenceGrants) == multiset(pre.sequenceGrants)
  }

  lemma IntendedPartByPart(pre: Reading, post: Reading)
    ensures AsIntended(pre, post) <==> PartsAsIntended(pre, post)
  {
    hide Filtered, SelectOnlyOnCore, EntriesOf;
    if PartsAsIntended(pre, post) {
      var bundle, forecast := post.function_[0].acl.value, post.forecast[0].acl.value;
      assert post.function_ == [pre.function_[0].(acl := Some(bundle))];
      assert post.forecast == [pre.forecast[0].(acl := Some(forecast))];
    }
  }

  /** MAIN: given a reading the pre-checks accept, the post-checks accept exactly the intended result:
      service_role's EXECUTE entry filtered from both ACLs in order, SELECT only on the six core
      tables, no write surface left, and nothing else changed. */
  lemma PostCheckIsExact(pre: Reading, post: Reading, bodies: Bodies)
    requires PrePasses(pre, bodies)
    ensures PostPasses(pre, post) <==> AsIntended(pre, post)
  {
    hide HoldExactly, ServiceNarrowed, Narrowed, RolesReady, MembershipsReady, SchemaGrantsReady, PoliciesReady, InventoryReady,
         ServiceRoleReady, ExecuteRevoked, SelectOnlyOnCore, UnchangedParts;
    NarrowedExactly(pre.security, post.security);
    NarrowedRowByRow(pre.security, post.security);
    IntendedPartByPart(pre, post);
    hide AsIntended;
    if PostPasses(pre, post) {
      SameHoldings(post.grants, pre.grants, NEW_ROLES, TABLES, EXPECTED_GRANTS);
      SameHoldings(post.sequenceGrants, pre.sequenceGrants, NEW_ROLES, SEQUENCES, EXPECTED_SEQUENCE_GRANTS);
    }
    if AsIntended(pre, post) {
      HoldInAnyOrder(pre.grants, post.grants, NEW_ROLES, TABLES, EXPECTED_GRANTS);
      HoldInAnyOrder(pre.sequenceGrants, post.sequenceGrants, NEW_ROLES, SEQUENCES, EXPECTED_SEQUENCE_GRANTS);
    }
  }

  lemma NarrowedRowByRow(pre: seq<Security>, post: seq<Security>)
    ensures post == Narrowed(pre) <==> SelectOnlyOnCore(pre, post)
  {
    assert SERVICE_ROLE_KEPT == [SELECT];
  }

  /** MAIN: the intended revoke is never refused, and there is one for every reading. */
  lemma IntendedIsAccepted(pre: Reading, bodies: Bodies)
    requires PrePasses(pre, bodies)
    ensures PostPasses(pre, Intended(pre)) && AsIntended(pre, Intended(pre))
  {
    hide HoldExactly, ServiceNarrowed, Narrowed, RolesReady, MembershipsReady, SchemaGrantsReady, PoliciesReady, InventoryReady,
         ServiceRoleReady, Filtered, Revoked;
    NarrowedExactly(pre.security, Intended(pre).security);
    RevokedExactly(EntriesOf(pre.function_[0].acl), Revoked(EntriesOf(pre.function_[0].acl)));
    RevokedExactly(EntriesOf(pre.forecast[0].acl), Revoked(EntriesOf(pre.forecast[0].acl)));
    IntendedPartByPart(pre, Intended(pre));
    hide AsIntended;
    PostCheckIsExact(pre, Intended(pre), bodies);
  }

  lemma {:induction false} RevokedEntry(entries: seq<string>, entry: string)
    ensures entry in Revoked(entries) <==> entry in entries && entry != SERVICE_EXECUTE
  {
    if entries != [] {
      RevokedEntry(entries[..|entries| - 1], entry);
      assert entries == entries[..|entries| - 1] + [entries[|entries| - 1]];
    }
  }

  /** The owner and the writer still execute both functions, and service_role neither. */
  lemma OnlyServiceRoleLosesExecute(pre: Reading, post: Reading, bodies: Bodies)
    requires PrePasses(pre, bodies) && PostPasses(pre, post)
    ensures |post.function_| == 1 && |post.forecast| == 1
    ensures forall row :: row in post.function_ + post.forecast ==> OnlyOwnerAndWriter(row.acl)
  {
    hide AlreadyApplied, ServerReady, RolesReady, MembershipsReady, HoldBoth, SchemaGrantsReady, PoliciesReady, FunctionReady,
         TablesReady, ServiceRoleReady, InventoryReady, UnchangedParts, ExecuteRevoked, ServiceNarrowed, OnlyOwnerAndWriter;
    OneFunctionRevoked(pre.function_, post.function_, FunctionOwner.FUNCTION_ARGUMENTS, bodies.function_);
    OneFunctionRevoked(pre.forecast, post.forecast, FORECAST_ARGUMENTS, bodies.forecast);
    forall row | row in post.function_ + post.forecast ensures row == post.function_[0] || row == post.forecast[0] {
    }
  }

  predicate OnlyOwnerAndWriter(acl: Option<seq<string>>) {
    && acl.Some? && SERVICE_EXECUTE !in acl.value
    && BUNDLE_OWNER + "=EXECUTE" in acl.value && WRITER + "=EXECUTE" in acl.value
  }

  lemma OneFunctionRevoked(pre: seq<FunctionRow>, post: seq<FunctionRow>, arguments: string, source: string)
    requires FunctionReady(pre, arguments, source) && ExecuteRevoked(pre, post)
    ensures |post| == 1 && OnlyOwnerAndWriter(post[0].acl)
  {
    RevokedExactly(EntriesOf(pre[0].acl), post[0].acl.value);
    hide ExecuteReady, Revoked, Filtered;
    Kept(pre[0].acl);
  }

  lemma Kept(acl: Option<seq<string>>)
    requires ExecuteReady(acl)
    ensures OnlyOwnerAndWriter(Some(Revoked(EntriesOf(acl))))
  {
    RevokedEntry(EntriesOf(acl), SERVICE_EXECUTE);
    RevokedEntry(EntriesOf(acl), BUNDLE_OWNER + "=EXECUTE");
    RevokedEntry(EntriesOf(acl), WRITER + "=EXECUTE");
    assert EXECUTORS[0] == BUNDLE_OWNER && EXECUTORS[1] == WRITER;
    assert (BUNDLE_OWNER + "=EXECUTE")[0] == 'u' && (WRITER + "=EXECUTE")[0] == 'u' && SERVICE_EXECUTE[0] == 's';
  }

  // ------------------------------------------------------------------ one shot

  /** MAIN: whatever passed the post-checks is, to the next applier, already applied: it is refused,
      and for that reason. */
  lemma AppliedIsRefused(pre: Reading, post: Reading, bodies: Bodies)
    requires PrePasses(pre, bodies) && PostPasses(pre, post)
    ensures AlreadyApplied(post) && !PrePasses(post, bodies)
  {
    hide PrePasses, UnchangedParts, HoldBoth, ExecuteRevoked, OnlySelectOnCore, WithoutCoreService;
    OnlyServiceRoleLosesExecute(pre, post, bodies);
    NeverBoth(post, bodies);
  }

  lemma NeverBoth(r: Reading, bodies: Bodies)
    ensures AlreadyApplied(r) ==> !PrePasses(r, bodies)
  {
    hide AlreadyApplied, ServerReady, RolesReady, MembershipsReady, HoldBoth, SchemaGrantsReady, PoliciesReady, FunctionReady,
         TablesReady, ServiceRoleReady, InventoryReady;
  }

  ghost function TheRoute(bodies: Bodies): Route<Reading> {
    Route(r => PrePasses(r, bodies), (pre, post) => PostPasses(pre, post))
  }

  /** The initial reading passed, and what was left is its intended result. */
  ghost predicate Narrowing(init: Reading, left: Reading, bodies: Bodies) {
    PrePasses(init, bodies) && AsIntended(init, left)
  }

  lemma AcceptedIsNarrowing(pre: Reading, post: Reading, bodies: Bodies)
    requires PrePasses(pre, bodies) && PostPasses(pre, post)
    ensures Narrowing(pre, post, bodies)
  {
    PostCheckIsExact(pre, post, bodies);
    hide PrePasses, PostPasses, AsIntended;
  }

  /** MAIN: so over every run of any number of appliers, 0018 is committed at most once, and what it
      leaves is the initial reading or the intended result of it. */
  lemma AppliedAtMostOnce(bodies: Bodies, init: Reading, n: nat, run: Schedule<Reading>)
    requires Possible(TheRoute(bodies), Start(init, n), run)
    ensures var w := After(TheRoute(bodies), Start(init, n), run);
      && |w.log| <= 1
      && (w.log == [] ==> w.shared == init)
      && (w.log != [] ==> Narrowing(init, w.shared, bodies))
  {
    hide PrePasses, PostPasses, Narrowing;
    var route := TheRoute(bodies);
    forall a, b | route.pre(a) && route.post(a, b) ensures !route.pre(b) {
      AppliedIsRefused(a, b, bodies);
    }
    AtMostOneCommit(route, init, n, run);
    var w := After(route, Start(init, n), run);
    if w.log != [] {
      AcceptedIsNarrowing(init, w.shared, bodies);
    }
  }
}
