/** What scripts/apply_migration_0016.py, 0017 and 0018 read and require alike. */
module CommonChecks {
  // Each predicate says when a check lists nothing; each method builds the list as the source does.

  import opened Options
  import opened Rows
  import opened Policies
  import opened Grants
  import opened RoleChecks

  const TABLES: seq<string> := [
    "analysis_run_details", "analysis_runs", "analysis_timeframe_results", "app_events", "automation_credential",
    "automation_radar_ledger", "news_clusters", "news_evidence_links", "news_items", "prediction_derivatives_snapshots",
    "prediction_feature_snapshots", "prediction_outcomes", "prediction_resolution_status", "predictions",
    "provider_observations", "section_5a_evaluation_seal", "watchlist"]
  const SEQUENCES: seq<string> := ["analysis_timeframe_results_id_seq", "app_events_id_seq", "provider_observations_id_seq"]
  const EXPECTED_SEQUENCE_GRANTS: Policies.Grants := [
    RoleGrants(WRITER, [TableGrant("analysis_timeframe_results_id_seq", [USAGE]),
                        TableGrant("provider_observations_id_seq", [USAGE])])]
  const NEVER_EXECUTE: seq<string> := ["PUBLIC", "anon", "authenticated", "ucpe_resolver", "ucpe_space_db"]

  // ------------------------------------------------------------------ rows

  datatype RoleRow = RoleRow(
    role: string, superuser: bool, inherit: bool, createrole: bool, createdb: bool, login: bool, replication: bool,
    bypassrls: bool, isApplyingRole: bool)

  /** `rest`: the columns that are only ever compared. */
  datatype SchemaRow = SchemaRow(schema: string, applierMayCreate: bool, applierHoldsOwnerPrivileges: bool, rest: Fields)

  datatype SchemaGrant = SchemaGrant(role: string, usage: bool, create: bool)

  /** A row known by one column; the others are only ever compared. */
  datatype Named = Named(name: string, rest: Fields)

  // ------------------------------------------------------------------ the server

  function ServerVersion(rows: seq<Value>): Option<int> {
    if |rows| == 1 && rows[0].Int? then Some(rows[0].n) else None
  }

  predicate ServerReady(rows: seq<Value>) {
    ServerVersion(rows).Some? && ServerVersion(rows).value >= 160000
  }

  method ServerFailures(rows: seq<Value>) returns (failures: seq<Failure>)
    ensures failures == [] <==> ServerReady(rows)
    ensures NoneIsTheGate(failures)
  {
    var version := ServerVersion(rows);
    if version == None {
      return [Failure("server", List(rows), Unreadable)];
    }
    failures := if version.value < 160000 then [Failure("server", Int(version.value), Wrong)] else [];
  }

  // ------------------------------------------------------------------ roles

  function RoleOf(row: RoleRow): string {
    row.role
  }

  function Applying(rows: seq<RoleRow>): seq<RoleRow> {
    if rows == [] then []
    else Applying(rows[..|rows| - 1]) + if rows[|rows| - 1].isApplyingRole then [rows[|rows| - 1]] else []
  }

  predicate NoAttribute(row: RoleRow, mayLogIn: bool) {
    && !row.superuser && !row.inherit && !row.createrole && !row.createdb && !row.replication && !row.bypassrls
    && !row.isApplyingRole && (mayLogIn || !row.login)
  }

  const ROLE_ATTRIBUTES: seq<string> := [
    "superuser", "inherit", "createrole", "createdb", "login", "replication", "bypassrls", "is_applying_role"]

  function Attributes(row: RoleRow): (held: seq<bool>)
    ensures |held| == |ROLE_ATTRIBUTES|
  {
    [row.superuser, row.inherit, row.createrole, row.createdb, row.login, row.replication, row.bypassrls, row.isApplyingRole]
  }

  lemma LoginIsTheFifth(names: seq<string>, i: nat)
    requires names == ROLE_ATTRIBUTES && i < |names|
    ensures names[i] == "login" <==> i == 4
  {
    assert names[i][0] == 'l' <==> i == 4;
  }

  lemma NoneHeld(row: RoleRow, mayLogIn: bool)
    ensures NoAttribute(row, mayLogIn) <==> forall k :: 0 <= k < |Attributes(row)| ==> !Attributes(row)[k] || (k == 4 && mayLogIn)
  {
    var held := Attributes(row);
    if forall k :: 0 <= k < |held| ==> !held[k] || (k == 4 && mayLogIn) {
      assert !held[0] && !held[1] && !held[2] && !held[3];
      assert !held[5] && !held[6] && !held[7] && (!held[4] || mayLogIn);
    }
  }

  method HeldAttributes(row: RoleRow, allowed: seq<string>) returns (held: seq<string>)
    requires allowed == [] || allowed == ["login"]
    ensures held == [] <==> NoAttribute(row, allowed != [])
  {
    held := [];
    var attributes := Attributes(row);
    NoneHeld(row, allowed != []);
    hide Attributes, NoAttribute;
    for i := 0 to |attributes|
      invariant held == [] <==> forall k :: 0 <= k < i ==> !attributes[k] || (k == 4 && allowed != [])
    {
      LoginIsTheFifth(ROLE_ATTRIBUTES, i);
      if attributes[i] && ROLE_ATTRIBUTES[i] !in allowed {
        held := held + [ROLE_ATTRIBUTES[i]];
      }
    }
  }

  predicate RoleReady(found: map<string, RoleRow>, role: string, loginRoles: seq<string>) {
    role in found && NoAttribute(found[role], role in loginRoles)
  }

  /** Each of the four roles, with no attribute but the login `loginRoles` may have. */
  predicate FourRolesReady(rows: seq<RoleRow>, loginRoles: seq<string>) {
    forall role :: role in NEW_ROLES ==> RoleReady(ByKey(rows, RoleOf), role, loginRoles)
  }

  method FourRolesFailures(rows: seq<RoleRow>, loginRoles: seq<string>) returns (failures: seq<Failure>)
    ensures failures == [] <==> FourRolesReady(rows, loginRoles)
    ensures NoneIsTheGate(failures)
  {
    var found := ByKey(rows, RoleOf);
    hide ByKey, NoAttribute;
    failures := [];
    for i := 0 to |NEW_ROLES|
      invariant failures == [] <==> forall k :: 0 <= k < i ==> RoleReady(found, NEW_ROLES[k], loginRoles)
      invariant NoneIsTheGate(failures)
    {
      var role := NEW_ROLES[i];
      if role !in found {
        failures := failures + [Failure("role", Text(role), Missing)];
        continue;
      }
      var held := HeldAttributes(found[role], if role in loginRoles then ["login"] else []);
      if held != [] {
        failures := failures + [Failure("role", Text(role), Wrong)];
      }
    }
    EachRole(found, NEW_ROLES, loginRoles);
  }

  lemma EachRole(found: map<string, RoleRow>, roles: seq<string>, loginRoles: seq<string>)
    ensures (forall k :: 0 <= k < |roles| ==> RoleReady(found, roles[k], loginRoles)) <==>
      forall role :: role in roles ==> RoleReady(found, role, loginRoles)
  {
    hide RoleReady;
    forall k | 0 <= k < |roles| ensures roles[k] in roles {
    }
  }

  predicate RolesReady(rows: seq<RoleRow>, loginRoles: seq<string>) {
    AUTHENTICATOR in ByKey(rows, RoleOf) && FourRolesReady(rows, loginRoles) && |Applying(rows)| == 1
  }

  /** `roles_pre_check_failures` of 0017 and 0018. */
  method RolesFailures(rows: seq<RoleRow>, loginRoles: seq<string>) returns (failures: seq<Failure>)
    ensures failures == [] <==> RolesReady(rows, loginRoles)
    ensures NoneIsTheGate(failures)
  {
    hide FourRolesReady;
    failures := if AUTHENTICATOR in ByKey(rows, RoleOf) then [] else [Failure("role", Text(AUTHENTICATOR), Missing)];
    var held := FourRolesFailures(rows, loginRoles);
    failures := failures + held;
    if |Applying(rows)| != 1 {
      failures := failures + [Failure("applying role", Int(|Applying(rows)|), Repeated)];
    }
  }

  // ------------------------------------------------------------------ memberships

  function WriterMemberships(rows: seq<Membership>): seq<Membership> {
    if rows == [] then []
    else
      var last := rows[|rows| - 1];
      WriterMemberships(rows[..|rows| - 1]) + if last.role == WRITER && last.member == AUTHENTICATOR then [last] else []
  }

  predicate MembershipsReady(rows: seq<Membership>, roles: seq<RoleRow>) {
    var writer := WriterMemberships(rows);
    && |writer| == 1 && !writer[0].admin && !writer[0].inherit && writer[0].set_
    && (|Applying(roles)| == 1 && !Applying(roles)[0].superuser ==>
          exists row :: row in rows && row.role == BUNDLE_OWNER && row.member == Applying(roles)[0].role && row.admin)
  }

  method MembershipsFailures(rows: seq<Membership>, roles: seq<RoleRow>) returns (failures: seq<Failure>)
    ensures failures == [] <==> MembershipsReady(rows, roles)
    ensures NoneIsTheGate(failures)
  {
    failures := [];
    var writer := WriterMemberships(rows);
    if !(|writer| == 1 && !writer[0].admin && !writer[0].inherit && writer[0].set_) {
      failures := failures + [Failure("membership", Text(WRITER), Wrong)];
    }
    var applying := Applying(roles);
    if |applying| == 1 && !applying[0].superuser {
      var name := applying[0].role;
      if !exists row :: row in rows && row.role == BUNDLE_OWNER && row.member == name && row.admin {
        failures := failures + [Failure("membership", Text(BUNDLE_OWNER), Missing)];
      }
    }
  }

  // ------------------------------------------------------------------ what the roles hold

  function GrantedRole(row: SchemaGrant): string {
    row.role
  }

  predicate RightsReady(found: map<string, SchemaGrant>, role: string) {
    role in found && found[role].usage && !found[role].create
  }

  predicate SchemaGrantsReady(rows: seq<SchemaGrant>) {
    var found := ByKey(rows, GrantedRole);
    && found.Keys == (set role | role in NEW_ROLES)
    && forall role :: role in NEW_ROLES ==> RightsReady(found, role)
  }

  method SchemaGrantsFailures(rows: seq<SchemaGrant>) returns (failures: seq<Failure>)
    ensures failures == [] <==> SchemaGrantsReady(rows)
    ensures NoneIsTheGate(failures)
  {
    var found := ByKey(rows, GrantedRole);
    hide ByKey;
    failures := [];
    for i := 0 to |NEW_ROLES|
      invariant failures == [] <==> forall k :: 0 <= k < i ==> RightsReady(found, NEW_ROLES[k])
      invariant NoneIsTheGate(failures)
    {
      if !RightsReady(found, NEW_ROLES[i]) {
        failures := failures + [Failure("schema right", Text(NEW_ROLES[i]), Wrong)];
      }
    }
    EachRight(found, NEW_ROLES);
    if found.Keys != set role | role in NEW_ROLES {
      failures := failures + [Failure("schema rights", Null, Unreadable)];
    }
  }

  lemma EachRight(found: map<string, SchemaGrant>, roles: seq<string>)
    ensures (forall k :: 0 <= k < |roles| ==> RightsReady(found, roles[k])) <==> forall role :: role in roles ==> RightsReady(found, role)
  {
    hide RightsReady;
    forall k | 0 <= k < |roles| ensures roles[k] in roles {
    }
  }

  predicate HoldBoth(tables: seq<GrantRow>, sequences: seq<GrantRow>, expected: Policies.Grants) {
    && HoldExactly(tables, NEW_ROLES, TABLES, expected)
    && HoldExactly(sequences, NEW_ROLES, SEQUENCES, EXPECTED_SEQUENCE_GRANTS)
  }

  /** `_grants_failures` */
  method BothGrantsFailures(tables: seq<GrantRow>, sequences: seq<GrantRow>, expected: Policies.Grants)
    returns (failures: seq<Failure>)
    ensures failures == [] <==> HoldBoth(tables, sequences, expected)
    ensures NoneIsTheGate(failures)
  {
    hide HoldExactly;
    var onTables := GrantsFailures("table", tables, NEW_ROLES, TABLES, expected);
    var onSequences := GrantsFailures("sequence", sequences, NEW_ROLES, SEQUENCES, EXPECTED_SEQUENCE_GRANTS);
    failures := onTables + onSequences;
  }

  predicate PoliciesReady(rows: seq<PolicyRow>, expected: map<string, Policy>) {
    var found := ByKey(rows, ItemOf);
    forall item :: item in expected ==> item in found && found[item].policy == expected[item]
  }

  /** `_policies_failures` */
  method PoliciesFailures(rows: seq<PolicyRow>, expected: map<string, Policy>) returns (failures: seq<Failure>)
    ensures failures == [] <==> PoliciesReady(rows, expected)
    ensures NoneIsTheGate(failures)
  {
    var found := ByKey(rows, ItemOf);
    hide ByKey;
    failures := [];
    var left := expected.Keys;
    while left != {}
      invariant left <= expected.Keys
      invariant failures == [] <==>
        forall item :: item in expected.Keys - left ==> item in found && found[item].policy == expected[item]
      invariant NoneIsTheGate(failures)
    {
      var item :| item in left;
      if item !in found {
        failures := failures + [Failure("policy", Text(item), Missing)];
      } else if found[item].policy != expected[item] {
        failures := failures + [Failure("policy", Text(item), Wrong)];
      }
      left := left - {item};
    }
  }

  /** The 40 policies of 0016. */
  const POLICIES_0016: map<string, Policy> := PoliciesOf(EXPECTED_GRANTS_0016)

  predicate SomePolicyExists(rows: seq<PolicyRow>, expected: map<string, Policy>) {
    exists item :: item in expected && item in ByKey(rows, ItemOf)
  }

  /** `policies_pre_check_failures` of 0016, and the gate of 0017's. */
  method PoliciesGate(rows: seq<PolicyRow>, expected: map<string, Policy>) returns (failures: seq<Failure>)
    ensures failures != [] <==> SomePolicyExists(rows, expected)
    ensures AllAreTheGate(failures)
    ensures NamesTheGate(failures) <==> SomePolicyExists(rows, expected)
  {
    var ours := expected.Keys * ByKey(rows, ItemOf).Keys;
    hide ByKey;
    if ours == {} {
      assert forall item :: item in expected && item in ByKey(rows, ItemOf) ==> item in ours;
      failures := [];
    } else {
      var item :| item in ours;
      assert item in expected && item in ByKey(rows, ItemOf);
      failures := TheGate("policies", Null);
    }
  }

  // ------------------------------------------------------------------ functions

  const FORECAST_ARGUMENTS :=
    "p_run jsonb, p_prediction jsonb, p_feature_snapshot jsonb, p_derivatives_snapshot jsonb, p_run_detail jsonb"

  /** entry.split("=", 1)[0] */
  function Grantee(entry: string): string {
    if entry == [] || entry[0] == '=' then [] else [entry[0]] + Grantee(entry[1..])
  }

  function EntriesOf(acl: Option<seq<string>>): seq<string> {
    if acl.Some? then acl.value else []
  }

  const EXECUTORS: seq<string> := [BUNDLE_OWNER, WRITER, "service_role"]

  predicate ExecuteReady(acl: Option<seq<string>>) {
    && (forall grantee :: grantee in EXECUTORS ==> grantee + "=EXECUTE" in EntriesOf(acl))
    && forall entry :: entry in EntriesOf(acl) ==> !GivenTo(entry, NEVER_EXECUTE)
  }

  predicate GivenTo(entry: string, grantees: seq<string>) {
    Grantee(entry) in grantees
  }

  /** The entries of any of these grantees, in order. */
  function EntriesFor(entries: seq<string>, grantees: seq<string>): seq<string> {
    if entries == [] then []
    else
      var last := entries[|entries| - 1];
      EntriesFor(entries[..|entries| - 1], grantees) + if GivenTo(last, grantees) then [last] else []
  }

  lemma {:induction false} NoneFor(entries: seq<string>, grantees: seq<string>)
    ensures EntriesFor(entries, grantees) == [] <==> forall entry :: entry in entries ==> !GivenTo(entry, grantees)
  {
    hide GivenTo;
    if entries != [] {
      var n := |entries| - 1;
      NoneFor(entries[..n], grantees);
      forall entry ensures entry in entries <==> entry in entries[..n] || entry == entries[n] {
        assert entries == entries[..n] + [entries[n]];
      }
    }
  }

  /** `_execute_failures` */
  method ExecuteFailures(reference: string, acl: Option<seq<string>>) returns (failures: seq<Failure>)
    ensures failures == [] <==> ExecuteReady(acl)
    ensures NoneIsTheGate(failures)
  {
    var entries := EntriesOf(acl);
    failures := [];
    for i := 0 to |EXECUTORS|
      invariant failures == [] <==> forall k :: 0 <= k < i ==> EXECUTORS[k] + "=EXECUTE" in entries
      invariant NoneIsTheGate(failures)
    {
      if EXECUTORS[i] + "=EXECUTE" !in entries {
        failures := failures + [Failure(reference, Text(EXECUTORS[i]), Missing)];
      }
    }
    EachExecutor(entries, EXECUTORS);
    NoneFor(entries, NEVER_EXECUTE);
    hide EntriesFor, Grantee;
    if EntriesFor(entries, NEVER_EXECUTE) != [] {
      failures := failures + [Failure(reference, Text("acl"), Wrong)];
    }
  }

  lemma EachExecutor(entries: seq<string>, executors: seq<string>)
    ensures (forall k :: 0 <= k < |executors| ==> executors[k] + "=EXECUTE" in entries) <==>
      forall grantee :: grantee in executors ==> grantee + "=EXECUTE" in entries
  {
    forall k | 0 <= k < |executors| ensures executors[k] in executors {
    }
  }

  lemma {:induction false} GranteeBefore(name: string, rest: string)
    requires '=' !in name
    ensures Grantee(name + "=" + rest) == name
  {
    var entry := name + "=" + rest;
    if name != [] {
      assert entry[0] == name[0] && entry[1..] == name[1..] + "=" + rest;
      GranteeBefore(name[1..], rest);
    }
  }

  lemma ExecutorIsNeverBarred(name: string)
    requires name == "ucpe_bundle_owner" || name == "ucpe_api_writer" || name == "service_role"
    ensures !GivenTo(name + "=EXECUTE", NEVER_EXECUTE)
  {
    NoEqualsSign(name);
    GranteeBefore(name, "EXECUTE");
    assert name + "=EXECUTE" == name + "=" + "EXECUTE";
    assert name[0] == 's' || (name[0] == 'u' && (name[5] == 'b' || name[5] == 'a'));
    assert forall other :: other in NEVER_EXECUTE ==> other[0] != 's' && (other[0] == 'u' ==> other[5] == 'r' || other[5] == 's');
    hide Grantee;
  }

  lemma NoEqualsSign(name: string)
    requires name == "ucpe_bundle_owner" || name == "ucpe_api_writer" || name == "service_role"
    ensures '=' !in name
  {
  }

  /** A bundle function of the narrow owner, but for its EXECUTE list. */
  predicate OwnedBundle(row: FunctionRow, arguments: string, source: string) {
    row == FunctionRow(arguments, "jsonb", "plpgsql", true, "f", "v", ["search_path=pg_catalog, pg_temp"],
                       BUNDLE_OWNER, false, source, row.acl)
  }

  predicate FunctionReady(rows: seq<FunctionRow>, arguments: string, source: string) {
    |rows| == 1 && OwnedBundle(rows[0], arguments, source) && ExecuteReady(rows[0].acl)
  }

  /** `function_pre_check_failures` of 0017 and 0018, and `forecast_pre_check_failures` of 0018. */
  method FunctionFailures(reference: string, rows: seq<FunctionRow>, arguments: string, source: string)
    returns (failures: seq<Failure>)
    ensures failures == [] <==> FunctionReady(rows, arguments, source)
    ensures NoneIsTheGate(failures)
  {
    if |rows| != 1 {
      return [Failure(reference, Int(|rows|), Repeated)];
    }
    var row := rows[0];
    hide ExecuteReady;
    var expected := FunctionRow(arguments, "jsonb", "plpgsql", true, "f", "v", ["search_path=pg_catalog, pg_temp"],
                                BUNDLE_OWNER, false, source, row.acl);
    var fields := ChangedFields(reference, expected, row);
    var execute := ExecuteFailures(reference, row.acl);
    failures := fields + execute;
  }

  const FUNCTION_COLUMNS: seq<string> := [
    "arguments", "returns", "language", "security_definer", "kind", "volatility", "config", "owner",
    "owned_by_applying_role", "source"]

  /** Which of those columns are the same. */
  function SameColumns(before: FunctionRow, after: FunctionRow): (same: seq<bool>)
    ensures |same| == |FUNCTION_COLUMNS|
  {
    [before.arguments == after.arguments, before.returns_ == after.returns_, before.language == after.language,
     before.securityDefiner == after.securityDefiner, before.kind == after.kind, before.volatility == after.volatility,
     before.config == after.config, before.owner == after.owner,
     before.ownedByApplyingRole == after.ownedByApplyingRole, before.source == after.source]
  }

  /** Every column but the ACL, in the order they are read. */
  method ChangedFields(reference: string, before: FunctionRow, after: FunctionRow) returns (failures: seq<Failure>)
    ensures failures == [] <==> after == before.(acl := after.acl)
    ensures NoneIsTheGate(failures)
  {
    AllSame(before, after);
    hide SameColumns;
    var same := SameColumns(before, after);
    failures := [];
    for i := 0 to |same|
      invariant failures == [] <==> forall k :: 0 <= k < i ==> same[k]
      invariant NoneIsTheGate(failures)
    {
      if !same[i] {
        failures := failures + [Failure(reference, Value.Text(FUNCTION_COLUMNS[i]), Changed)];
      }
    }
  }

  lemma AllSame(before: FunctionRow, after: FunctionRow)
    ensures (forall k :: 0 <= k < |SameColumns(before, after)| ==> SameColumns(before, after)[k]) <==> after == before.(acl := after.acl)
  {
    var same := SameColumns(before, after);
    if forall k :: 0 <= k < |same| ==> same[k] {
      assert same[0] && same[1] && same[2] && same[3] && same[4];
      assert same[5] && same[6] && same[7] && same[8] && same[9];
    }
  }

  // ------------------------------------------------------------------ the schema and its tables

  predicate SchemaRead(rows: seq<SchemaRow>) {
    |rows| == 1 && rows[0].schema == "public"
  }

  predicate SchemaOwned(rows: seq<SchemaRow>) {
    SchemaRead(rows) && rows[0].applierMayCreate && rows[0].applierHoldsOwnerPrivileges
  }

  /** `schema_pre_check_failures` of 0016 and 0017. */
  method SchemaFailures(rows: seq<SchemaRow>) returns (failures: seq<Failure>)
    ensures failures == [] <==> SchemaOwned(rows)
    ensures NoneIsTheGate(failures)
  {
    if !SchemaRead(rows) {
      return [Failure("schema", Null, Unreadable)];
    }
    failures := [];
    if !rows[0].applierMayCreate {
      failures := failures + [Failure("schema", Text("create"), Wrong)];
    }
    if !rows[0].applierHoldsOwnerPrivileges {
      failures := failures + [Failure("schema", Text("owner"), Wrong)];
    }
  }

  lemma TablesStayReady(pre: seq<Security>, post: seq<Security>, added: set<string>)
    requires TablesReady(pre, TABLES) && CountsGrownBy(pre, post, added)
    ensures TablesReady(post, TABLES)
  {
    hide CountOf, On;
    assert Tables(post) == Tables(pre);
  }
}
