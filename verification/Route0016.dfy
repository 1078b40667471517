/** scripts/apply_migration_0016.py: four roles, what they hold, and the bundle function's narrow owner. */
module Route0016 {
  import opened Options
  import opened Rows
  import opened Additions
  import opened Grants
  import opened RoleChecks
  import opened CommonChecks
  import opened ApplyProtocol
  import opened FunctionOwner

  datatype Reading = Reading(
    server: seq<Value>,
    roles: seq<RoleRow>,
    memberships: seq<Membership>,
    grants: seq<GrantRow>,
    sequenceGrants: seq<GrantRow>,
    schema: seq<SchemaRow>,
    schemaGrants: seq<SchemaGrant>,
    policies: seq<PolicyRow>,
    function_: seq<FunctionRow>,
    otherFunctions: seq<Named>,
    security: seq<Security>,
    fingerprint: seq<Named>,
    eventTriggers: seq<Named>)

  // ------------------------------------------------------------------ the roles before

  predicate SomeRoleExists(rows: seq<RoleRow>) {
    exists role :: role in NEW_ROLES && role in ByKey(rows, RoleOf)
  }

  predicate ApplierMayCreateRoles(rows: seq<RoleRow>) {
    |Applying(rows)| == 1 && (Applying(rows)[0].createrole || Applying(rows)[0].superuser)
  }

  predicate OldRolesReady(rows: seq<RoleRow>) {
    AUTHENTICATOR in ByKey(rows, RoleOf) && ApplierMayCreateRoles(rows)
  }

  /** The new roles that are there already, in order. */
  method RolesPresent(rows: seq<RoleRow>) returns (present: seq<string>)
    ensures present != [] <==> SomeRoleExists(rows)
  {
    var found := ByKey(rows, RoleOf);
    hide ByKey;
    present := [];
    for i := 0 to |NEW_ROLES|
      invariant present != [] <==> exists k :: 0 <= k < i && NEW_ROLES[k] in found
    {
      if NEW_ROLES[i] in found {
        present := present + [NEW_ROLES[i]];
      }
    }
  }

  /** `roles_pre_check_failures` */
  method RolesPreCheckFailures(rows: seq<RoleRow>) returns (failures: seq<Failure>)
    ensures failures == [] <==> !SomeRoleExists(rows) && OldRolesReady(rows)
    ensures NamesTheGate(failures) <==> SomeRoleExists(rows)
    ensures AllAreTheGate(failures) <==> OldRolesReady(rows)
  {
    var present := RolesPresent(rows);
    var others := OldRolesFailures(rows);
    hide SomeRoleExists, OldRolesReady;
    var gate := if present != [] then TheGate("roles", List(Texts(present))) else [];
    failures := gate + others;
    OrdinaryFailures(others);
    GatesOfBoth(gate, others);
  }

  method OldRolesFailures(rows: seq<RoleRow>) returns (failures: seq<Failure>)
    ensures failures == [] <==> OldRolesReady(rows)
    ensures NoneIsTheGate(failures)
  {
    failures := [];
    if AUTHENTICATOR !in ByKey(rows, RoleOf) {
      failures := failures + [Failure("role", Text(AUTHENTICATOR), Missing)];
    }
    var applying := Applying(rows);
    if |applying| != 1 {
      failures := failures + [Failure("applying role", Int(|applying|), Repeated)];
    } else if !(applying[0].createrole || applying[0].superuser) {
      failures := failures + [Failure("applying role", Text("createrole"), Missing)];
    }
  }

  function Texts(names: seq<string>): seq<Value> {
    seq(|names|, i requires 0 <= i < |names| => Text(names[i]))
  }

  // ------------------------------------------------------------------ the policies and the function before

  predicate HandedAlready(rows: seq<FunctionRow>) {
    |rows| == 1 && rows[0].securityDefiner && rows[0].owner == BUNDLE_OWNER
  }

  const API_GRANTEES: seq<string> := ["PUBLIC", "anon", "authenticated"]

  /** Migration 0015's function, whoever owns it. */
  function Migration0015(owner: string, source: string, acl: Option<seq<string>>): FunctionRow {
    FunctionRow(FUNCTION_ARGUMENTS, "jsonb", "plpgsql", false, "f", "v", ["search_path=pg_catalog, pg_temp"],
                owner, true, source, acl)
  }

  predicate FunctionBefore(rows: seq<FunctionRow>, source: string) {
    && |rows| == 1
    && rows[0] == Migration0015(rows[0].owner, source, rows[0].acl)
    && "service_role=EXECUTE" in EntriesOf(rows[0].acl)
    && forall entry :: entry in EntriesOf(rows[0].acl) ==> !GivenTo(entry, API_GRANTEES)
  }

  /** `function_pre_check_failures` */
  method FunctionPreCheckFailures(rows: seq<FunctionRow>, source: string) returns (failures: seq<Failure>)
    ensures failures == [] <==> FunctionBefore(rows, source)
    ensures NamesTheGate(failures) <==> HandedAlready(rows)
    ensures AllAreTheGate(failures) <==> FunctionBefore(rows, source) || HandedAlready(rows)
  {
    if HandedAlready(rows) {
      return TheGate(FUNCTION_REFERENCE, Null);
    }
    failures := Migration0015Failures(rows, source);
    hide FunctionBefore;
    OrdinaryFailures(failures);
  }

  method Migration0015Failures(rows: seq<FunctionRow>, source: string) returns (failures: seq<Failure>)
    ensures failures == [] <==> FunctionBefore(rows, source)
    ensures NoneIsTheGate(failures)
  {
    hide GivenTo;
    if |rows| != 1 {
      return [Failure(FUNCTION_REFERENCE, Int(|rows|), Repeated)];
    }
    var row := rows[0];
    failures := ChangedFields(FUNCTION_REFERENCE, Migration0015(row.owner, source, row.acl), row);
    var entries := EntriesOf(row.acl);
    if "service_role=EXECUTE" !in entries {
      failures := failures + [Failure(FUNCTION_REFERENCE, Text("service_role"), Missing)];
    }
    NoneFor(entries, API_GRANTEES);
    hide EntriesFor;
    if EntriesFor(entries, API_GRANTEES) != [] {
      failures := failures + [Failure(FUNCTION_REFERENCE, Text("acl"), Wrong)];
    }
  }

  // ------------------------------------------------------------------ what a first apply requires

  predicate PrePasses(r: Reading, source: string) {
    && ServerReady(r.server)
    && !SomeRoleExists(r.roles) && OldRolesReady(r.roles)
    && !SomePolicyExists(r.policies, POLICIES_0016)
    && FunctionBefore(r.function_, source)
    && SchemaOwned(r.schema)
    && TablesReady(r.security, TABLES)
  }

  /** Something of 0016 is there. */
  predicate SomethingApplied(r: Reading) {
    SomeRoleExists(r.roles) || SomePolicyExists(r.policies, POLICIES_0016) || HandedAlready(r.function_)
  }

  /** All but what 0016 changes is as a first apply requires. */
  predicate OtherwiseReady(r: Reading, source: string) {
    && ServerReady(r.server)
    && OldRolesReady(r.roles)
    && (FunctionBefore(r.function_, source) || HandedAlready(r.function_))
    && SchemaOwned(r.schema)
    && TablesReady(r.security, TABLES)
  }

  /** `pre_check_failures`: "not a first apply" exactly when something of 0016 is there, and nothing else
      exactly when the rest is ready. */
  method PreCheckFailures(r: Reading, source: string) returns (failures: seq<Failure>)
    ensures failures == [] <==> PrePasses(r, source)
    ensures NamesTheGate(failures) <==> SomethingApplied(r)
    ensures AllAreTheGate(failures) <==> OtherwiseReady(r, source)
  {
    hide ServerReady, SomeRoleExists, OldRolesReady, SomePolicyExists, FunctionBefore, HandedAlready, SchemaOwned, TablesReady;
    var server := ServerFailures(r.server);
    var roles := RolesPreCheckFailures(r.roles);
    var policies := PoliciesGate(r.policies, POLICIES_0016);
    var function_ := FunctionPreCheckFailures(r.function_, source);
    var schema := SchemaFailures(r.schema);
    var security := TablesFailures(r.security, TABLES);
    failures := server + roles + policies + function_ + schema + security;
    OrdinaryFailures(server);
    OrdinaryFailures(schema);
    OrdinaryFailures(security);
    GatesOfBoth(server, roles);
    GatesOfBoth(server + roles, policies);
    GatesOfBoth(server + roles + policies, function_);
    GatesOfBoth(server + roles + policies + function_, schema);
    GatesOfBoth(server + roles + policies + function_ + schema, security);
    hide NamesTheGate, AllAreTheGate, NoneIsTheGate;
  }

  // ------------------------------------------------------------------ what the post-checks accept

  function OtherRoles(rows: seq<RoleRow>): seq<RoleRow> {
    KeptRows(rows, RoleOf, SetOf(NEW_ROLES))
  }

  /** `roles_post_check_failures` */
  method RolesPostCheckFailures(pre: seq<RoleRow>, post: seq<RoleRow>) returns (failures: seq<Failure>)
    ensures failures == [] <==> OtherRoles(post) == OtherRoles(pre) && FourRolesReady(post, [])
  {
    var others := UnchangedFailures("role", (row: RoleRow) => Text(row.role), OtherRoles(pre), OtherRoles(post));
    var held := FourRolesFailures(post, []);
    failures := others + held;
  }

  function ApplyingRole(rows: seq<RoleRow>): Option<string> {
    if |Applying(rows)| == 1 then Some(Applying(rows)[0].role) else None
  }

  predicate ApplyingSuperuser(rows: seq<RoleRow>) {
    exists row :: row in rows && row.isApplyingRole && row.superuser
  }

  predicate PostPasses(pre: Reading, post: Reading, source: string) {
    && post.server == pre.server
    && OtherRoles(post.roles) == OtherRoles(pre.roles) && FourRolesReady(post.roles, [])
    && MembershipsAsReviewed(pre.memberships, post.memberships, ApplyingRole(pre.roles), ApplyingSuperuser(pre.roles))
    && HoldBoth(post.grants, post.sequenceGrants, EXPECTED_GRANTS_0016)
    && post.schema == pre.schema && SchemaGrantsReady(post.schemaGrants)
    && PoliciesGrownBy(pre.policies, post.policies, POLICIES_0016)
    && |post.function_| == 1 && Handed(pre.function_, post.function_[0], source)
    && post.otherFunctions == pre.otherFunctions
    && CountsGrownBy(pre.security, post.security, POLICIES_0016.Keys)
    && post.fingerprint == pre.fingerprint && post.eventTriggers == pre.eventTriggers
  }

  /** `post_check_failures` */
  method PostCheckFailures(pre: Reading, post: Reading, source: string) returns (failures: seq<Failure>)
    ensures failures == [] <==> PostPasses(pre, post, source)
  {
    hide OtherRoles, FourRolesReady, MembershipsAsReviewed, HoldBoth, SchemaGrantsReady, PoliciesGrownBy, Handed, CountsGrownBy;
    var server := UnchangedFailures("server", (v: Value) => v, pre.server, post.server);
    var roles := RolesPostCheckFailures(pre.roles, post.roles);
    var memberships := MembershipsPostCheckFailures(
      pre.memberships, post.memberships, ApplyingRole(pre.roles), ApplyingSuperuser(pre.roles));
    var grants := BothGrantsFailures(post.grants, post.sequenceGrants, EXPECTED_GRANTS_0016);
    var schema := UnchangedFailures("schema", (row: SchemaRow) => Text(row.schema), pre.schema, post.schema);
    var rights := SchemaGrantsFailures(post.schemaGrants);
    var policies := PoliciesPostCheckFailures(pre.policies, post.policies, POLICIES_0016);
    var function_ := FunctionPostCheckFailures(pre.function_, post.function_, source);
    var others := UnchangedFailures("function", (row: Named) => Text(row.name), pre.otherFunctions, post.otherFunctions);
    var security := SecurityPostCheckFailures(pre.security, post.security, POLICIES_0016.Keys);
    var items := UnchangedFailures("schema item", (row: Named) => Text(row.name), pre.fingerprint, post.fingerprint);
    var events := UnchangedFailures("event trigger", (row: Named) => Text(row.name), pre.eventTriggers, post.eventTriggers);
    failures := server + roles + memberships + grants + schema + rights + policies + function_ + others + security + items + events;
  }

  // ------------------------------------------------------------------ one shot

  /** MAIN: what passed the post-checks is refused by the next pre-checks as not a first apply, three times
      over: for every role, for every policy and for the function. */
  lemma AppliedIsRefused(pre: Reading, post: Reading, source: string)
    requires PostPasses(pre, post, source)
    ensures forall role :: role in NEW_ROLES ==> role in ByKey(post.roles, RoleOf)
    ensures forall item :: item in POLICIES_0016 ==> item in ByKey(post.policies, ItemOf)
    ensures HandedAlready(post.function_)
    ensures SomethingApplied(post) && !PrePasses(post, source)
  {
    hide OtherRoles, MembershipsAsReviewed, HoldBoth, SchemaGrantsReady, CountsGrownBy, ByKey, POLICIES_0016;
    assert NEW_ROLES[0] in NEW_ROLES;
    assert RoleReady(ByKey(post.roles, RoleOf), NEW_ROLES[0], []);
  }

  predicate NoneApplies(rows: seq<RoleRow>, names: set<string>) {
    forall row :: row in rows && row.role in names ==> !row.isApplyingRole
  }

  lemma OneMoreRow(rows: seq<RoleRow>, last: RoleRow, names: set<string>)
    ensures NoneApplies(rows + [last], names) <==> NoneApplies(rows, names) && (last.role in names ==> !last.isApplyingRole)
  {
    assert forall row :: row in rows + [last] <==> row in rows || row == last;
  }

  lemma ApplyingAndOneMore(rows: seq<RoleRow>, last: RoleRow)
    ensures Applying(rows + [last]) == Applying(rows) + if last.isApplyingRole then [last] else []
  {
    assert (rows + [last])[..|rows|] == rows;
  }

  /** Every row of a role that is dropped is one applier fewer, if it applies. */
  lemma {:induction false} ApplyingOthers(rows: seq<RoleRow>, names: set<string>)
    ensures var left := Applying(KeptRows(rows, RoleOf, names));
      && |left| <= |Applying(rows)|
      && (|left| == |Applying(rows)| <==> NoneApplies(rows, names))
      && (|left| == |Applying(rows)| ==> left == Applying(rows))
  {
    if rows != [] {
      var before, last := rows[..|rows| - 1], rows[|rows| - 1];
      var kept := KeptRows(before, RoleOf, names);
      ApplyingOthers(before, names);
      assert rows == before + [last];
      assert KeptRows(rows, RoleOf, names) == if last.role in names then kept else kept + [last];
      hide Applying, NoneApplies, KeptRows;
      OneMoreRow(before, last, names);
      ApplyingAndOneMore(before, last);
      ApplyingAndOneMore(kept, last);
    }
  }

  /** No row of a new role says that it is the applying one. */
  predicate NoNewRoleApplies(rows: seq<RoleRow>) {
    NoneApplies(rows, SetOf(NEW_ROLES))
  }

  lemma OldRolesKept(pre: seq<RoleRow>, post: seq<RoleRow>)
    requires !SomeRoleExists(pre) && OldRolesReady(pre)
    requires OtherRoles(post) == OtherRoles(pre)
    ensures AUTHENTICATOR in ByKey(post, RoleOf)
    ensures NoNewRoleApplies(post) <==> |Applying(post)| == 1
    ensures NoNewRoleApplies(post) ==> Applying(post) == Applying(pre)
  {
    var names := SetOf(NEW_ROLES);
    forall row | row in pre ensures row.role !in names {
      var i :| 0 <= i < |pre| && pre[i] == row;
      KeysOf(pre, RoleOf, row.role);
    }
    hide ByKey, Applying;
    ApplyingOthers(pre, names);
    ApplyingOthers(post, names);
    AuthenticatorKept(pre, post, names);
  }

  lemma AuthenticatorKept(pre: seq<RoleRow>, post: seq<RoleRow>, names: set<string>)
    requires KeptRows(pre, RoleOf, names) == KeptRows(post, RoleOf, names)
    requires AUTHENTICATOR in ByKey(pre, RoleOf) && forall row :: row in pre ==> row.role !in names
    ensures AUTHENTICATOR in ByKey(post, RoleOf)
  {
    KeysOf(pre, RoleOf, AUTHENTICATOR);
    var row := ByKey(pre, RoleOf)[AUTHENTICATOR];
    KeptIsRest(pre, RoleOf, names);
    KeptIsRest(post, RoleOf, names);
    var i :| 0 <= i < |post| && post[i] == row;
    assert RoleOf(post[i]) == AUTHENTICATOR;
    KeysOf(post, RoleOf, AUTHENTICATOR);
  }

  /** MAIN: and for nothing else, exactly when no row of a new role says that it is the applying one. (The
      post-checks look at one row of each role, and pg_roles holds no more.) */
  lemma OnlyTheGateRefuses(pre: Reading, post: Reading, source: string)
    requires PrePasses(pre, source) && PostPasses(pre, post, source)
    ensures OtherwiseReady(post, source) <==> NoNewRoleApplies(post.roles)
    ensures DistinctKeys(post.roles, RoleOf) ==> NoNewRoleApplies(post.roles)
  {
    hide SomeRoleExists, SomePolicyExists, FunctionBefore, OtherRoles, FourRolesReady, MembershipsAsReviewed, ByKey, Applying,
         HoldBoth, SchemaGrantsReady, PoliciesGrownBy, CountsGrownBy, TablesReady, POLICIES_0016, NoNewRoleApplies;
    OldRolesKept(pre.roles, post.roles);
    TablesStayReady(pre.security, post.security, POLICIES_0016.Keys);
    if DistinctKeys(post.roles, RoleOf) {
      ReadOnce(post.roles);
    }
  }

  lemma ReadOnce(rows: seq<RoleRow>)
    requires FourRolesReady(rows, []) && DistinctKeys(rows, RoleOf)
    ensures NoNewRoleApplies(rows)
  {
    forall row | row in rows && row.role in SetOf(NEW_ROLES) ensures !row.isApplyingRole {
      RowFound(rows, RoleOf, row);
      assert RoleReady(ByKey(rows, RoleOf), row.role, []);
    }
  }

  ghost function TheRoute(source: string): Route<Reading> {
    Route(r => PrePasses(r, source), (pre, post) => PostPasses(pre, post, source))
  }

  /** MAIN: so over every run of any number of appliers 0016 is committed at most once, on a reading that
      passed, and every later applier is refused as not the first. */
  lemma AppliedAtMostOnce(source: string, init: Reading, n: nat, run: Schedule<Reading>)
    requires Possible(TheRoute(source), Start(init, n), run)
    ensures var w := After(TheRoute(source), Start(init, n), run);
      && |w.log| <= 1
      && (w.log == [] ==> w.shared == init)
      && (w.log != [] ==> PrePasses(init, source) && PostPasses(init, w.shared, source) && SomethingApplied(w.shared))
  {
    hide PrePasses, PostPasses, SomethingApplied;
    var route, open := TheRoute(source), (r: Reading) => !SomethingApplied(r);
    forall r | route.pre(r) ensures open(r) {
      NothingAppliedYet(r, source);
    }
    forall a, b | route.post(a, b) ensures !open(b) {
      AppliedIsRefused(a, b, source);
    }
    AGateMakesItOneShot(route, open, init, n, run);
  }

  lemma NothingAppliedYet(r: Reading, source: string)
    requires PrePasses(r, source)
    ensures !SomethingApplied(r)
  {
    hide SomeRoleExists, SomePolicyExists;
  }
}
