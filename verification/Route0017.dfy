/** scripts/apply_migration_0017.py: the forecast function, and what its owner is granted for it. */
module Route0017 {
  import opened Options
  import opened Rows
  import opened Policies
  import opened Grants
  import opened RoleChecks
  import opened CommonChecks
  import opened ApplyProtocol
  import FunctionOwner

  const FORECAST_REFERENCE := "public.save_forecast_bundle"

  /** What 0016 reads, and the forecast function. */
  datatype Reading = Reading(
    server: seq<Value>,
    roles: seq<RoleRow>,
    memberships: seq<Membership>,
    grants: seq<GrantRow>,
    sequenceGrants: seq<GrantRow>,
    schema: seq<SchemaRow>,
    schemaGrants: seq<SchemaGrant>,
    policies: seq<PolicyRow>,
    function_: seq<FunctionRow>,
    forecast: seq<FunctionRow>,
    otherFunctions: seq<Named>,
    security: seq<Security>,
    fingerprint: seq<Named>,
    eventTriggers: seq<Named>)

  /** The bodies of the bundle function and of the forecast function, read from the migration files. */
  datatype Bodies = Bodies(function_: string, forecast: string)

  // ------------------------------------------------------------------ what a first apply requires

  /** `added_policies` */
  const ADDED: map<string, Policy> := Added(EXPECTED_GRANTS_0016, EXPECTED_GRANTS)

  lemma WantedOnRuns()
    ensures Wanted(EXPECTED_GRANTS_0016, BUNDLE_OWNER, "analysis_runs") == []
    ensures Wanted(EXPECTED_GRANTS, BUNDLE_OWNER, "analysis_runs") == APPENDED
  {
    hide TableWanted;
    BundleOwnerIsSecond(WRITER, BUNDLE_OWNER);
    WantedOfSecond(EXPECTED_GRANTS_0016, "analysis_runs");
    WantedOfSecond(EXPECTED_GRANTS, "analysis_runs");
    RunsAreAdded("analysis_runs");
  }

  lemma BundleOwnerIsSecond(writer: string, owner: string)
    requires writer == WRITER && owner == BUNDLE_OWNER
    ensures writer != owner
  {
    assert writer[5] == 'a' && owner[5] == 'b';
  }

  lemma WantedOfSecond(grants: Policies.Grants, name: string)
    requires |grants| >= 2 && grants[0].role == WRITER && grants[1].role == BUNDLE_OWNER && WRITER != BUNDLE_OWNER
    ensures Wanted(grants, BUNDLE_OWNER, name) == TableWanted(grants[1].tables, name)
  {
    assert grants[1..][0] == grants[1];
  }

  lemma {:induction false} NotWanted(ts: seq<TableGrant>, more: seq<TableGrant>, name: string)
    requires forall i :: 0 <= i < |ts| ==> ts[i].table != name
    ensures TableWanted(ts + more, name) == TableWanted(more, name)
  {
    if ts == [] {
      assert ts + more == more;
    } else {
      assert (ts + more)[1..] == ts[1..] + more;
      NotWanted(ts[1..], more, name);
    }
  }

  lemma RunsAreAdded(name: string)
    requires name == "analysis_runs"
    ensures TableWanted(BUNDLE_GRANTS_0016, name) == []
    ensures TableWanted(BUNDLE_GRANTS_0016 + ADDED_GRANTS, name) == APPENDED
  {
    assert forall i :: 0 <= i < 3 ==> BUNDLE_GRANTS_0016[i].table[0] == 'p';
    NotWanted(BUNDLE_GRANTS_0016, [], name);
    NotWanted(BUNDLE_GRANTS_0016, ADDED_GRANTS, name);
    assert BUNDLE_GRANTS_0016 + [] == BUNDLE_GRANTS_0016;
    assert |ADDED_GRANTS[0].table| == 20;
    assert ADDED_GRANTS[1..][0] == ADDED_GRANTS[1];
  }

  lemma HeldOnRuns(tables: seq<GrantRow>, expected: Policies.Grants)
    requires HoldExactly(tables, NEW_ROLES, TABLES, expected)
    ensures HeldAsWanted(ByKey(tables, KeyOf), expected, BUNDLE_OWNER, "analysis_runs")
  {
    hide Wanted;
    assert NEW_ROLES[1] == BUNDLE_OWNER && TABLES[1] == "analysis_runs";
    ExactIsWanted(tables, NEW_ROLES, TABLES, expected);
    hide HoldExactly, HeldAsWanted;
  }

  /** The privileges before and after 0017 exclude each other. */
  lemma NotBoth(tables: seq<GrantRow>, sequences: seq<GrantRow>)
    ensures !(HoldBoth(tables, sequences, EXPECTED_GRANTS_0016) && HoldBoth(tables, sequences, EXPECTED_GRANTS))
  {
    WantedOnRuns();
    hide Wanted, HoldExactly, ByKey;
    if HoldBoth(tables, sequences, EXPECTED_GRANTS_0016) && HoldBoth(tables, sequences, EXPECTED_GRANTS) {
      HeldOnRuns(tables, EXPECTED_GRANTS_0016);
      HeldOnRuns(tables, EXPECTED_GRANTS);
    }
  }

  /** `grants_pre_check_failures` */
  method GrantsPreCheckFailures(tables: seq<GrantRow>, sequences: seq<GrantRow>) returns (failures: seq<Failure>)
    ensures failures == [] <==> HoldBoth(tables, sequences, EXPECTED_GRANTS_0016)
    ensures NamesTheGate(failures) <==> HoldBoth(tables, sequences, EXPECTED_GRANTS)
    ensures AllAreTheGate(failures) <==>
      HoldBoth(tables, sequences, EXPECTED_GRANTS_0016) || HoldBoth(tables, sequences, EXPECTED_GRANTS)
  {
    NotBoth(tables, sequences);
    hide HoldBoth;
    var wider := BothGrantsFailures(tables, sequences, EXPECTED_GRANTS);
    if wider == [] {
      return TheGate(BUNDLE_OWNER, Null);
    }
    failures := BothGrantsFailures(tables, sequences, EXPECTED_GRANTS_0016);
    OrdinaryFailures(failures);
  }

  /** `policies_pre_check_failures` */
  method PoliciesPreCheckFailures(rows: seq<PolicyRow>) returns (failures: seq<Failure>)
    ensures failures == [] <==> !SomePolicyExists(rows, ADDED) && PoliciesReady(rows, POLICIES_0016)
    ensures NamesTheGate(failures) <==> SomePolicyExists(rows, ADDED)
    ensures AllAreTheGate(failures) <==> SomePolicyExists(rows, ADDED) || PoliciesReady(rows, POLICIES_0016)
  {
    hide SomePolicyExists, PoliciesReady;
    failures := PoliciesGate(rows, ADDED);
    if failures == [] {
      failures := PoliciesFailures(rows, POLICIES_0016);
      OrdinaryFailures(failures);
    }
  }

  predicate PrePasses(r: Reading, bodies: Bodies) {
    && ServerReady(r.server)
    && RolesReady(r.roles, [])
    && MembershipsReady(r.memberships, r.roles)
    && HoldBoth(r.grants, r.sequenceGrants, EXPECTED_GRANTS_0016)
    && SchemaGrantsReady(r.schemaGrants)
    && !SomePolicyExists(r.policies, ADDED) && PoliciesReady(r.policies, POLICIES_0016)
    && FunctionReady(r.function_, FunctionOwner.FUNCTION_ARGUMENTS, bodies.function_)
    && r.forecast == []
    && SchemaOwned(r.schema)
    && TablesReady(r.security, TABLES)
  }

  /** Something of 0017 is there. */
  predicate SomethingApplied(r: Reading) {
    HoldBoth(r.grants, r.sequenceGrants, EXPECTED_GRANTS) || SomePolicyExists(r.policies, ADDED) || r.forecast != []
  }

  /** All but what 0017 changes is as a first apply requires. */
  predicate OtherwiseReady(r: Reading, bodies: Bodies) {
    && ServerReady(r.server)
    && RolesReady(r.roles, [])
    && MembershipsReady(r.memberships, r.roles)
    && (HoldBoth(r.grants, r.sequenceGrants, EXPECTED_GRANTS_0016) || HoldBoth(r.grants, r.sequenceGrants, EXPECTED_GRANTS))
    && SchemaGrantsReady(r.schemaGrants)
    && (SomePolicyExists(r.policies, ADDED) || PoliciesReady(r.policies, POLICIES_0016))
    && FunctionReady(r.function_, FunctionOwner.FUNCTION_ARGUMENTS, bodies.function_)
    && SchemaOwned(r.schema)
    && TablesReady(r.security, TABLES)
  }

  /** `pre_check_failures`: "not a first apply" exactly when something of 0017 is there, and nothing else
      exactly when the rest is ready. */
  method PreCheckFailures(r: Reading, bodies: Bodies) returns (failures: seq<Failure>)
    ensures failures == [] <==> PrePasses(r, bodies)
    ensures NamesTheGate(failures) <==> SomethingApplied(r)
    ensures AllAreTheGate(failures) <==> OtherwiseReady(r, bodies)
  {
    hide ServerReady, RolesReady, MembershipsReady, HoldBoth, SchemaGrantsReady, SomePolicyExists, PoliciesReady, FunctionReady,
         SchemaOwned, TablesReady;
    var held := HeldFailures(r);
    var grants := GrantsPreCheckFailures(r.grants, r.sequenceGrants);
    var rights := SchemaGrantsFailures(r.schemaGrants);
    var policies := PoliciesPreCheckFailures(r.policies);
    var function_ := FunctionFailures("public.save_prediction_bundle", r.function_, FunctionOwner.FUNCTION_ARGUMENTS, bodies.function_);
    var forecast := if r.forecast != [] then TheGate(FORECAST_REFERENCE, Null) else [];
    var tables := TableFailures(r);
    failures := held + grants + rights + policies + function_ + forecast + tables;
    OrdinaryFailures(held);
    OrdinaryFailures(rights);
    OrdinaryFailures(function_);
    OrdinaryFailures(tables);
    GatesOfBoth(held, grants);
    GatesOfBoth(held + grants, rights);
    GatesOfBoth(held + grants + rights, policies);
    GatesOfBoth(held + grants + rights + policies, function_);
    GatesOfBoth(held + grants + rights + policies + function_, forecast);
    GatesOfBoth(held + grants + rights + policies + function_ + forecast, tables);
    NotBoth(r.grants, r.sequenceGrants);
    hide NamesTheGate, AllAreTheGate, NoneIsTheGate;
  }

  method HeldFailures(r: Reading) returns (failures: seq<Failure>)
    ensures failures == [] <==> ServerReady(r.server) && RolesReady(r.roles, []) && MembershipsReady(r.memberships, r.roles)
    ensures NoneIsTheGate(failures)
  {
    hide ServerReady, RolesReady, MembershipsReady;
    var server := ServerFailures(r.server);
    var roles := RolesFailures(r.roles, []);
    var memberships := MembershipsFailures(r.memberships, r.roles);
    failures := server + roles + memberships;
  }

  method TableFailures(r: Reading) returns (failures: seq<Failure>)
    ensures failures == [] <==> SchemaOwned(r.schema) && TablesReady(r.security, TABLES)
    ensures NoneIsTheGate(failures)
  {
    hide SchemaOwned, TablesReady;
    var schema := SchemaFailures(r.schema);
    var security := TablesFailures(r.security, TABLES);
    failures := schema + security;
  }

  // ------------------------------------------------------------------ what the post-checks accept

  /** Any other grantee may execute the bundle function too. */
  predicate Explained(acl: Option<seq<string>>, bundle: seq<FunctionRow>) {
    forall entry :: entry in EntriesOf(acl) ==>
      || entry in (if |bundle| == 1 then EntriesOf(bundle[0].acl) else [])
      || GivenTo(entry, NEVER_EXECUTE + EXECUTORS)
  }

  predicate ForecastAsReviewed(rows: seq<FunctionRow>, bundle: seq<FunctionRow>, source: string) {
    FunctionReady(rows, FORECAST_ARGUMENTS, source) && Explained(rows[0].acl, bundle)
  }

  /** `forecast_post_check_failures` */
  method ForecastPostCheckFailures(rows: seq<FunctionRow>, bundle: seq<FunctionRow>, source: string) returns (failures: seq<Failure>)
    ensures failures == [] <==> ForecastAsReviewed(rows, bundle, source)
  {
    hide ExecuteReady, OwnedBundle, GivenTo;
    failures := FunctionFailures(FORECAST_REFERENCE, rows, FORECAST_ARGUMENTS, source);
    if |rows| != 1 {
      return;
    }
    var entries, explained := EntriesOf(rows[0].acl), if |bundle| == 1 then EntriesOf(bundle[0].acl) else [];
    var unexplained := set entry | entry in entries && entry !in explained && !GivenTo(entry, NEVER_EXECUTE + EXECUTORS);
    if unexplained != {} {
      var entry :| entry in unexplained;
      failures := failures + [Failure(FORECAST_REFERENCE, Text(entry), Wrong)];
    } else {
      assert forall entry :: entry in entries && entry !in explained && !GivenTo(entry, NEVER_EXECUTE + EXECUTORS) ==> entry in unexplained;
    }
  }

  predicate UnchangedParts(pre: Reading, post: Reading) {
    && post.server == pre.server && post.roles == pre.roles && post.memberships == pre.memberships
    && post.schema == pre.schema && post.schemaGrants == pre.schemaGrants && post.function_ == pre.function_
    && post.otherFunctions == pre.otherFunctions && post.fingerprint == pre.fingerprint
    && post.eventTriggers == pre.eventTriggers
  }

  method UnchangedPartsFailures(pre: Reading, post: Reading) returns (failures: seq<Failure>)
    ensures failures == [] <==> UnchangedParts(pre, post)
  {
    var server := UnchangedFailures("server", (v: Value) => v, pre.server, post.server);
    var roles := UnchangedFailures("role", (row: RoleRow) => Text(row.role), pre.roles, post.roles);
    var memberships := MembershipsUnchangedFailures(pre.memberships, post.memberships);
    var schema := UnchangedFailures("schema", (row: SchemaRow) => Text(row.schema), pre.schema, post.schema);
    var rights := UnchangedFailures("schema right of", (row: SchemaGrant) => Text(row.role), pre.schemaGrants, post.schemaGrants);
    var bundle := UnchangedFailures("overload", (row: FunctionRow) => Text(row.arguments), pre.function_, post.function_);
    var others := UnchangedFailures("function", (row: Named) => Text(row.name), pre.otherFunctions, post.otherFunctions);
    var items := UnchangedFailures("schema item", (row: Named) => Text(row.name), pre.fingerprint, post.fingerprint);
    var events := UnchangedFailures("event trigger", (row: Named) => Text(row.name), pre.eventTriggers, post.eventTriggers);
    failures := server + roles + memberships + schema + rights + bundle + others + items + events;
  }

  predicate PostPasses(pre: Reading, post: Reading, bodies: Bodies) {
    && UnchangedParts(pre, post)
    && HoldBoth(post.grants, post.sequenceGrants, EXPECTED_GRANTS)
    && PoliciesGrownBy(pre.policies, post.policies, ADDED)
    && ForecastAsReviewed(post.forecast, post.function_, bodies.forecast)
    && CountsGrownBy(pre.security, post.security, ADDED.Keys)
  }

  /** `post_check_failures` */
  method PostCheckFailures(pre: Reading, post: Reading, bodies: Bodies) returns (failures: seq<Failure>)
    ensures failures == [] <==> PostPasses(pre, post, bodies)
  {
    hide UnchangedParts, HoldBoth, PoliciesGrownBy, ForecastAsReviewed, CountsGrownBy;
    var same := UnchangedPartsFailures(pre, post);
    var grants := BothGrantsFailures(post.grants, post.sequenceGrants, EXPECTED_GRANTS);
    var policies := PoliciesPostCheckFailures(pre.policies, post.policies, ADDED);
    var forecast := ForecastPostCheckFailures(post.forecast, post.function_, bodies.forecast);
    var security := SecurityPostCheckFailures(pre.security, post.security, ADDED.Keys);
    failures := same + grants + policies + forecast + security;
  }

  // ------------------------------------------------------------------ one shot

  lemma AddedIsThere(rows: seq<PolicyRow>)
    requires forall item :: item in ADDED ==> item in ByKey(rows, ItemOf)
    ensures SomePolicyExists(rows, ADDED)
  {
    PolicyCounts();
    hide ByKey;
    var item :| item in ADDED.Keys;
  }

  /** MAIN: what passed the post-checks is refused by the next pre-checks as not a first apply, three times
      over: for the grants, for the four policies and for the function. */
  lemma AppliedIsRefused(pre: Reading, post: Reading, bodies: Bodies)
    requires PostPasses(pre, post, bodies)
    ensures HoldBoth(post.grants, post.sequenceGrants, EXPECTED_GRANTS)
    ensures forall item :: item in ADDED ==> item in ByKey(post.policies, ItemOf)
    ensures SomePolicyExists(post.policies, ADDED) && post.forecast != []
    ensures SomethingApplied(post) && !PrePasses(post, bodies)
  {
    hide UnchangedParts, HoldBoth, CountsGrownBy, ByKey, SomePolicyExists;
    AddedIsThere(post.policies);
  }

  /** MAIN: and for nothing else. */
  lemma OnlyTheGateRefuses(pre: Reading, post: Reading, bodies: Bodies)
    requires PrePasses(pre, bodies) && PostPasses(pre, post, bodies)
    ensures OtherwiseReady(post, bodies)
  {
    AppliedIsRefused(pre, post, bodies);
    hide ServerReady, RolesReady, MembershipsReady, HoldBoth, SchemaGrantsReady, SomePolicyExists, PoliciesReady, FunctionReady,
         SchemaOwned, TablesReady, PoliciesGrownBy, ForecastAsReviewed, CountsGrownBy;
    TablesStayReady(pre.security, post.security, ADDED.Keys);
  }

  ghost function TheRoute(bodies: Bodies): Route<Reading> {
    Route(r => PrePasses(r, bodies), (pre, post) => PostPasses(pre, post, bodies))
  }

  /** MAIN: so over every run of any number of appliers 0017 is committed at most once, on a reading that
      passed, and every later applier is refused as not the first and for nothing else. */
  lemma AppliedAtMostOnce(bodies: Bodies, init: Reading, n: nat, run: Schedule<Reading>)
    requires Possible(TheRoute(bodies), Start(init, n), run)
    ensures var w := After(TheRoute(bodies), Start(init, n), run);
      && |w.log| <= 1
      && (w.log == [] ==> w.shared == init)
      && (w.log != [] ==> && PrePasses(init, bodies) && PostPasses(init, w.shared, bodies)
                          && SomethingApplied(w.shared) && OtherwiseReady(w.shared, bodies))
  {
    hide PrePasses, PostPasses, SomethingApplied, OtherwiseReady;
    var route, open := TheRoute(bodies), (r: Reading) => !SomethingApplied(r);
    forall r | route.pre(r) ensures open(r) {
      NothingAppliedYet(r, bodies);
    }
    forall a, b | route.post(a, b) ensures !open(b) {
      AppliedIsRefused(a, b, bodies);
    }
    AGateMakesItOneShot(route, open, init, n, run);
    var w := After(route, Start(init, n), run);
    if w.log != [] {
      OnlyTheGateRefuses(init, w.shared, bodies);
    }
  }

  lemma NothingAppliedYet(r: Reading, bodies: Bodies)
    requires PrePasses(r, bodies)
    ensures !SomethingApplied(r)
  {
    NotBoth(r.grants, r.sequenceGrants);
    hide SomePolicyExists, HoldBoth;
  }
}
