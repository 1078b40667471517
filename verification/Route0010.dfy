/** scripts/apply_migration_0010.py: anon and authenticated are left nothing on ten tables and three
    sequences. The gate is that they still hold something. */
module Route0010 {
  import opened Rows
  import opened ApplyProtocol

  const LEGACY_TABLES: seq<string> := [
    "analysis_runs", "analysis_timeframe_results", "app_events", "news_clusters", "news_evidence_links", "news_items",
    "prediction_outcomes", "predictions", "provider_observations", "watchlist"]
  const LEGACY_SEQUENCES: seq<(string, string)> := [
    ("analysis_timeframe_results", "public.analysis_timeframe_results_id_seq"),
    ("app_events", "public.app_events_id_seq"),
    ("provider_observations", "public.provider_observations_id_seq")]
  const OTHER_TABLES: seq<string> := [
    "analysis_run_details", "prediction_derivatives_snapshots", "prediction_feature_snapshots", "section_5a_evaluation_seal"]

  datatype SequenceRow = SequenceRow(
    table: string, sequence: string, publicHasAPrivilege: bool, anon: seq<Privilege>, authenticated: seq<Privilege>,
    serviceRole: seq<Privilege>)

  datatype Reading = Reading(legacy: seq<Security>, sequences: seq<SequenceRow>, other: seq<Security>)

  // ------------------------------------------------------------------ the shape every reading must have

  predicate Shaped(row: Security) {
    && row.relationsNamedSo == 1 && row.relkind == "r" && row.ownedByApplyingRole && !row.rowLevelSecurityForced
    && !row.publicHasAPrivilege && !row.columnGrant
  }

  /** `_table_shape_failures` */
  method TableShapeFailures(row: Security) returns (failures: seq<Failure>)
    ensures failures == [] <==> Shaped(row)
    ensures forall f :: f in failures ==> f.kind == Wrong
  {
    failures := [];
    if row.relationsNamedSo != 1 {
      failures := failures + [Failure(row.table, Text("relations_named_so"), Wrong)];
    }
    if row.relkind != "r" {
      failures := failures + [Failure(row.table, Text("relkind"), Wrong)];
    }
    if !row.ownedByApplyingRole {
      failures := failures + [Failure(row.table, Text("owned_by_applying_role"), Wrong)];
    }
    if row.rowLevelSecurityForced {
      failures := failures + [Failure(row.table, Text("row_level_security_forced"), Wrong)];
    }
    if row.publicHasAPrivilege {
      failures := failures + [Failure(row.table, Text("public_has_a_privilege"), Wrong)];
    }
    if row.columnGrant {
      failures := failures + [Failure(row.table, Text("column_grant"), Wrong)];
    }
  }

  predicate Within(held: seq<Privilege>, privileges: seq<Privilege>) {
    forall p :: p in held ==> p in privileges
  }

  /** One legacy table as the audit measured it. */
  predicate Measured(row: Security, privileges: seq<Privilege>) {
    && Shaped(row) && row.rowLevelSecurity && row.policies == 0 && row.serviceRole == privileges
    && Within(row.anon, privileges) && Within(row.authenticated, privileges)
  }

  predicate AllMeasured(rows: seq<Security>, privileges: seq<Privilege>) {
    Tables(rows) == LEGACY_TABLES && forall i :: 0 <= i < |rows| ==> Measured(rows[i], privileges)
  }

  predicate SomethingHeld(rows: seq<Security>) {
    exists i :: 0 <= i < |rows| && (rows[i].anon != [] || rows[i].authenticated != [])
  }

  method MeasuredFailures(row: Security, privileges: seq<Privilege>) returns (failures: seq<Failure>)
    ensures failures == [] <==> Measured(row, privileges)
    ensures NoneIsTheGate(failures)
  {
    hide Shaped;
    failures := TableShapeFailures(row);
    if !row.rowLevelSecurity {
      failures := failures + [Failure(row.table, Text("row_level_security"), Wrong)];
    }
    if row.policies != 0 {
      failures := failures + [Failure(row.table, Text("policies"), Wrong)];
    }
    if row.serviceRole != privileges {
      failures := failures + [Failure(row.table, Text("service_role"), Wrong)];
    }
    if !Within(row.anon, privileges) {
      failures := failures + [Failure(row.table, Text("anon"), Unreadable)];
    }
    if !Within(row.authenticated, privileges) {
      failures := failures + [Failure(row.table, Text("authenticated"), Unreadable)];
    }
  }

  /** `legacy_pre_check_failures`: "not a first apply" is said only when nothing else is wrong, and then
      it is all that is said. */
  method LegacyPreCheckFailures(rows: seq<Security>, privileges: seq<Privilege>) returns (failures: seq<Failure>)
    ensures failures == [] <==> AllMeasured(rows, privileges) && SomethingHeld(rows)
    ensures AllMeasured(rows, privileges) && !SomethingHeld(rows) ==> failures == [Failure("legacy tables", Null, NotAFirstApply)]
    ensures !AllMeasured(rows, privileges) ==> NoneIsTheGate(failures)
  {
    hide Measured;
    if Tables(rows) != LEGACY_TABLES {
      return [Failure("legacy tables", Null, Unreadable)];
    }
    failures := [];
    for i := 0 to |rows|
      invariant failures == [] <==> forall k :: 0 <= k < i ==> Measured(rows[k], privileges)
      invariant NoneIsTheGate(failures)
    {
      var more := MeasuredFailures(rows[i], privileges);
      failures := failures + more;
    }
    var held := false;
    for i := 0 to |rows|
      invariant held <==> exists k :: 0 <= k < i && (rows[k].anon != [] || rows[k].authenticated != [])
    {
      if rows[i].anon != [] || rows[i].authenticated != [] {
        held := true;
      }
    }
    if failures == [] && !held {
      failures := [Failure("legacy tables", Null, NotAFirstApply)];
    }
  }

  function Named(rows: seq<SequenceRow>): seq<(string, string)> {
    seq(|rows|, i requires 0 <= i < |rows| => (rows[i].table, rows[i].sequence))
  }

  predicate SequencesReady(rows: seq<SequenceRow>) {
    Named(rows) == LEGACY_SEQUENCES && forall i :: 0 <= i < |rows| ==> !rows[i].publicHasAPrivilege
  }

  method SequencePreCheckFailures(rows: seq<SequenceRow>) returns (failures: seq<Failure>)
    ensures failures == [] <==> SequencesReady(rows)
    ensures NoneIsTheGate(failures)
  {
    var named := Named(rows) == LEGACY_SEQUENCES;
    failures := if named then [] else [Failure("sequences", Null, Unreadable)];
    for i := 0 to |rows|
      invariant failures == [] <==> named && forall k :: 0 <= k < i ==> !rows[k].publicHasAPrivilege
      invariant NoneIsTheGate(failures)
    {
      if rows[i].publicHasAPrivilege {
        failures := failures + [Failure(rows[i].sequence, Text("public_has_a_privilege"), Wrong)];
      }
    }
  }

  // ------------------------------------------------------------------ the applied posture

  predicate TableClosed(before: Security, after: Security) {
    && Shaped(after) && after.rowLevelSecurity && after.policies == before.policies
    && after.anon == [] && after.authenticated == [] && after.serviceRole == before.serviceRole
  }

  predicate LegacyClosed(pre: seq<Security>, post: seq<Security>) {
    && Tables(post) == LEGACY_TABLES && |pre| == |post|
    && forall i :: 0 <= i < |pre| ==> TableClosed(pre[i], post[i])
  }

  method LegacyPostCheckFailures(pre: seq<Security>, post: seq<Security>) returns (failures: seq<Failure>)
    ensures failures == [] <==> LegacyClosed(pre, post)
  {
    hide Shaped;
    if Tables(post) != LEGACY_TABLES || |pre| != |post| {
      return [Failure("legacy tables", Null, Unreadable)];
    }
    failures := [];
    for i := 0 to |pre|
      invariant failures == [] <==> forall k :: 0 <= k < i ==> TableClosed(pre[k], post[k])
    {
      var more := TableClosedFailures(pre[i], post[i]);
      failures := failures + more;
    }
  }

  method TableClosedFailures(before: Security, after: Security) returns (failures: seq<Failure>)
    ensures failures == [] <==> TableClosed(before, after)
  {
    hide Shaped;
    failures := TableShapeFailures(after);
    if !after.rowLevelSecurity {
      failures := failures + [Failure(after.table, Text("row_level_security"), Wrong)];
    }
    if after.policies != before.policies {
      failures := failures + [Failure(after.table, Text("policies"), Changed)];
    }
    if after.anon != [] {
      failures := failures + [Failure(after.table, Text("anon"), Wrong)];
    }
    if after.authenticated != [] {
      failures := failures + [Failure(after.table, Text("authenticated"), Wrong)];
    }
    if after.serviceRole != before.serviceRole {
      failures := failures + [Failure(after.table, Text("service_role"), Changed)];
    }
  }

  predicate SequenceClosed(before: SequenceRow, after: SequenceRow) {
    !after.publicHasAPrivilege && after.anon == [] && after.authenticated == [] && after.serviceRole == before.serviceRole
  }

  predicate SequencesClosed(pre: seq<SequenceRow>, post: seq<SequenceRow>) {
    && Named(post) == Named(pre) && |post| == |pre|
    && forall i :: 0 <= i < |pre| ==> SequenceClosed(pre[i], post[i])
  }

  method SequencePostCheckFailures(pre: seq<SequenceRow>, post: seq<SequenceRow>) returns (failures: seq<Failure>)
    ensures failures == [] <==> SequencesClosed(pre, post)
  {
    if Named(post) != Named(pre) {
      return [Failure("sequences", Null, Changed)];
    }
    assert |Named(post)| == |post| && |Named(pre)| == |pre|;
    failures := [];
    for i := 0 to |pre|
      invariant failures == [] <==> forall k :: 0 <= k < i ==> SequenceClosed(pre[k], post[k])
    {
      if post[i].publicHasAPrivilege {
        failures := failures + [Failure(post[i].sequence, Text("public_has_a_privilege"), Wrong)];
      }
      if post[i].anon != [] {
        failures := failures + [Failure(post[i].sequence, Text("anon"), Wrong)];
      }
      if post[i].authenticated != [] {
        failures := failures + [Failure(post[i].sequence, Text("authenticated"), Wrong)];
      }
      if post[i].serviceRole != pre[i].serviceRole {
        failures := failures + [Failure(post[i].sequence, Text("service_role"), Changed)];
      }
    }
  }

  // ------------------------------------------------------------------ the route

  /** `privileges`: every table privilege the server can grant. */
  predicate PrePasses(r: Reading, privileges: seq<Privilege>) {
    && AllMeasured(r.legacy, privileges) && SomethingHeld(r.legacy)
    && SequencesReady(r.sequences) && Tables(r.other) == OTHER_TABLES
  }

  /** The pre-checks: the legacy tables are judged first, and only then the sequences and the other tables
      read. The gate is named exactly when the tables are as measured and hold nothing, and then alone. */
  method PreCheckFailures(r: Reading, privileges: seq<Privilege>) returns (failures: seq<Failure>)
    ensures failures == [] <==> PrePasses(r, privileges)
    ensures NamesTheGate(failures) <==> AllMeasured(r.legacy, privileges) && !SomethingHeld(r.legacy)
    ensures NamesTheGate(failures) ==> |failures| == 1
  {
    failures := LegacyPreCheckFailures(r.legacy, privileges);
    hide AllMeasured, SomethingHeld, SequencesReady;
    if failures != [] {
      OrdinaryOrGate(failures);
      return;
    }
    failures := SequencePreCheckFailures(r.sequences);
    if Tables(r.other) != OTHER_TABLES {
      failures := failures + [Failure("other tables", Null, Unreadable)];
    }
    OrdinaryFailures(failures);
  }

  lemma OrdinaryOrGate(failures: seq<Failure>)
    requires failures == [Failure("legacy tables", Null, NotAFirstApply)] || NoneIsTheGate(failures)
    ensures NamesTheGate(failures) <==> failures == [Failure("legacy tables", Null, NotAFirstApply)]
  {
    if failures != [] {
      assert failures[0] in failures;
    }
  }

  predicate PostPasses(pre: Reading, post: Reading) {
    LegacyClosed(pre.legacy, post.legacy) && SequencesClosed(pre.sequences, post.sequences) && post.other == pre.other
  }

  method PostCheckFailures(pre: Reading, post: Reading) returns (failures: seq<Failure>)
    ensures failures == [] <==> PostPasses(pre, post)
  {
    hide LegacyClosed, SequencesClosed;
    var legacy := LegacyPostCheckFailures(pre.legacy, post.legacy);
    var sequences := SequencePostCheckFailures(pre.sequences, post.sequences);
    failures := legacy + sequences + if post.other == pre.other then [] else [Failure("other tables", Null, Changed)];
  }

  /** What 0010 is for: anon and authenticated emptied, nothing else. */
  function Closed(pre: Reading): Reading {
    Reading.Reading(
      seq(|pre.legacy|, i requires 0 <= i < |pre.legacy| => pre.legacy[i].(anon := [], authenticated := [])),
      seq(|pre.sequences|, i requires 0 <= i < |pre.sequences| => pre.sequences[i].(anon := [], authenticated := [])),
      pre.other)
  }

  lemma SameTable(before: Security, after: Security, privileges: seq<Privilege>)
    requires Measured(before, privileges)
    ensures after.table == before.table && TableClosed(before, after) <==> after == before.(anon := [], authenticated := [])
  {
  }

  /** MAIN: given a reading the pre-checks accept, the post-checks accept exactly the intended result. */
  lemma PostCheckIsExact(pre: Reading, post: Reading, privileges: seq<Privilege>)
    requires PrePasses(pre, privileges)
    ensures PostPasses(pre, post) <==> post == Closed(pre)
  {
    LegacyExact(pre.legacy, post.legacy, privileges);
    SequencesExact(pre.sequences, post.sequences);
    hide AllMeasured, LegacyClosed, SequencesClosed, SequencesReady, SomethingHeld;
  }

  lemma LegacyExact(pre: seq<Security>, post: seq<Security>, privileges: seq<Privilege>)
    requires AllMeasured(pre, privileges)
    ensures LegacyClosed(pre, post) <==>
      post == seq(|pre|, i requires 0 <= i < |pre| => pre[i].(anon := [], authenticated := []))
  {
    hide Measured, TableClosed;
    assert |Tables(pre)| == |pre|;
    if |post| == |pre| {
      forall i | 0 <= i < |pre|
        ensures post[i].table == pre[i].table && TableClosed(pre[i], post[i]) <==> post[i] == pre[i].(anon := [], authenticated := [])
        ensures Tables(post)[i] == post[i].table && Tables(pre)[i] == pre[i].table
      {
        assert Measured(pre[i], privileges);
        SameTable(pre[i], post[i], privileges);
      }
    }
  }

  lemma SequencesExact(pre: seq<SequenceRow>, post: seq<SequenceRow>)
    requires SequencesReady(pre)
    ensures SequencesClosed(pre, post) <==>
      post == seq(|pre|, i requires 0 <= i < |pre| => pre[i].(anon := [], authenticated := []))
  {
    if |post| == |pre| {
      forall i | 0 <= i < |pre|
        ensures Named(post)[i] == (post[i].table, post[i].sequence) && Named(pre)[i] == (pre[i].table, pre[i].sequence)
      {
      }
    }
  }

  /** MAIN: to the next applier the result is exactly as a first apply requires, but for the one thing the
      gate looks at: "not a first apply" is the only failure. */
  lemma OnlyTheGateRefuses(pre: Reading, post: Reading, privileges: seq<Privilege>)
    requires PrePasses(pre, privileges) && PostPasses(pre, post)
    ensures AllMeasured(post.legacy, privileges) && !SomethingHeld(post.legacy)
    ensures SequencesReady(post.sequences) && Tables(post.other) == OTHER_TABLES
    ensures !PrePasses(post, privileges)
  {
    PostCheckIsExact(pre, post, privileges);
    forall i | 0 <= i < |post.legacy| ensures Measured(post.legacy[i], privileges) {
      assert Measured(pre.legacy[i], privileges);
    }
    forall i | 0 <= i < |post.sequences| ensures Named(post.sequences)[i] == Named(pre.sequences)[i] {
    }
    assert Named(post.sequences) == Named(pre.sequences);
  }

  ghost function TheRoute(privileges: seq<Privilege>): Route<Reading> {
    Route(r => PrePasses(r, privileges), (pre, post) => PostPasses(pre, post))
  }

  /** MAIN: 0010 is committed at most once, and leaves the initial reading or the intended result of it. */
  lemma AppliedAtMostOnce(privileges: seq<Privilege>, init: Reading, n: nat, run: Schedule<Reading>)
    requires Possible(TheRoute(privileges), Start(init, n), run)
    ensures var w := After(TheRoute(privileges), Start(init, n), run);
      |w.log| <= 1 && (w.shared == init || (PrePasses(init, privileges) && w.shared == Closed(init)))
  {
    hide PrePasses, PostPasses;
    var route := TheRoute(privileges);
    forall a, b | route.pre(a) && route.post(a, b) ensures !route.pre(b) {
      OnlyTheGateRefuses(a, b, privileges);
    }
    AtMostOneCommit(route, init, n, run);
    var w := After(route, Start(init, n), run);
    if w.log != [] {
      PostCheckIsExact(init, w.shared, privileges);
    }
  }
}
