/** scripts/apply_migration_0013.py: six relations where there was none, and nothing else touched. */
module Route0013 {
  import opened Rows
  import opened ApplyProtocol
  import opened NewTables

  const EXISTING_TABLES: seq<string> := [
    "analysis_run_details", "analysis_runs", "analysis_timeframe_results", "app_events", "news_clusters",
    "news_evidence_links", "news_items", "prediction_derivatives_snapshots", "prediction_feature_snapshots",
    "prediction_outcomes", "prediction_resolution_status", "predictions", "provider_observations",
    "section_5a_evaluation_seal", "watchlist"]

  /** A row known by its table; the other columns are only ever compared. */
  datatype SchemaOf = SchemaOf(table: string, rest: Fields)

  /** `created`: the new tables, read only after the migration. */
  datatype Reading = Reading(
    relations: seq<RelationRow>,
    existing: seq<Security>,
    existingSchema: seq<SchemaOf>,
    eventTriggers: seq<(string, Fields)>,
    created: Created)

  // ------------------------------------------------------------------ the relations

  const RELATION_NAMES: seq<string> := [
    "ac_secret_sha256_unique", "arl_credential_received", "automation_credential", "automation_credential_pkey",
    "automation_radar_ledger", "automation_radar_ledger_pkey"]

  /** `count`: as read, whatever it is. */
  datatype RelationRow = RelationRow(relation: string, count: Value)

  function RelationsRead(rows: seq<RelationRow>): seq<string> {
    seq(|rows|, i requires 0 <= i < |rows| => rows[i].relation)
  }

  predicate Each(rows: seq<RelationRow>, n: int) {
    RelationsRead(rows) == RELATION_NAMES && forall i :: 0 <= i < |rows| ==> rows[i].count == Int(n)
  }

  /** A count above none: the relation is there. A count that is no count is no reason to say so. */
  predicate ThereAlready(rows: seq<RelationRow>) {
    RelationsRead(rows) == RELATION_NAMES && exists i :: 0 <= i < |rows| && rows[i].count.Int? && rows[i].count.n > 0
  }

  predicate Counted(rows: seq<RelationRow>) {
    RelationsRead(rows) == RELATION_NAMES && forall i :: 0 <= i < |rows| ==> rows[i].count.Int? && rows[i].count.n >= 0
  }

  /** `relation_pre_check_failures` */
  method RelationPreCheckFailures(rows: seq<RelationRow>) returns (failures: seq<Failure>)
    ensures failures == [] <==> Each(rows, 0)
    ensures NamesTheGate(failures) <==> ThereAlready(rows)
    ensures AllAreTheGate(failures) <==> Counted(rows)
  {
    if RelationsRead(rows) != RELATION_NAMES {
      failures := [Failure("relations", Null, Unreadable)];
      OrdinaryFailures(failures);
      return;
    }
    failures := [];
    for i := 0 to |rows|
      invariant failures == [] <==> forall k :: 0 <= k < i ==> rows[k].count == Int(0)
      invariant NamesTheGate(failures) <==> exists k :: 0 <= k < i && rows[k].count.Int? && rows[k].count.n > 0
      invariant AllAreTheGate(failures) <==> forall k :: 0 <= k < i ==> rows[k].count.Int? && rows[k].count.n >= 0
    {
      var more := CountFailures(rows[i]);
      GatesOfBoth(failures, more);
      failures := failures + more;
      hide NamesTheGate, AllAreTheGate;
    }
  }

  function CountFailures(row: RelationRow): (failures: seq<Failure>)
    ensures failures == [] <==> row.count == Int(0)
    ensures NamesTheGate(failures) <==> row.count.Int? && row.count.n > 0
    ensures AllAreTheGate(failures) <==> row.count.Int? && row.count.n >= 0
  {
    if !row.count.Int? || row.count.n < 0 then
      var odd := [Failure("relations", Text(row.relation), Unreadable)];
      OrdinaryFailures(odd);
      odd
    else if row.count.n != 0 then TheGate("relations", Text(row.relation))
    else []
  }

  /** `relation_post_check_failures` */
  method RelationPostCheckFailures(rows: seq<RelationRow>) returns (failures: seq<Failure>)
    ensures failures == [] <==> Each(rows, 1)
  {
    if RelationsRead(rows) != RELATION_NAMES {
      return [Failure("relations", Null, Unreadable)];
    }
    failures := [];
    for i := 0 to |rows|
      invariant failures == [] <==> forall k :: 0 <= k < i ==> rows[k].count == Int(1)
    {
      if rows[i].count != Int(1) {
        failures := failures + [Failure("relations", Text(rows[i].relation), Wrong)];
      }
    }
  }

  lemma CreatedIsThere(rows: seq<RelationRow>)
    requires Each(rows, 1)
    ensures !Each(rows, 0) && ThereAlready(rows) && Counted(rows)
  {
    assert |RelationsRead(rows)| == |rows| == 6;
    assert rows[0].count == Int(1);
  }

  // ------------------------------------------------------------------ the whole route

  function SchemasRead(rows: seq<SchemaOf>): seq<string> {
    seq(|rows|, i requires 0 <= i < |rows| => rows[i].table)
  }

  predicate ExistingReady(r: Reading) {
    Tables(r.existing) == EXISTING_TABLES && SchemasRead(r.existingSchema) == EXISTING_TABLES
  }

  predicate PrePasses(r: Reading) {
    Each(r.relations, 0) && ExistingReady(r)
  }

  /** `pre_check_failures`: "not a first apply" exactly when a relation is there already, and nothing else
      exactly when the rest could be read. */
  method PreCheckFailures(r: Reading) returns (failures: seq<Failure>)
    ensures failures == [] <==> PrePasses(r)
    ensures NamesTheGate(failures) <==> ThereAlready(r.relations)
    ensures AllAreTheGate(failures) <==> Counted(r.relations) && ExistingReady(r)
  {
    var relations := RelationPreCheckFailures(r.relations);
    hide Each, ThereAlready, Counted;
    var existing: seq<Failure> := if Tables(r.existing) != EXISTING_TABLES then [Failure("existing tables", Null, Unreadable)] else [];
    var schemas: seq<Failure> :=
      if SchemasRead(r.existingSchema) != EXISTING_TABLES then [Failure("existing schema", Null, Unreadable)] else [];
    failures := relations + existing + schemas;
    OrdinaryFailures(existing);
    OrdinaryFailures(schemas);
    GatesOfBoth(relations, existing);
    GatesOfBoth(relations + existing, schemas);
    hide NamesTheGate, AllAreTheGate;
  }

  predicate PostPasses(pre: Reading, post: Reading, reviewed: Reviewed) {
    && Each(post.relations, 1)
    && AsReviewed(post.created, reviewed)
    && post.existing == pre.existing && post.existingSchema == pre.existingSchema && post.eventTriggers == pre.eventTriggers
  }

  /** `post_check_failures` */
  method PostCheckFailures(pre: Reading, post: Reading, reviewed: Reviewed) returns (failures: seq<Failure>)
    ensures failures == [] <==> PostPasses(pre, post, reviewed)
  {
    hide Each, AsReviewed;
    var relations := RelationPostCheckFailures(post.relations);
    var existing := UnchangedFailures("security of table", (row: Security) => Text(row.table), pre.existing, post.existing);
    var schemas := UnchangedFailures("schema of table", (row: SchemaOf) => Text(row.table), pre.existingSchema, post.existingSchema);
    var events := UnchangedFailures("event trigger", (row: (string, Fields)) => Text(row.0), pre.eventTriggers, post.eventTriggers);
    var created := CreatedFailures(post.created, reviewed);
    failures := relations + created + existing + schemas + events;
  }

  /** MAIN: what passed the post-checks is refused by the next pre-checks as not a first apply, and for
      nothing else. */
  lemma AppliedIsRefused(pre: Reading, post: Reading, reviewed: Reviewed)
    requires PrePasses(pre) && PostPasses(pre, post, reviewed)
    ensures ThereAlready(post.relations) && !PrePasses(post)
    ensures Counted(post.relations) && ExistingReady(post)
  {
    CreatedIsThere(post.relations);
  }

  ghost function TheRoute(reviewed: Reviewed): Route<Reading> {
    Route(r => PrePasses(r), (pre, post) => PostPasses(pre, post, reviewed))
  }

  /** MAIN: so over every run of any number of appliers 0013 is committed at most once, on a reading that
      passed, and every later applier is refused as not the first and for nothing else. */
  lemma AppliedAtMostOnce(reviewed: Reviewed, init: Reading, n: nat, run: Schedule<Reading>)
    requires Possible(TheRoute(reviewed), Start(init, n), run)
    ensures var w := After(TheRoute(reviewed), Start(init, n), run);
      && |w.log| <= 1
      && (w.log == [] ==> w.shared == init)
      && (w.log != [] ==> && PrePasses(init) && PostPasses(init, w.shared, reviewed)
                          && ThereAlready(w.shared.relations) && Counted(w.shared.relations) && ExistingReady(w.shared))
  {
    hide Each, ThereAlready, Counted, ExistingReady;
    var route, open := TheRoute(reviewed), (r: Reading) => Each(r.relations, 0);
    forall a, b | route.post(a, b) ensures !open(b) {
      CreatedIsThere(b.relations);
    }
    AGateMakesItOneShot(route, open, init, n, run);
    var w := After(route, Start(init, n), run);
    if w.log != [] {
      AppliedIsRefused(init, w.shared, reviewed);
    }
  }
}
