/** scripts/apply_migration_0014.py: four CHECK constraints, nine triggers and one function added. What a
    constraint says is read from the server's own deparse, by the tokenizers of Deparse.dfy. */
module Route0014 {
  import opened Options
  import opened Rows
  import opened Additions
  import opened ApplyProtocol
  import D = Deparse

  const TARGET_TABLES: seq<string> := ["prediction_feature_snapshots", "prediction_outcomes", "predictions"]
  const OTHER_TABLES: seq<string> := [
    "analysis_run_details", "analysis_runs", "analysis_timeframe_results", "app_events", "automation_credential",
    "automation_radar_ledger", "news_clusters", "news_evidence_links", "news_items", "prediction_derivatives_snapshots",
    "prediction_resolution_status", "provider_observations", "section_5a_evaluation_seal", "watchlist"]
  const FUNCTION_REFERENCE := "public.reject_core_evidence_mutation"

  datatype Constraint = Constraint(
    item: string, type_: string, validated: bool, deferrable: bool, definition: Option<string>, columns: seq<string>)

  datatype Trigger = Trigger(
    item: string, enabled: string, type_: int, function_: string, arguments: int, hasWhen: bool, constraintTrigger: bool)

  datatype TriggerFunction = TriggerFunction(
    function_: string, arguments: string, returns_: string, language: string, securityDefiner: bool, kind: string,
    config: seq<string>, ownedByApplyingRole: bool, source: string, executePublic: bool, executeAnon: bool,
    executeAuthenticated: bool, executeServiceRole: bool)

  /** A row known by its name; the rest is only ever compared. */
  datatype Named = Named(name: string, rest: Fields)

  datatype Reading = Reading(
    targets: seq<Security>,
    columns: seq<Named>,
    constraints: seq<Constraint>,
    indexes: seq<Named>,
    triggers: seq<Trigger>,
    functions: seq<TriggerFunction>,
    other: seq<Security>,
    otherSchema: seq<Named>,
    eventTriggers: seq<Named>)

  // ------------------------------------------------------------------ constraints

  datatype Check = Check(columns: seq<string>, literals: set<string>, numbers: set<string>, comparisons: seq<D.Comparison>)

  const SIMPLEX := "predictions.predictions_probability_simplex_chk"
  const REFERENCE_PRICE := "predictions.predictions_reference_price_chk"
  const CHRONOLOGY := "predictions.predictions_horizon_chronology_chk"
  const OUTCOME_PRICE := "prediction_outcomes.prediction_outcomes_reference_price_chk"
  const NEW_CONSTRAINTS: seq<string> := [SIMPLEX, REFERENCE_PRICE, CHRONOLOGY, OUTCOME_PRICE]

  function CheckOf(item: string): Check {
    if item == SIMPLEX then
      Check(["p_down_frac", "p_timeout_frac", "p_up_frac"], {}, {"0", "1", "0.000001"},
            [D.Ge, D.Le, D.Ge, D.Le, D.Ge, D.Le, D.Le])
    else if item == REFERENCE_PRICE then Check(["reference_price"], {"Infinity"}, {"0"}, [D.Gt, D.Lt])
    else if item == CHRONOLOGY then
      Check(["horizon_bars", "horizon_end_utc", "predicted_at_utc", "reference_close_utc"], {}, {"0"}, [D.Gt, D.Gt, D.Le])
    else Check(["outcome_reference_price"], {"Infinity"}, {"0"}, [D.Gt, D.Lt])
  }

  function ConstraintItem(row: Constraint): string {
    row.item
  }

  function ReviewDefinition(item: string, definition: string): seq<Failure> {
    (if D.ConstraintLiterals(definition) == CheckOf(item).literals then [] else [Failure(item, Text("literals"), Wrong)])
    + (if D.ConstraintNumbers(definition) == CheckOf(item).numbers then [] else [Failure(item, Text("numbers"), Wrong)])
    + (if D.ConstraintComparisons(definition) == CheckOf(item).comparisons then [] else [Failure(item, Text("comparisons"), Wrong)])
  }

  /** What is wrong with a new constraint: it is to be a NOT VALID CHECK, not deferrable, over its columns,
      with exactly its literals, numbers and comparisons. */
  function ReviewConstraint(item: string, row: Constraint): seq<Failure> {
    (if row.type_ == "c" then [] else [Failure(item, Text("type"), Wrong)])
    + (if !row.validated then [] else [Failure(item, Text("validated"), Wrong)])
    + (if !row.deferrable then [] else [Failure(item, Text("deferrable"), Wrong)])
    + (if row.columns == CheckOf(item).columns then [] else [Failure(item, Text("columns"), Wrong)])
    + (if row.definition == None then [Failure(item, Text("definition"), Unreadable)]
       else ReviewDefinition(item, row.definition.value))
  }

  /** MAIN: a definition printed by the server passes exactly when its literals, its stand-alone numbers
      and its comparisons in order are the reviewed ones, whatever its layout. */
  lemma PrintedDefinitionPasses(item: string, printed: seq<D.Piece>)
    requires D.WellPrinted(printed)
    ensures ReviewDefinition(item, D.Print(printed)) == [] <==>
      && (set v | v in D.LiteralsOf(printed)) == CheckOf(item).literals
      && (set w | w in D.Words(D.Skeleton(printed), true) && D.IsNumber(w, true)) == CheckOf(item).numbers
      && D.OperatorsOf(printed) == CheckOf(item).comparisons
  {
    D.LiteralsAreReadBack(printed);
    D.ComparisonsAreReadBack(printed);
    D.NumbersAreReadBack(printed);
    hide D.ConstraintLiterals, D.ConstraintNumbers, D.ConstraintComparisons, D.ConstraintIntegers, CheckOf;
  }

  // ------------------------------------------------------------------ triggers and the function

  const NEW_TRIGGERS: seq<string> := [
    "prediction_feature_snapshots.trg_pfs_reject_update", "prediction_feature_snapshots.trg_pfs_reject_delete",
    "prediction_feature_snapshots.trg_pfs_reject_truncate", "prediction_outcomes.trg_pout_reject_update",
    "prediction_outcomes.trg_pout_reject_delete", "prediction_outcomes.trg_pout_reject_truncate",
    "predictions.trg_pred_reject_update", "predictions.trg_pred_reject_delete", "predictions.trg_pred_reject_truncate"]

  predicate EndsWith(s: string, end: string) {
    |end| <= |s| && s[|s| - |end|..] == end
  }

  /** pg_trigger.tgtype: ROW 1, BEFORE 2, DELETE 8, UPDATE 16, TRUNCATE 32. */
  function Bits(item: string): int {
    if EndsWith(item, "_update") then 1 + 2 + 16 else if EndsWith(item, "_delete") then 1 + 2 + 8 else 2 + 32
  }

  function TriggerItem(row: Trigger): string {
    row.item
  }

  /** What is wrong with a new trigger: it is to be an enabled BEFORE trigger on the function. */
  function ReviewTrigger(item: string, row: Trigger): seq<Failure> {
    (if row.enabled == "O" then [] else [Failure(item, Text("enabled"), Wrong)])
    + (if row.type_ == Bits(item) then [] else [Failure(item, Text("type"), Wrong)])
    + (if row.function_ == FUNCTION_REFERENCE then [] else [Failure(item, Text("function"), Wrong)])
    + (if row.arguments == 0 then [] else [Failure(item, Text("arguments"), Wrong)])
    + (if !row.hasWhen then [] else [Failure(item, Text("has_when"), Wrong)])
    + (if !row.constraintTrigger then [] else [Failure(item, Text("constraint_trigger"), Wrong)])
  }

  predicate FunctionAsReviewed(rows: seq<TriggerFunction>, source: string) {
    && |rows| == 1
    && rows[0] == TriggerFunction(rows[0].function_, "", "trigger", "plpgsql", false, "f", ["search_path=pg_catalog, pg_temp"],
                              true, source, false, false, false, false)
  }

  method FunctionPostCheckFailures(rows: seq<TriggerFunction>, source: string) returns (failures: seq<Failure>)
    ensures failures == [] <==> FunctionAsReviewed(rows, source)
  {
    if |rows| != 1 {
      return [Failure(FUNCTION_REFERENCE, Null, if rows == [] then Missing else Repeated)];
    }
    var row := rows[0];
    failures := [];
    if row != TriggerFunction(row.function_, "", "trigger", "plpgsql", false, "f", ["search_path=pg_catalog, pg_temp"],
                          true, source, false, false, false, false) {
      failures := [Failure(FUNCTION_REFERENCE, Null, Wrong)];
    }
  }

  // ------------------------------------------------------------------ the route

  /** Something of 0014 is there. */
  ghost predicate SomethingApplied(r: Reading) {
    || SomeNamed(r.constraints, ConstraintItem, NEW_CONSTRAINTS)
    || SomeNamed(r.triggers, TriggerItem, NEW_TRIGGERS)
    || r.functions != []
  }

  predicate OtherwiseReady(r: Reading) {
    TablesReady(r.targets, TARGET_TABLES) && Tables(r.other) == OTHER_TABLES
  }

  /** `pre_check_failures` finds nothing. */
  ghost predicate PrePasses(r: Reading) {
    !SomethingApplied(r) && OtherwiseReady(r)
  }

  /** `pre_check_failures` */
  method PreCheckFailures(r: Reading) returns (failures: seq<Failure>)
    ensures failures == [] <==> PrePasses(r)
    ensures NamesTheGate(failures) <==> SomethingApplied(r)
    ensures AllAreTheGate(failures) <==> OtherwiseReady(r)
  {
    hide TablesReady, SomeNamed;
    var targets := TablesFailures(r.targets, TARGET_TABLES);
    var constraints := NamedGate("constraint", r.constraints, ConstraintItem, NEW_CONSTRAINTS);
    var triggers := NamedGate("trigger", r.triggers, TriggerItem, NEW_TRIGGERS);
    var functions := if r.functions != [] then TheGate("function", Null) else [];
    var other: seq<Failure> := if Tables(r.other) != OTHER_TABLES then [Failure("other tables", Null, Unreadable)] else [];
    failures := targets + constraints + triggers + functions + other;
    OrdinaryFailures(targets);
    OrdinaryFailures(other);
    GatesOfBoth(targets, constraints);
    GatesOfBoth(targets + constraints, triggers);
    GatesOfBoth(targets + constraints + triggers, functions);
    GatesOfBoth(targets + constraints + triggers + functions, other);
    hide NamesTheGate, AllAreTheGate, NoneIsTheGate;
  }

  /** `post_check_failures` finds nothing. `source`: the function's body in the migration. */
  predicate PostPasses(pre: Reading, post: Reading, source: string) {
    && post.targets == pre.targets && post.columns == pre.columns
    && AddedAsReviewed(pre.constraints, post.constraints, ConstraintItem, NEW_CONSTRAINTS, ReviewConstraint)
    && post.indexes == pre.indexes
    && AddedAsReviewed(pre.triggers, post.triggers, TriggerItem, NEW_TRIGGERS, ReviewTrigger)
    && FunctionAsReviewed(post.functions, source)
    && post.other == pre.other && post.otherSchema == pre.otherSchema && post.eventTriggers == pre.eventTriggers
  }

  method PostCheckFailures(pre: Reading, post: Reading, source: string) returns (failures: seq<Failure>)
    ensures failures == [] <==> PostPasses(pre, post, source)
  {
    hide AddedAsReviewed, FunctionAsReviewed;
    var targets := UnchangedFailures("security of table", (row: Security) => Text(row.table), pre.targets, post.targets);
    var columns := UnchangedFailures("column", (row: Named) => Text(row.name), pre.columns, post.columns);
    var constraints := AdditionFailures("constraint", pre.constraints, post.constraints, ConstraintItem, NEW_CONSTRAINTS, ReviewConstraint);
    var indexes := UnchangedFailures("index", (row: Named) => Text(row.name), pre.indexes, post.indexes);
    var triggers := AdditionFailures("trigger", pre.triggers, post.triggers, TriggerItem, NEW_TRIGGERS, ReviewTrigger);
    var function_ := FunctionPostCheckFailures(post.functions, source);
    var other := UnchangedFailures("security of table", (row: Security) => Text(row.table), pre.other, post.other);
    var schema := UnchangedFailures("schema item", (row: Named) => Text(row.name), pre.otherSchema, post.otherSchema);
    var events := UnchangedFailures("event trigger", (row: Named) => Text(row.name), pre.eventTriggers, post.eventTriggers);
    failures := targets + columns + constraints + indexes + triggers + function_ + other + schema + events;
  }

  /** MAIN: the next applier is refused for every constraint, every trigger and the function, and for
      nothing else. */
  lemma AppliedIsRefused(pre: Reading, post: Reading, source: string)
    requires PrePasses(pre) && PostPasses(pre, post, source)
    ensures SomethingApplied(post) && OtherwiseReady(post) && !PrePasses(post) && post.functions != []
    ensures forall k :: 0 <= k < |NEW_CONSTRAINTS| ==> HasItem(post.constraints, ConstraintItem, NEW_CONSTRAINTS[k])
    ensures forall k :: 0 <= k < |NEW_TRIGGERS| ==> HasItem(post.triggers, TriggerItem, NEW_TRIGGERS[k])
  {
    hide TablesReady;
    NewItemsAreThere(pre.constraints, post.constraints, ConstraintItem, NEW_CONSTRAINTS, ReviewConstraint);
    NewItemsAreThere(pre.triggers, post.triggers, TriggerItem, NEW_TRIGGERS, ReviewTrigger);
  }

  ghost function TheRoute(source: string): Route<Reading> {
    Route(r => PrePasses(r), (pre, post) => PostPasses(pre, post, source))
  }

  /** MAIN: 0014 is committed at most once, over every run of any number of appliers, and every later applier
      is refused as not the first and for nothing else. */
  lemma AppliedAtMostOnce(source: string, init: Reading, n: nat, run: Schedule<Reading>)
    requires Possible(TheRoute(source), Start(init, n), run)
    ensures var w := After(TheRoute(source), Start(init, n), run);
      && |w.log| <= 1
      && (w.log == [] ==> w.shared == init)
      && (w.log != [] ==> && PrePasses(init) && PostPasses(init, w.shared, source)
                          && SomethingApplied(w.shared) && OtherwiseReady(w.shared))
  {
    hide PrePasses, PostPasses, SomethingApplied, OtherwiseReady;
    var route := TheRoute(source);
    forall a, b | route.pre(a) && route.post(a, b) ensures !route.pre(b) {
      AppliedIsRefused(a, b, source);
    }
    AtMostOneCommit(route, init, n, run);
    var w := After(route, Start(init, n), run);
    if w.log != [] {
      AppliedIsRefused(init, w.shared, source);
    }
  }
}
