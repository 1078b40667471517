/** scripts/apply_migration_0011.py: four columns appended to predictions and three constraints added. */
module Route0011 {
  import opened Options
  import opened Rows
  import opened ApplyProtocol
  import opened Additions
  import Deparse

  const TABLE := "predictions"
  const NEW_COLUMN_TYPES: seq<(string, string)> := [
    ("target_version", "text"),
    ("reference_venue", "text"),
    ("core_computed_at_utc", "timestamp with time zone"),
    ("issued_at_utc", "timestamp with time zone")]
  const OTHER_TABLES: seq<string> := [
    "analysis_run_details", "analysis_runs", "analysis_timeframe_results", "app_events", "news_clusters",
    "news_evidence_links", "news_items", "prediction_derivatives_snapshots", "prediction_feature_snapshots",
    "prediction_outcomes", "provider_observations", "section_5a_evaluation_seal", "watchlist"]

  datatype Column = Column(
    name: string, type_: string, notNull: bool, hasDefault: bool, identity: bool, generated: bool, columnAcl: bool)

  datatype Constraint = Constraint(
    name: string, type_: string, validated: bool, definition: Option<string>, columns: seq<string>)

  /** A row known by its name; the rest is only ever compared. */
  datatype Named = Named(name: string, rest: Fields)

  datatype Reading = Reading(
    predictions: seq<Security>,
    columns: seq<Column>,
    constraints: seq<Constraint>,
    indexes: seq<Named>,
    triggers: seq<Named>,
    other: seq<Security>)

  // ------------------------------------------------------------------ columns

  /** Nullable, with no default, identity, generation or column grant. */
  function Reviewed(c: (string, string)): Column {
    Column(c.0, c.1, false, false, false, false, false)
  }

  function ReviewedColumns(cs: seq<(string, string)>): seq<Column> {
    seq(|cs|, i requires 0 <= i < |cs| => Reviewed(cs[i]))
  }

  const NEW_COLUMNS: seq<Column> := ReviewedColumns(NEW_COLUMN_TYPES)

  function NameOf(c: Column): string {
    c.name
  }

  /** The source's checks of one new column: of its type, and every flag off. */
  function ReviewColumn(k: int, row: Column): seq<Failure> {
    if !(0 <= k < |NEW_COLUMNS|) then []
    else
      (if row.type_ == NEW_COLUMNS[k].type_ then [] else [Failure(row.name, Text("type"), Wrong)])
      + FlagFailures(row)
  }

  function FlagFailures(row: Column): seq<Failure> {
    (if !row.notNull then [] else [Failure(row.name, Text("not_null"), Wrong)])
    + (if !row.hasDefault then [] else [Failure(row.name, Text("has_default"), Wrong)])
    + (if !row.identity then [] else [Failure(row.name, Text("identity"), Wrong)])
    + (if !row.generated then [] else [Failure(row.name, Text("generated"), Wrong)])
    + (if !row.columnAcl then [] else [Failure(row.name, Text("column_acl"), Wrong)])
  }

  /** The columns after the existing ones: their names in order, and each as reviewed. */
  method AppendedFailures(appended: seq<Column>) returns (failures: seq<Failure>)
    ensures failures == [] <==> appended == NEW_COLUMNS
  {
    failures := ListFailures(TABLE, appended, NameOf, Keys(NEW_COLUMNS, NameOf), ReviewColumn);
    var names := Keys(NEW_COLUMNS, NameOf);
    assert forall k :: 0 <= k < 4 ==> names[k] == NEW_COLUMN_TYPES[k].0;
    NewColumnsAreDistinct(names);
    JustThese(appended, NameOf, NEW_COLUMNS, ReviewColumn);
  }

  lemma NewColumnsAreDistinct(names: seq<string>)
    requires names == ["target_version", "reference_venue", "core_computed_at_utc", "issued_at_utc"]
    ensures Distinct(names)
  {
    assert names[0][0] == 't' && names[1][0] == 'r' && names[2][0] == 'c' && names[3][0] == 'i';
  }

  /** MAIN: nothing to report exactly when the columns are those there were, unchanged and in order,
      followed by precisely the four reviewed ones with every flag off. */
  method ColumnPostCheckFailures(pre: seq<Column>, post: seq<Column>) returns (failures: seq<Failure>)
    ensures failures == [] <==> post == pre + NEW_COLUMNS
  {
    failures := [];
    for position := 0 to |pre|
      invariant failures == [] <==> position <= |post| && post[..position] == pre[..position]
    {
      if position >= |post| || post[position] != pre[position] {
        failures := failures + [Failure("column", Text(pre[position].name), Changed)];
      }
    }
    ghost var kept := failures == [];
    var appended := if |pre| <= |post| then post[|pre|..] else [];
    var more := AppendedFailures(appended);
    failures := failures + more;
    assert pre[..|pre|] == pre;
    if kept && appended == NEW_COLUMNS {
      assert post == post[..|pre|] + post[|pre|..];
    }
    if post == pre + NEW_COLUMNS {
      assert post[..|pre|] == pre && post[|pre|..] == NEW_COLUMNS;
    }
  }

  // ------------------------------------------------------------------ constraints

  const NEW_CONSTRAINTS: seq<string> := [
    "predictions_target_version_chk", "predictions_reference_venue_chk", "predictions_target_stamp_chk"]

  function ColumnsOf(name: string): seq<string> {
    if name == "predictions_target_version_chk" then ["target_version"]
    else if name == "predictions_reference_venue_chk" then ["reference_venue"]
    else ["core_computed_at_utc", "issued_at_utc", "reference_venue", "target_version"]
  }

  function LiteralsOf(name: string): set<string> {
    if name == "predictions_target_version_chk" then {"tc-v1"}
    else if name == "predictions_reference_venue_chk" then {"BINANCE_PUBLIC", "OKX_PUBLIC"}
    else {}
  }

  function ConstraintName(row: Constraint): string {
    row.name
  }

  /** What is wrong with a new constraint: it is to be a validated CHECK over its columns, with exactly
      its quoted literals. */
  function ReviewConstraint(name: string, row: Constraint): seq<Failure> {
    (if row.type_ == "c" then [] else [Failure(name, Text("type"), Wrong)])
    + (if row.validated then [] else [Failure(name, Text("validated"), Wrong)])
    + (if row.columns == ColumnsOf(name) then [] else [Failure(name, Text("columns"), Wrong)])
    + (if row.definition == None then [Failure(name, Text("definition"), Unreadable)]
       else if Deparse.ConstraintLiterals(row.definition.value) == LiteralsOf(name) then []
       else [Failure(name, Text("definition"), Wrong)])
  }

  predicate ConstraintsAdded(pre: seq<Constraint>, post: seq<Constraint>) {
    AddedAsReviewed(pre, post, ConstraintName, NEW_CONSTRAINTS, ReviewConstraint)
  }

  /** A definition printed by the server passes exactly when its literals are the reviewed ones, however
      it is laid out. */
  lemma PrintedDefinitionPasses(name: string, row: Constraint, printed: seq<Deparse.Piece>)
    requires Deparse.WellQuoted(printed) && row.definition == Some(Deparse.Print(printed))
    ensures ReviewConstraint(name, row) == [] <==>
      && row.type_ == "c" && row.validated && row.columns == ColumnsOf(name)
      && (set v | v in Deparse.LiteralsOf(printed)) == LiteralsOf(name)
  {
    Deparse.LiteralsAreReadBack(printed);
  }

  // ------------------------------------------------------------------ the route

  /** Something of 0011 is there. */
  ghost predicate SomethingApplied(r: Reading) {
    || SomeNamed(r.columns, NameOf, Keys(NEW_COLUMNS, NameOf))
    || SomeNamed(r.constraints, ConstraintName, NEW_CONSTRAINTS)
  }

  predicate OtherwiseReady(r: Reading) {
    TablesReady(r.predictions, [TABLE]) && Tables(r.other) == OTHER_TABLES
  }

  /** `pre_check_failures` finds nothing. */
  ghost predicate PrePasses(r: Reading) {
    !SomethingApplied(r) && OtherwiseReady(r)
  }

  /** `post_check_failures` finds nothing. */
  predicate PostPasses(pre: Reading, post: Reading) {
    && post.predictions == pre.predictions
    && post.columns == pre.columns + NEW_COLUMNS
    && ConstraintsAdded(pre.constraints, post.constraints)
    && post.indexes == pre.indexes && post.triggers == pre.triggers && post.other == pre.other
  }

  method PostCheckFailures(pre: Reading, post: Reading) returns (failures: seq<Failure>)
    ensures failures == [] <==> PostPasses(pre, post)
  {
    hide AddedAsReviewed;
    var predictions := UnchangedFailures("security of table", (row: Security) => Text(row.table), pre.predictions, post.predictions);
    var columns := ColumnPostCheckFailures(pre.columns, post.columns);
    var constraints := AdditionFailures("constraint", pre.constraints, post.constraints, ConstraintName, NEW_CONSTRAINTS, ReviewConstraint);
    var indexes := UnchangedFailures("index", (row: Named) => Text(row.name), pre.indexes, post.indexes);
    var triggers := UnchangedFailures("trigger", (row: Named) => Text(row.name), pre.triggers, post.triggers);
    var other := UnchangedFailures("security of table", (row: Security) => Text(row.table), pre.other, post.other);
    failures := predictions + columns + constraints + indexes + triggers + other;
  }

  /** `pre_check_failures` */
  method PreCheckFailures(r: Reading) returns (failures: seq<Failure>)
    ensures failures == [] <==> PrePasses(r)
    ensures NamesTheGate(failures) <==> SomethingApplied(r)
    ensures AllAreTheGate(failures) <==> OtherwiseReady(r)
  {
    hide TablesReady, SomeNamed, Keys;
    var predictions := TablesFailures(r.predictions, [TABLE]);
    var columns := NamedGate("column", r.columns, NameOf, Keys(NEW_COLUMNS, NameOf));
    var constraints := NamedGate("constraint", r.constraints, ConstraintName, NEW_CONSTRAINTS);
    var other: seq<Failure> := if Tables(r.other) != OTHER_TABLES then [Failure("other tables", Null, Unreadable)] else [];
    failures := predictions + columns + constraints + other;
    OrdinaryFailures(predictions);
    OrdinaryFailures(other);
    GatesOfBoth(predictions, columns);
    GatesOfBoth(predictions + columns, constraints);
    GatesOfBoth(predictions + columns + constraints, other);
    hide NamesTheGate, AllAreTheGate, NoneIsTheGate;
  }

  /** MAIN: the applied result is refused as not a first apply, for its columns and its constraints, and
      its predictions and other tables are still as a first apply requires: that is the only reason. */
  lemma AppliedIsRefused(pre: Reading, post: Reading)
    requires PrePasses(pre) && PostPasses(pre, post)
    ensures SomethingApplied(post) && OtherwiseReady(post) && !PrePasses(post)
    ensures forall k :: 0 <= k < |NEW_COLUMNS| ==> NEW_COLUMNS[k] in post.columns
    ensures forall k :: 0 <= k < |NEW_CONSTRAINTS| ==> HasItem(post.constraints, ConstraintName, NEW_CONSTRAINTS[k])
  {
    forall k | 0 <= k < |NEW_COLUMNS| ensures NEW_COLUMNS[k] in post.columns {
      assert post.columns[|pre.columns| + k] == NEW_COLUMNS[k];
    }
    NewItemsAreThere(pre.constraints, post.constraints, ConstraintName, NEW_CONSTRAINTS, ReviewConstraint);
  }

  ghost function TheRoute(): Route<Reading> {
    Route(r => PrePasses(r), (pre, post) => PostPasses(pre, post))
  }

  /** MAIN: 0011 is committed at most once, over every run of any number of appliers, and every later applier
      is refused as not the first and for nothing else. */
  lemma AppliedAtMostOnce(init: Reading, n: nat, run: Schedule<Reading>)
    requires Possible(TheRoute(), Start(init, n), run)
    ensures var w := After(TheRoute(), Start(init, n), run);
      && |w.log| <= 1
      && (w.log == [] ==> w.shared == init)
      && (w.log != [] ==> PrePasses(init) && PostPasses(init, w.shared) && SomethingApplied(w.shared) && OtherwiseReady(w.shared))
  {
    hide PrePasses, PostPasses, SomethingApplied, OtherwiseReady;
    var route := TheRoute();
    forall a, b | route.pre(a) && route.post(a, b) ensures !route.pre(b) {
      AppliedIsRefused(a, b);
    }
    AtMostOneCommit(route, init, n, run);
    var w := After(route, Start(init, n), run);
    if w.log != [] {
      AppliedIsRefused(init, w.shared);
    }
  }
}
