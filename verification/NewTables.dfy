/** What scripts/apply_migration_0013.py requires of the two tables it creates. */
module NewTables {
  // The reviewed data (columns, constraints, indexes and probes) is a parameter: what is proved holds for
  // any. The columns of a row have the types their query gives them, so equal values are equal and of
  // one type; a count is read as it comes.

  import opened Options
  import opened Rows
  import opened Additions
  import D = Deparse
  import P = Probes

  const TABLES: seq<string> := ["automation_credential", "automation_radar_ledger"]

  // ------------------------------------------------------------------ what is read

  datatype Column = Column(
    name: string, type_: string, notNull: bool, default_: Option<string>, identity: bool, generated: bool, columnAcl: bool)

  datatype Constraint = Constraint(
    name: string, type_: string, validated: bool, deferrable: bool, definition: Option<string>, columns: seq<string>)

  datatype Index = Index(
    name: string, unique: bool, primary: bool, columns: seq<string>, predicate_: Option<string>, accessMethod: string, valid: bool,
    ready: bool, immediate: bool, exclusion: bool, includedColumns: int, expressions: bool, defaultOrder: bool)

  /** One table's reads; `referencing` and `rowCount` are counts, `triggers` names. */
  datatype TableRead = TableRead(
    columns: seq<Column>, constraints: seq<Constraint>, referencing: Value, indexes: seq<Index>, triggers: seq<string>, rowCount: Value)

  /** Both tables, and what the probes showed. */
  datatype Created = Created(security: seq<Security>, registry: TableRead, ledger: TableRead, probes: seq<P.Outcome>)

  // ------------------------------------------------------------------ what was reviewed

  /** One entry of EXPECTED_CONSTRAINTS, of EXPECTED_INDEXES; each dict is listed in the order of its names. */
  datatype Check = Check(name: string, kind: string, columns: seq<string>, literals: set<string>, integers: set<int>)
  datatype Key = Key(name: string, unique: bool, primary: bool, columns: seq<string>)

  datatype ReviewedTable = ReviewedTable(
    columns: seq<(string, string, bool, Option<string>)>, constraints: seq<Check>, indexes: seq<Key>)

  datatype Reviewed = Reviewed(registry: ReviewedTable, ledger: ReviewedTable, probes: seq<P.Probe>)

  /** A reviewed column, with every flag off. */
  function ColumnOf(c: (string, string, bool, Option<string>)): Column {
    Column(c.0, c.1, c.2, c.3, false, false, false)
  }

  function ColumnsOf(cs: seq<(string, string, bool, Option<string>)>): seq<Column> {
    seq(|cs|, i requires 0 <= i < |cs| => ColumnOf(cs[i]))
  }

  /** A reviewed index, with INDEX_STRUCTURE. */
  function IndexOf(k: Key): Index {
    Index(k.name, k.unique, k.primary, k.columns, None, "btree", true, true, true, false, 0, false, true)
  }

  function IndexesOf(ks: seq<Key>): seq<Index> {
    seq(|ks|, i requires 0 <= i < |ks| => IndexOf(ks[i]))
  }

  function NameOfColumn(c: Column): string {
    c.name
  }

  function NameOfIndex(i: Index): string {
    i.name
  }

  function NameOfConstraint(c: Constraint): string {
    c.name
  }

  function NameOfCheck(c: Check): string {
    c.name
  }

  // ------------------------------------------------------------------ columns and indexes

  function ReviewColumn(wanted: seq<Column>): (int, Column) -> seq<Failure> {
    (k: int, row: Column) =>
      if !(0 <= k < |wanted|) then []
      else
        var w := wanted[k];
        (if row.type_ == w.type_ then [] else [Failure(row.name, Text("type"), Wrong)])
        + (if row.notNull == w.notNull then [] else [Failure(row.name, Text("not_null"), Wrong)])
        + (if row.default_ == w.default_ then [] else [Failure(row.name, Text("default"), Wrong)])
        + (if row.identity == w.identity then [] else [Failure(row.name, Text("identity"), Wrong)])
        + (if row.generated == w.generated then [] else [Failure(row.name, Text("generated"), Wrong)])
        + (if row.columnAcl == w.columnAcl then [] else [Failure(row.name, Text("column_acl"), Wrong)])
  }

  /** `column_post_check_failures`: exactly the reviewed columns, in order, with every flag off. */
  method ColumnFailures(table: string, rows: seq<Column>, reviewed: seq<(string, string, bool, Option<string>)>)
    returns (failures: seq<Failure>)
    ensures failures == [] <==> rows == ColumnsOf(reviewed) && Distinct(Keys(ColumnsOf(reviewed), NameOfColumn))
  {
    var wanted := ColumnsOf(reviewed);
    failures := ListFailures(table, rows, NameOfColumn, Keys(wanted, NameOfColumn), ReviewColumn(wanted));
    JustThese(rows, NameOfColumn, wanted, ReviewColumn(wanted));
  }

  function ReviewIndex(wanted: seq<Index>): (int, Index) -> seq<Failure> {
    (k: int, row: Index) =>
      if !(0 <= k < |wanted|) then []
      else
        var w := wanted[k];
        (if row.unique == w.unique then [] else [Failure(row.name, Text("unique"), Wrong)])
        + (if row.primary == w.primary then [] else [Failure(row.name, Text("primary"), Wrong)])
        + (if row.columns == w.columns then [] else [Failure(row.name, Text("columns"), Wrong)])
        + ReviewStructure(row, w)
  }

  function ReviewStructure(row: Index, w: Index): seq<Failure> {
    if row.(name := w.name, unique := w.unique, primary := w.primary, columns := w.columns) == w then []
    else [Failure(row.name, Text("structure"), Wrong)]
  }

  /** `index_post_check_failures`: exactly the reviewed indexes, of the one structure. */
  method IndexFailures(table: string, rows: seq<Index>, reviewed: seq<Key>) returns (failures: seq<Failure>)
    ensures failures == [] <==> rows == IndexesOf(reviewed) && Distinct(Keys(IndexesOf(reviewed), NameOfIndex))
  {
    var wanted := IndexesOf(reviewed);
    failures := ListFailures(table, rows, NameOfIndex, Keys(wanted, NameOfIndex), ReviewIndex(wanted));
    JustThese(rows, NameOfIndex, wanted, ReviewIndex(wanted));
  }

  // ------------------------------------------------------------------ constraints

  /** The row of a reviewed constraint: validated, never deferrable, and with just its literals and integers. */
  predicate AsChecked(row: Constraint, c: Check) {
    && row == Constraint(c.name, c.kind, true, false, row.definition, c.columns)
    && row.definition.Some?
    && D.ConstraintLiterals(row.definition.value) == c.literals
    && D.ConstraintIntegers(row.definition.value) == c.integers
  }

  function ReviewConstraint(wanted: seq<Check>): (int, Constraint) -> seq<Failure> {
    (k: int, row: Constraint) => if 0 <= k < |wanted| then ConstraintFailuresOf(row, wanted[k]) else []
  }

  function ConstraintFailuresOf(row: Constraint, c: Check): seq<Failure> {
    (if row.type_ == c.kind then [] else [Failure(row.name, Text("type"), Wrong)])
    + (if row.validated then [] else [Failure(row.name, Text("validated"), Wrong)])
    + (if !row.deferrable then [] else [Failure(row.name, Text("deferrable"), Wrong)])
    + (if row.columns == c.columns then [] else [Failure(row.name, Text("columns"), Wrong)])
    + DefinitionFailures(row, c)
  }

  function DefinitionFailures(row: Constraint, c: Check): seq<Failure> {
    if row.definition == None then [Failure(row.name, Text("definition"), Unreadable)]
    else
      (if D.ConstraintLiterals(row.definition.value) == c.literals then [] else [Failure(row.name, Text("literals"), Wrong)])
      + (if D.ConstraintIntegers(row.definition.value) == c.integers then [] else [Failure(row.name, Text("integers"), Wrong)])
  }

  lemma NoneWrong(row: Constraint, c: Check)
    ensures row.name == c.name ==> (ConstraintFailuresOf(row, c) == [] <==> AsChecked(row, c))
  {
    hide D.ConstraintLiterals, D.ConstraintIntegers;
  }

  /** A definition the server printed passes exactly when its literals and its integers are the reviewed ones,
      whatever operators it holds and however it is laid out. */
  lemma PrintedDefinitionPasses(row: Constraint, c: Check, printed: seq<D.Piece>)
    requires D.WellQuoted(printed) && row.definition == Some(D.Print(printed))
    ensures DefinitionFailures(row, c) == [] <==>
      && (set v | v in D.LiteralsOf(printed)) == c.literals
      && (set w | w in D.Words(D.Skeleton(printed), false) && D.IsNumber(w, false) :: D.Decimal(w)) == c.integers
  {
    D.LiteralsAreReadBack(printed);
    D.NumbersAreReadBack(printed);
    hide D.ConstraintLiterals, D.ConstraintNumbers, D.ConstraintIntegers;
  }

  predicate ConstraintsAsReviewed(rows: seq<Constraint>, reviewed: seq<Check>) {
    && |rows| == |reviewed| && Distinct(Keys(reviewed, NameOfCheck))
    && forall k :: 0 <= k < |rows| ==> AsChecked(rows[k], reviewed[k]) && rows[k].type_ != "f"
  }

  /** `constraint_post_check_failures`: exactly the reviewed constraints, and no foreign key. */
  method ConstraintFailures(table: string, rows: seq<Constraint>, reviewed: seq<Check>) returns (failures: seq<Failure>)
    ensures failures == [] <==> ConstraintsAsReviewed(rows, reviewed)
  {
    var foreign := ForeignKeys(table, rows);
    var names := Keys(reviewed, NameOfCheck);
    var wrong := ListFailures(table, rows, NameOfConstraint, names, ReviewConstraint(reviewed));
    failures := foreign + wrong;
    ListedAre(rows, reviewed);
  }

  method ForeignKeys(table: string, rows: seq<Constraint>) returns (failures: seq<Failure>)
    ensures failures == [] <==> forall k :: 0 <= k < |rows| ==> rows[k].type_ != "f"
  {
    failures := [];
    for i := 0 to |rows|
      invariant failures == [] <==> forall k :: 0 <= k < i ==> rows[k].type_ != "f"
    {
      if rows[i].type_ == "f" {
        failures := failures + [Failure(table, Text(rows[i].name), Appeared)];
      }
    }
  }

  lemma ListedAre(rows: seq<Constraint>, reviewed: seq<Check>)
    ensures ListedAsReviewed(rows, NameOfConstraint, Keys(reviewed, NameOfCheck), ReviewConstraint(reviewed)) <==>
      |rows| == |reviewed| && Distinct(Keys(reviewed, NameOfCheck)) && forall k :: 0 <= k < |rows| ==> AsChecked(rows[k], reviewed[k])
  {
    SameNames(rows, reviewed);
    assert |Keys(reviewed, NameOfCheck)| == |reviewed|;
    hide AsChecked, ReviewConstraint, Keys;
    forall k | 0 <= k < |rows| && k < |reviewed|
      ensures rows[k].name == reviewed[k].name ==> (ReviewConstraint(reviewed)(k, rows[k]) == [] <==> AsChecked(rows[k], reviewed[k]))
      ensures AsChecked(rows[k], reviewed[k]) ==> rows[k].name == reviewed[k].name
    {
      OneReviewed(rows[k], reviewed, k);
    }
  }

  lemma SameNames(rows: seq<Constraint>, reviewed: seq<Check>)
    ensures Keys(rows, NameOfConstraint) == Keys(reviewed, NameOfCheck) <==>
      |rows| == |reviewed| && forall k :: 0 <= k < |rows| ==> rows[k].name == reviewed[k].name
  {
    var found, names := Keys(rows, NameOfConstraint), Keys(reviewed, NameOfCheck);
    assert |found| == |rows| && |names| == |reviewed|;
    assert forall k :: 0 <= k < |rows| ==> found[k] == rows[k].name;
    assert forall k :: 0 <= k < |reviewed| ==> names[k] == reviewed[k].name;
    hide Keys;
    if found == names {
      forall k | 0 <= k < |rows| ensures rows[k].name == reviewed[k].name {
        assert found[k] == names[k];
      }
    }
  }

  lemma OneReviewed(row: Constraint, reviewed: seq<Check>, k: nat)
    requires k < |reviewed|
    ensures row.name == reviewed[k].name ==> (ReviewConstraint(reviewed)(k, row) == [] <==> AsChecked(row, reviewed[k]))
    ensures AsChecked(row, reviewed[k]) ==> row.name == reviewed[k].name
  {
    NoneWrong(row, reviewed[k]);
    CheckedByName(row, reviewed[k]);
    assert ReviewConstraint(reviewed)(k, row) == ConstraintFailuresOf(row, reviewed[k]);
    hide AsChecked, ConstraintFailuresOf;
  }

  lemma CheckedByName(row: Constraint, c: Check)
    ensures AsChecked(row, c) ==> row.name == c.name
  {
  }

  // ------------------------------------------------------------------ one table, and both

  predicate TableAsReviewed(t: TableRead, reviewed: ReviewedTable) {
    && t.columns == ColumnsOf(reviewed.columns) && Distinct(Keys(ColumnsOf(reviewed.columns), NameOfColumn))
    && ConstraintsAsReviewed(t.constraints, reviewed.constraints)
    && t.referencing == Int(0)
    && t.indexes == IndexesOf(reviewed.indexes) && Distinct(Keys(IndexesOf(reviewed.indexes), NameOfIndex))
    && t.triggers == []
    && t.rowCount == Int(0)
  }

  /** `_none_failures`: a count that must be 0, and not False. */
  method NoneFailures(table: string, count: Value, what: string) returns (failures: seq<Failure>)
    ensures failures == [] <==> count == Int(0)
  {
    failures := if count == Int(0) then [] else [Failure(table, Text(what), Wrong)];
  }

  method TableFailures(table: string, t: TableRead, reviewed: ReviewedTable) returns (failures: seq<Failure>)
    ensures failures == [] <==> TableAsReviewed(t, reviewed)
  {
    hide ConstraintsAsReviewed, ColumnsOf, IndexesOf, Keys;
    var columns := ColumnFailures(table, t.columns, reviewed.columns);
    var constraints := ConstraintFailures(table, t.constraints, reviewed.constraints);
    var referencing := NoneFailures(table, t.referencing, "constraints reference it");
    var indexes := IndexFailures(table, t.indexes, reviewed.indexes);
    var triggers := TriggerFailures(table, t.triggers);
    var rows := NoneFailures(table, t.rowCount, "rows are in it");
    failures := columns + constraints + referencing + indexes + triggers + rows;
  }

  method TriggerFailures(table: string, triggers: seq<string>) returns (failures: seq<Failure>)
    ensures failures == [] <==> triggers == []
    ensures |failures| == |triggers|
  {
    failures := [];
    for i := 0 to |triggers|
      invariant |failures| == i
    {
      failures := failures + [Failure(table, Text(triggers[i]), Appeared)];
    }
  }

  /** A new table's security, EXPECTED_SECURITY. */
  function SecurityOf(table: string): Security {
    Security(table, 1, "r", true, true, false, 0, false, false, [], [], [])
  }

  predicate SecurityAsReviewed(rows: seq<Security>) {
    |rows| == |TABLES| && forall i :: 0 <= i < |rows| ==> rows[i] == SecurityOf(TABLES[i])
  }

  /** `table_post_check_failures` */
  method SecurityFailures(rows: seq<Security>) returns (failures: seq<Failure>)
    ensures failures == [] <==> SecurityAsReviewed(rows)
  {
    assert |Tables(rows)| == |rows|;
    if Tables(rows) != TABLES {
      if |rows| == |TABLES| {
        var i :| 0 <= i < |rows| && Tables(rows)[i] != TABLES[i];
        assert rows[i] != SecurityOf(TABLES[i]);
      }
      return [Failure("new tables", Null, Unreadable)];
    }
    failures := [];
    for i := 0 to |rows|
      invariant failures == [] <==> forall k :: 0 <= k < i ==> rows[k] == SecurityOf(TABLES[k])
    {
      assert Tables(rows)[i] == TABLES[i];
      if rows[i] != SecurityOf(rows[i].table) {
        failures := failures + [Failure(rows[i].table, Text("security"), Wrong)];
      }
    }
  }

  predicate AsReviewed(c: Created, reviewed: Reviewed) {
    && SecurityAsReviewed(c.security)
    && TableAsReviewed(c.registry, reviewed.registry) && TableAsReviewed(c.ledger, reviewed.ledger)
    && |c.probes| == |reviewed.probes| && forall i :: 0 <= i < |c.probes| ==> c.probes[i] == P.Wanted(reviewed.probes[i])
  }

  /** MAIN: nothing is reported of the new tables exactly when each is just what was reviewed, and every probe
      showed what it should. */
  method CreatedFailures(c: Created, reviewed: Reviewed) returns (failures: seq<Failure>)
    ensures failures == [] <==> AsReviewed(c, reviewed)
  {
    hide TableAsReviewed, SecurityAsReviewed;
    var security := SecurityFailures(c.security);
    var registry := TableFailures(TABLES[0], c.registry, reviewed.registry);
    var ledger := TableFailures(TABLES[1], c.ledger, reviewed.ledger);
    var probes := P.ProbeFailures(c.probes, reviewed.probes);
    failures := security + registry + ledger + probes;
  }
}
