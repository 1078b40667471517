/** The constraint probes of scripts/apply_migration_0013.py. */
module Probes {
  // They are statements tried on the transaction that is being applied, each inside a savepoint that
  // is rolled back and released. The transaction is PostgreSQL's: a stack of savepoints, and an aborted
  // state in which everything but a rollback is refused (PostgreSQL manual, SQL Commands, SAVEPOINT and
  // ROLLBACK TO SAVEPOINT).

  import opened Options
  import opened Rows

  type Statement = string

  /** A driver error; a field the driver does not give is None. */
  datatype Error = Error(sqlstate: Option<string>, constraint: Option<string>)

  datatype Effect<R> = Wrote(rows: R) | RefusedWith(error: Error)

  datatype Savepoint<R> = Savepoint(name: string, rows: R)

  datatype Transaction<R> = Transaction(rows: R, savepoints: seq<Savepoint<R>>, aborted: bool)

  datatype Command = SetSavepoint(name: string) | RollbackTo(name: string) | Release(name: string) | Run(statement: Statement)

  const ABORTED := Error(Some("25P02"), None)
  const NO_SAVEPOINT := Error(Some("3B001"), None)

  /** The newest savepoint of the name. */
  function Newest<R>(savepoints: seq<Savepoint<R>>, name: string): (i: Option<nat>)
    ensures i.Some? ==> i.value < |savepoints| && savepoints[i.value].name == name
  {
    if savepoints == [] then None
    else if savepoints[|savepoints| - 1].name == name then Some(|savepoints| - 1)
    else Newest(savepoints[..|savepoints| - 1], name)
  }

  /** What the server does with one command, and the error it gives, if any. */
  function After<R>(server: (Statement, R) -> Effect<R>, t: Transaction<R>, c: Command): (Transaction<R>, Option<Error>) {
    match c
    case RollbackTo(name) =>
      (match Newest(t.savepoints, name)
       case None => (t.(aborted := true), Some(NO_SAVEPOINT))
       case Some(i) => (Transaction(t.savepoints[i].rows, t.savepoints[..i + 1], false), None))
    case SetSavepoint(name) =>
      if t.aborted then (t, Some(ABORTED)) else (t.(savepoints := t.savepoints + [Savepoint(name, t.rows)]), None)
    case Release(name) =>
      if t.aborted then (t, Some(ABORTED))
      else
        (match Newest(t.savepoints, name)
         case None => (t.(aborted := true), Some(NO_SAVEPOINT))
         case Some(i) => (t.(savepoints := t.savepoints[..i]), None))
    case Run(statement) =>
      if t.aborted then (t, Some(ABORTED))
      else
        match server(statement, t.rows)
        case Wrote(rows) => (t.(rows := rows), None)
        case RefusedWith(error) => (t.(aborted := true), Some(error))
  }

  class Cursor<R> {
    const server: (Statement, R) -> Effect<R>
    var transaction: Transaction<R>

    constructor (server: (Statement, R) -> Effect<R>, transaction: Transaction<R>)
      ensures this.server == server && this.transaction == transaction
    {
      this.server, this.transaction := server, transaction;
    }

    method Execute(c: Command) returns (error: Option<Error>)
      modifies this
      ensures (transaction, error) == After(server, old(transaction), c)
    {
      var (t, e) := After(server, transaction, c);
      transaction, error := t, e;
    }
  }

  // ------------------------------------------------------------------ the probes

  datatype Expected = Acceptance | Refusal(sqlstate: string, constraint: string)

  datatype Probe = Probe(name: string, statements: seq<Statement>, expected: Expected)

  datatype Outcome = Outcome(probe: string, accepted: bool, sqlstate: Option<string>, constraint: Option<string>)

  const PROBE_SAVEPOINT := "ucpe_0013_probe"

  /** The first refusal, or none, of the statements run one after the other from `rows`. */
  function Refused<R>(server: (Statement, R) -> Effect<R>, rows: R, statements: seq<Statement>): Option<Error> {
    if statements == [] then None
    else
      match server(statements[0], rows)
      case Wrote(rows') => Refused(server, rows', statements[1..])
      case RefusedWith(error) => Some(error)
  }

  function OutcomeFor(name: string, error: Option<Error>): Outcome {
    match error
    case None => Outcome(name, true, None, None)
    case Some(e) => Outcome(name, false, e.sqlstate, e.constraint)
  }

  /** What the probe would show if it were the only one ever run. */
  function Alone<R>(server: (Statement, R) -> Effect<R>, rows: R, p: Probe): Outcome {
    OutcomeFor(p.name, Refused(server, rows, p.statements))
  }

  /** The statements of one probe, until one is refused. */
  method RunStatements<R>(cursor: Cursor<R>, statements: seq<Statement>) returns (error: Option<Error>)
    requires !cursor.transaction.aborted
    modifies cursor
    ensures error == Refused(cursor.server, old(cursor.transaction.rows), statements)
    ensures cursor.transaction.savepoints == old(cursor.transaction.savepoints)
    ensures cursor.transaction.aborted <==> error.Some?
  {
    for i := 0 to |statements|
      invariant !cursor.transaction.aborted && cursor.transaction.savepoints == old(cursor.transaction.savepoints)
      invariant Refused(cursor.server, old(cursor.transaction.rows), statements)
             == Refused(cursor.server, cursor.transaction.rows, statements[i..])
    {
      assert statements[i..][1..] == statements[i + 1..];
      error := cursor.Execute(Run(statements[i]));
      if error.Some? {
        return;
      }
    }
    error := None;
  }

  /** The newest savepoint is the one just set, whatever savepoints stand below it. */
  lemma NewestIsTheLast<R>(below: seq<Savepoint<R>>, s: Savepoint<R>)
    ensures Newest(below + [s], s.name) == Some(|below|)
    ensures (below + [s])[..|below|] == below && (below + [s])[..|below| + 1] == below + [s]
  {
    NamedLast(below + [s], s.name);
    hide Newest;
  }

  lemma NamedLast<R>(savepoints: seq<Savepoint<R>>, name: string)
    requires savepoints != [] && savepoints[|savepoints| - 1].name == name
    ensures Newest(savepoints, name) == Some(|savepoints| - 1)
  {
  }

  method RunProbe<R>(cursor: Cursor<R>, p: Probe) returns (outcome: Outcome)
    requires !cursor.transaction.aborted
    modifies cursor
    ensures cursor.transaction == old(cursor.transaction)
    ensures outcome == Alone(cursor.server, old(cursor.transaction.rows), p)
  {
    ghost var before := cursor.transaction;
    NewestIsTheLast(before.savepoints, Savepoint(PROBE_SAVEPOINT, before.rows));
    var failed := cursor.Execute(SetSavepoint(PROBE_SAVEPOINT));
    assert failed == None;
    var error := RunStatements(cursor, p.statements);
    outcome := OutcomeFor(p.name, error);
    failed := cursor.Execute(RollbackTo(PROBE_SAVEPOINT));
    assert failed == None && cursor.transaction.rows == before.rows;
    failed := cursor.Execute(Release(PROBE_SAVEPOINT));
    assert failed == None;
  }

  /** MAIN: whatever each statement does or is refused, the loop leaves the rows, the savepoints and the
      transaction's usability as it found them, and records for every probe, in order, exactly what
      the probe shows alone. */
  method RunConstraintProbes<R>(cursor: Cursor<R>, probes: seq<Probe>) returns (observed: seq<Outcome>)
    requires !cursor.transaction.aborted
    modifies cursor
    ensures cursor.transaction == old(cursor.transaction)
    ensures |observed| == |probes|
    ensures forall i :: 0 <= i < |probes| ==> observed[i] == Alone(cursor.server, old(cursor.transaction.rows), probes[i])
  {
    observed := [];
    for i := 0 to |probes|
      invariant cursor.transaction == old(cursor.transaction) && |observed| == i
      invariant forall k :: 0 <= k < i ==> observed[k] == Alone(cursor.server, old(cursor.transaction.rows), probes[k])
    {
      var outcome := RunProbe(cursor, probes[i]);
      observed := observed + [outcome];
    }
  }

  // ------------------------------------------------------------------ the verdict

  function Wanted(p: Probe): Outcome {
    match p.expected
    case Acceptance => Outcome(p.name, true, None, None)
    case Refusal(sqlstate, constraint) => Outcome(p.name, false, Some(sqlstate), Some(constraint))
  }

  function NamesOf(observed: seq<Outcome>): seq<string> {
    seq(|observed|, i requires 0 <= i < |observed| => observed[i].probe)
  }

  function ProbeNames(probes: seq<Probe>): seq<string> {
    seq(|probes|, i requires 0 <= i < |probes| => probes[i].name)
  }

  /** `probe_failures` */
  method ProbeFailures(observed: seq<Outcome>, probes: seq<Probe>) returns (failures: seq<Failure>)
    ensures failures == [] <==> |observed| == |probes| && forall i :: 0 <= i < |probes| ==> observed[i] == Wanted(probes[i])
  {
    assert |NamesOf(observed)| == |observed| && |ProbeNames(probes)| == |probes|;
    if NamesOf(observed) != ProbeNames(probes) {
      failures := [Failure("constraint probes", Null, Unreadable)];
      if |observed| == |probes| {
        var i :| 0 <= i < |probes| && NamesOf(observed)[i] != ProbeNames(probes)[i];
        assert observed[i] != Wanted(probes[i]);
      }
      return;
    }
    failures := [];
    for i := 0 to |probes|
      invariant failures == [] <==> forall k :: 0 <= k < i ==> observed[k] == Wanted(probes[k])
    {
      assert NamesOf(observed)[i] == ProbeNames(probes)[i];
      if observed[i] != Wanted(probes[i]) {
        failures := failures + [Failure("constraint probe", Text(probes[i].name), Wrong)];
      }
    }
  }

  /** Every probe, tried alone on the applied rows, behaves as reviewed. */
  predicate BehavesAsReviewed<R>(server: (Statement, R) -> Effect<R>, rows: R, probes: seq<Probe>) {
    forall i :: 0 <= i < |probes| ==> Alone(server, rows, probes[i]) == Wanted(probes[i])
  }

  /** The run and its verdict together: no failure exactly when every probe behaves as reviewed, and
      nothing is left behind. */
  method ProbeConstraints<R>(cursor: Cursor<R>, probes: seq<Probe>) returns (failures: seq<Failure>)
    requires !cursor.transaction.aborted
    modifies cursor
    ensures cursor.transaction == old(cursor.transaction)
    ensures failures == [] <==> BehavesAsReviewed(cursor.server, cursor.transaction.rows, probes)
  {
    var observed := RunConstraintProbes(cursor, probes);
    failures := ProbeFailures(observed, probes);
  }

  /** The verdict does not depend on the order of the probes. */
  lemma OrderDoesNotMatter<R>(server: (Statement, R) -> Effect<R>, rows: R, a: seq<Probe>, b: seq<Probe>)
    requires multiset(a) == multiset(b)
    ensures BehavesAsReviewed(server, rows, a) <==> BehavesAsReviewed(server, rows, b)
  {
    SameVerdict(server, rows, a, b);
    SameVerdict(server, rows, b, a);
  }

  lemma SameVerdict<R>(server: (Statement, R) -> Effect<R>, rows: R, a: seq<Probe>, b: seq<Probe>)
    requires multiset(a) == multiset(b)
    ensures BehavesAsReviewed(server, rows, a) ==> BehavesAsReviewed(server, rows, b)
  {
    hide Alone, Wanted;
    if BehavesAsReviewed(server, rows, a) {
      forall i | 0 <= i < |b| ensures Alone(server, rows, b[i]) == Wanted(b[i]) {
        assert b[i] in multiset(a);
        assert b[i] in a;
      }
    }
  }
}
