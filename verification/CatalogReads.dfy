/** `read_catalogs` of scripts/audit_table_privileges.py: every catalog query in one transaction, each
    optional one inside a savepoint, and the transaction rolled back at the end. */
module CatalogReads {
  import opened Options
  import opened Probes

  datatype Query = Query(name: string, text: Statement, optional: bool)

  /** What was read, and the optional queries the server refused. */
  datatype Observed<A> = Observed(answers: map<string, A>, refused: set<string>)

  /** A catalog that answers a query reading it, or refuses; a query changes nothing. */
  function Reading<R, A>(catalog: (Statement, R) -> Option<A>): (Statement, R) -> Effect<R> {
    (text, rows) => if catalog(text, rows).Some? then Wrote(rows) else RefusedWith(Error(None, None))
  }

  predicate DistinctNames(queries: seq<Query>) {
    forall i, j :: 0 <= i < j < |queries| ==> queries[i].name != queries[j].name
  }

  /** What the first `n` queries, each asked alone, would give. */
  ghost predicate ReadAlone<R, A>(catalog: (Statement, R) -> Option<A>, rows: R, queries: seq<Query>, n: nat, seen: Observed<A>)
    requires n <= |queries|
  {
    && (forall i :: 0 <= i < n ==>
          match catalog(queries[i].text, rows)
          case Some(answer) => queries[i].name in seen.answers && seen.answers[queries[i].name] == answer
                               && queries[i].name !in seen.refused
          case None => queries[i].name !in seen.answers && queries[i].name in seen.refused && queries[i].optional)
    && (forall name :: name in seen.answers || name in seen.refused ==> exists i :: 0 <= i < n && queries[i].name == name)
  }

  method ReadOne<R, A>(cursor: Cursor<R>, catalog: (Statement, R) -> Option<A>, q: Query) returns (answer: Option<A>)
    requires cursor.server == Reading(catalog) && !cursor.transaction.aborted
    modifies cursor
    ensures answer == catalog(q.text, old(cursor.transaction.rows))
    ensures cursor.transaction.rows == old(cursor.transaction.rows)
    ensures cursor.transaction.aborted <==> answer == None && !q.optional
  {
    ghost var before := cursor.transaction;
    var savepoint := "audit_" + q.name;
    NewestIsTheLast(before.savepoints, Savepoint(savepoint, before.rows));
    var error;
    if !q.optional {
      error := cursor.Execute(Run(q.text));
      return catalog(q.text, cursor.transaction.rows);
    }
    error := cursor.Execute(SetSavepoint(savepoint));
    assert error == None;
    answer := catalog(q.text, cursor.transaction.rows);
    error := cursor.Execute(Run(q.text));
    if error.Some? {
      error := cursor.Execute(RollbackTo(savepoint));
    } else {
      error := cursor.Execute(Release(savepoint));
    }
    assert error == None;
  }

  /** MAIN: a refused optional read costs no other read: the run ends early only when a required query is
      refused; otherwise every query is answered, or listed as refused, exactly as if asked alone. */
  method ReadCatalogs<R, A>(cursor: Cursor<R>, catalog: (Statement, R) -> Option<A>, queries: seq<Query>)
    returns (seen: Observed<A>, ok: bool)
    requires cursor.server == Reading(catalog) && !cursor.transaction.aborted && DistinctNames(queries)
    modifies cursor
    ensures cursor.transaction.rows == old(cursor.transaction.rows)
    ensures ok <==> forall i :: 0 <= i < |queries| ==> queries[i].optional || catalog(queries[i].text, old(cursor.transaction.rows)).Some?
    ensures ok ==> ReadAlone(catalog, old(cursor.transaction.rows), queries, |queries|, seen)
  {
    ghost var rows := cursor.transaction.rows;
    seen := Observed(map[], {});
    for i := 0 to |queries|
      invariant cursor.transaction.rows == rows && !cursor.transaction.aborted
      invariant forall k :: 0 <= k < i ==> queries[k].optional || catalog(queries[k].text, rows).Some?
      invariant ReadAlone(catalog, rows, queries, i, seen)
    {
      var q := queries[i];
      var answer := ReadOne(cursor, catalog, q);
      if answer.Some? {
        seen := seen.(answers := seen.answers[q.name := answer.value]);
      } else if q.optional {
        seen := seen.(refused := seen.refused + {q.name});
      } else {
        ok := false;
        return;
      }
    }
    ok := true;
  }
}
