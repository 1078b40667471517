/** The rows the apply routes read, and the comparisons every route makes of them.

    A check is a list of rows whose columns the query types. A failure names the check, what it is
    about and its kind; the wording is not modelled. */
module Rows {
  import opened Options

  datatype Value = Null | Bool(b: bool) | Int(n: int) | Text(s: string) | List(items: seq<Value>)

  /** The columns no comparison singles out. */
  type Fields = map<string, Value>

  datatype Kind = NotAFirstApply | Gone | Appeared | Changed | Reordered | Missing | Repeated | Wrong | Unreadable

  datatype Failure = Failure(check: string, about: Value, kind: Kind)

  /** Some failure says that this is not a first apply. */
  predicate NamesTheGate(failures: seq<Failure>) {
    exists f :: f in failures && f.kind == NotAFirstApply
  }

  predicate NoneIsTheGate(failures: seq<Failure>) {
    forall f :: f in failures ==> f.kind != NotAFirstApply
  }

  predicate AllAreTheGate(failures: seq<Failure>) {
    forall f :: f in failures ==> f.kind == NotAFirstApply
  }

  /** "This is not a first apply", once. */
  function TheGate(check: string, about: Value): (failures: seq<Failure>)
    ensures failures != [] && NamesTheGate(failures) && AllAreTheGate(failures)
  {
    var gate := Failure(check, about, NotAFirstApply);
    assert gate in [gate];
    [gate]
  }

  lemma OrdinaryFailures(failures: seq<Failure>)
    requires NoneIsTheGate(failures)
    ensures !NamesTheGate(failures) && (AllAreTheGate(failures) <==> failures == [])
  {
    if failures != [] {
      assert failures[0] in failures;
    }
  }

  /** A failure list, by what it says: whether it names the gate, and whether anything else. */
  lemma GatesOfBoth(a: seq<Failure>, b: seq<Failure>)
    ensures NamesTheGate(a + b) <==> NamesTheGate(a) || NamesTheGate(b)
    ensures NoneIsTheGate(a + b) <==> NoneIsTheGate(a) && NoneIsTheGate(b)
    ensures AllAreTheGate(a + b) <==> AllAreTheGate(a) && AllAreTheGate(b)
  {
    assert forall f :: f in a + b <==> f in a || f in b;
  }

  /** The privileges a server can grant, by name. */
  datatype Privilege = DELETE | EXECUTE | INSERT | MAINTAIN | REFERENCES | SELECT | TRIGGER | TRUNCATE | UPDATE | USAGE

  /** A table's security, as the routes' shared query reads it. */
  datatype Security = Security(
    table: string,
    relationsNamedSo: int,
    relkind: string,
    ownedByApplyingRole: bool,
    rowLevelSecurity: bool,
    rowLevelSecurityForced: bool,
    policies: int,
    publicHasAPrivilege: bool,
    columnGrant: bool,
    anon: seq<Privilege>,
    authenticated: seq<Privilege>,
    serviceRole: seq<Privilege>)

  /** A function of schema public. `acl`: its EXECUTE list; None when it was not read as a list. */
  datatype FunctionRow = FunctionRow(
    arguments: string, returns_: string, language: string, securityDefiner: bool, kind: string, volatility: string,
    config: seq<string>, owner: string, ownedByApplyingRole: bool, source: string, acl: Option<seq<string>>)

  function Tables(rows: seq<Security>): seq<string> {
    seq(|rows|, i requires 0 <= i < |rows| => rows[i].table)
  }

  /** One ordinary table of its name, owned by the applying role. */
  predicate TableReady(row: Security) {
    row.relationsNamedSo == 1 && row.relkind == "r" && row.ownedByApplyingRole
  }

  predicate TablesReady(rows: seq<Security>, names: seq<string>) {
    Tables(rows) == names && forall i :: 0 <= i < |rows| ==> TableReady(rows[i])
  }

  /** What every route's pre-check asks of the tables it alters or grants on. */
  method TablesFailures(rows: seq<Security>, names: seq<string>) returns (failures: seq<Failure>)
    ensures failures == [] <==> TablesReady(rows, names)
    ensures NoneIsTheGate(failures)
  {
    if Tables(rows) != names {
      return [Failure("tables", Null, Unreadable)];
    }
    failures := [];
    for i := 0 to |rows|
      invariant failures == [] <==> forall k :: 0 <= k < i ==> TableReady(rows[k])
      invariant NoneIsTheGate(failures)
    {
      var row := rows[i];
      if row.relationsNamedSo != 1 {
        failures := failures + [Failure(row.table, Int(row.relationsNamedSo), Repeated)];
      }
      if row.relkind != "r" {
        failures := failures + [Failure(row.table, Text(row.relkind), Wrong)];
      }
      if !row.ownedByApplyingRole {
        failures := failures + [Failure(row.table, Text("owner"), Wrong)];
      }
    }
  }

  predicate Distinct<T(==)>(xs: seq<T>) {
    forall i, j :: 0 <= i < j < |xs| ==> xs[i] != xs[j]
  }

  /** The dict {key(row): row for row in rows}: the last row of a key wins. */
  function ByKey<T, K(==)>(rows: seq<T>, key: T -> K): map<K, T> {
    if rows == [] then map[]
    else ByKey(rows[..|rows| - 1], key)[key(rows[|rows| - 1]) := rows[|rows| - 1]]
  }

  /** `_unchanged_failures`: nothing when the rows are exactly the same, in the same order; otherwise
      one failure per key that differs, or one for the order. */
  method UnchangedFailures<T(==)>(check: string, key: T -> Value, pre: seq<T>, post: seq<T>)
    returns (failures: seq<Failure>)
    ensures failures == [] <==> post == pre
    ensures forall f :: f in failures ==> f.check == check
    ensures var before, after := ByKey(pre, key), ByKey(post, key);
      post != pre ==> forall name ::
        && (Failure(check, name, Gone) in failures <==> name in before && name !in after)
        && (Failure(check, name, Appeared) in failures <==> name !in before && name in after)
        && (Failure(check, name, Changed) in failures <==> name in before && name in after && before[name] != after[name])
    ensures Failure(check, Null, Reordered) in failures <==> post != pre && ByKey(pre, key) == ByKey(post, key)
  {
    if post == pre {
      return [];
    }
    var before, after := ByKey(pre, key), ByKey(post, key);
    failures := [];
    var names := before.Keys + after.Keys;
    var left := names;
    while left != {}
      invariant left <= names
      invariant forall f :: f in failures ==> f.check == check && f.about in names - left && f.kind in {Gone, Appeared, Changed}
      invariant forall name :: name in names - left ==>
        && (Failure(check, name, Gone) in failures <==> name !in after)
        && (Failure(check, name, Appeared) in failures <==> name !in before)
        && (Failure(check, name, Changed) in failures <==> name in before && name in after && before[name] != after[name])
      invariant failures == [] <==> forall name :: name in names - left ==> name in before && name in after && before[name] == after[name]
    {
      var name :| name in left;
      if name !in after {
        failures := failures + [Failure(check, name, Gone)];
      } else if name !in before {
        failures := failures + [Failure(check, name, Appeared)];
      } else if after[name] != before[name] {
        failures := failures + [Failure(check, name, Changed)];
      }
      left := left - {name};
    }
    if failures == [] {
      assert before.Keys == after.Keys;
      assert before == after;
      failures := [Failure(check, Null, Reordered)];
    }
  }

  predicate DistinctKeys<T, K(==)>(rows: seq<T>, key: T -> K) {
    forall i, j :: 0 <= i < j < |rows| ==> key(rows[i]) != key(rows[j])
  }

  lemma {:induction false} KeysOf<T, K>(rows: seq<T>, key: T -> K, k: K)
    ensures k in ByKey(rows, key) <==> exists i :: 0 <= i < |rows| && key(rows[i]) == k
    ensures k in ByKey(rows, key) ==> ByKey(rows, key)[k] in rows && key(ByKey(rows, key)[k]) == k
  {
    if rows != [] {
      var n := |rows| - 1;
      KeysOf(rows[..n], key, k);
      assert forall i :: 0 <= i < n ==> rows[..n][i] == rows[i];
    }
  }

  /** Of the rows of one key, the dict holds the last. */
  lemma {:induction false} LastWins<T, K>(rows: seq<T>, key: T -> K, k: K)
    requires k in ByKey(rows, key)
    ensures exists i :: 0 <= i < |rows| && IsLast(rows, key, k, i) && ByKey(rows, key)[k] == rows[i]
  {
    var n := |rows| - 1;
    var before := rows[..n];
    if key(rows[n]) == k {
      assert IsLast(rows, key, k, n);
    } else {
      LastWins(before, key, k);
      var i :| 0 <= i < |before| && IsLast(before, key, k, i) && ByKey(before, key)[k] == before[i];
      assert forall j :: 0 <= j < n ==> before[j] == rows[j];
      assert IsLast(rows, key, k, i);
    }
  }

  predicate IsLast<T, K(==)>(rows: seq<T>, key: T -> K, k: K, i: int) {
    0 <= i < |rows| && key(rows[i]) == k && forall j :: i < j < |rows| ==> key(rows[j]) != k
  }

  /** The dict is as long as the list exactly when no key is repeated. */
  lemma {:induction false} DictSize<T, K>(rows: seq<T>, key: T -> K)
    ensures |ByKey(rows, key)| <= |rows|
    ensures |ByKey(rows, key)| == |rows| <==> DistinctKeys(rows, key)
  {
    if rows != [] {
      var rest, k := rows[..|rows| - 1], key(rows[|rows| - 1]);
      DictSize(rest, key);
      OneMoreKey(rows, key);
      assert ByKey(rows, key).Keys == ByKey(rest, key).Keys + {k};
      hide DistinctKeys;
    }
  }

  lemma OneMoreKey<T, K>(rows: seq<T>, key: T -> K)
    requires rows != []
    ensures var rest, k := rows[..|rows| - 1], key(rows[|rows| - 1]);
      DistinctKeys(rows, key) <==> DistinctKeys(rest, key) && k !in ByKey(rest, key)
  {
    var n := |rows| - 1;
    var rest := rows[..n];
    KeysOf(rest, key, key(rows[n]));
    hide ByKey;
    assert forall i :: 0 <= i < n ==> rest[i] == rows[i];
    if DistinctKeys(rest, key) && key(rows[n]) !in ByKey(rest, key) {
      forall i, j | 0 <= i < j < |rows| ensures key(rows[i]) != key(rows[j]) {
        assert key(rest[i]) == key(rows[i]);
      }
    }
  }

  /** With no key repeated, every row is what its key is looked up to be. */
  lemma RowFound<T, K>(rows: seq<T>, key: T -> K, row: T)
    requires DistinctKeys(rows, key) && row in rows
    ensures key(row) in ByKey(rows, key) && ByKey(rows, key)[key(row)] == row
  {
    var i :| 0 <= i < |rows| && rows[i] == row;
    KeysOf(rows, key, key(row));
    var other := ByKey(rows, key)[key(row)];
    var k :| 0 <= k < |rows| && rows[k] == other;
    assert key(rows[k]) == key(rows[i]);
  }
}
