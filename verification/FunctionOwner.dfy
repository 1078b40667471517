/** `function_post_check_failures` of scripts/apply_migration_0016.py: the bundle function given to its
    narrow owner. Its EXECUTE list is compared with a set sorted into a list. */
module FunctionOwner {
  import opened Options
  import opened Rows
  import opened Grants
  import opened CommonChecks

  const FUNCTION_REFERENCE := "public.save_prediction_bundle"
  const FUNCTION_ARGUMENTS := "p_prediction jsonb, p_feature_snapshot jsonb, p_derivatives_snapshot jsonb"

  /** Python's order of strings, by code point. */
  predicate Less(a: string, b: string) {
    b != [] && (a == [] || a[0] < b[0] || (a[0] == b[0] && Less(a[1..], b[1..])))
  }

  predicate Sorted(xs: seq<string>) {
    forall i, j :: 0 <= i < j < |xs| ==> Less(xs[i], xs[j])
  }

  function Members(xs: seq<string>): set<string> {
    set x | x in xs
  }

  lemma {:induction false} LessIsStrict(a: string, b: string)
    ensures !(Less(a, b) && Less(b, a)) && !Less(a, a)
  {
    if a != [] {
      LessIsStrict(a[1..], if b == [] then [] else b[1..]);
    }
  }

  /** xs == sorted(s) says this and no more: there is one sorted list of a set. */
  lemma {:induction false} SortedOnce(a: seq<string>, b: seq<string>)
    requires Sorted(a) && Sorted(b) && Members(a) == Members(b)
    ensures a == b
  {
    hide Less;
    if a == [] {
      NoMembers(b);
    } else {
      SameLast(a, b);
      var m, n := |a| - 1, |b| - 1;
      OneLess(a);
      OneLess(b);
      SortedOnce(a[..m], b[..n]);
      assert a == a[..m] + [a[m]] && b == b[..n] + [b[n]];
    }
  }

  lemma NoMembers(xs: seq<string>)
    ensures Members(xs) == {} ==> xs == []
  {
    if xs != [] {
      assert xs[0] in Members(xs);
    }
  }

  lemma SameLast(a: seq<string>, b: seq<string>)
    requires Sorted(a) && Sorted(b) && Members(a) == Members(b) && a != []
    ensures b != [] && a[|a| - 1] == b[|b| - 1]
  {
    hide Less;
    var x := a[|a| - 1];
    assert x in Members(b);
    var j :| 0 <= j < |b| && b[j] == x;
    var y := b[|b| - 1];
    assert y in Members(a);
    var i :| 0 <= i < |a| && a[i] == y;
    LessIsStrict(x, y);
  }

  lemma OneLess(a: seq<string>)
    requires Sorted(a) && a != []
    ensures Sorted(a[..|a| - 1]) && Members(a[..|a| - 1]) == Members(a) - {a[|a| - 1]}
  {
    hide Less;
    var n := |a| - 1;
    forall i | 0 <= i < n ensures a[i] != a[n] {
      LessIsStrict(a[i], a[n]);
    }
    assert a == a[..n] + [a[n]];
  }

  /** The owner's entry moves to the new owner, the writer's is added, every other stays. */
  function WantedEntries(pre: seq<FunctionRow>): set<string> {
    (if |pre| == 1 && pre[0].acl.Some? then Members(pre[0].acl.value) - {pre[0].owner + "=EXECUTE"} else {})
    + {BUNDLE_OWNER + "=EXECUTE", WRITER + "=EXECUTE"}
  }

  /** The bundle function as reviewed: its body kept, SECURITY DEFINER of its narrow owner. */
  predicate Handed(pre: seq<FunctionRow>, after: FunctionRow, source: string) {
    && OwnedBundle(after, FUNCTION_ARGUMENTS, source)
    && after.acl.Some? && Sorted(after.acl.value) && Members(after.acl.value) == WantedEntries(pre)
  }

  /** sorted(entries): the least of the entries left, again and again. */
  method SortEntries(entries: set<string>) returns (sorted: seq<string>)
    ensures Sorted(sorted) && Members(sorted) == entries
  {
    hide Less;
    sorted := [];
    var left := entries;
    while left != {}
      invariant left <= entries && Members(sorted) == entries - left && Sorted(sorted)
      invariant forall i, x :: 0 <= i < |sorted| && x in left ==> Less(sorted[i], x)
    {
      var least := Least(left);
      MembersGrow(sorted, least);
      sorted := sorted + [least];
      left := left - {least};
    }
  }

  lemma MembersGrow(xs: seq<string>, x: string)
    ensures Members(xs + [x]) == Members(xs) + {x}
  {
  }

  method Least(entries: set<string>) returns (least: string)
    requires entries != {}
    ensures least in entries && forall x :: x in entries && x != least ==> Less(least, x)
  {
    hide Less;
    least :| least in entries;
    var left := entries - {least};
    while left != {}
      invariant least in entries && left <= entries
      invariant forall x :: x in entries - left && x != least ==> Less(least, x)
    {
      var x :| x in left;
      LessIsTotal(least, x);
      if Less(x, least) {
        forall y | y in entries - left && y != least ensures Less(x, y) {
          LessIsTransitive(x, least, y);
        }
        least := x;
      }
      left := left - {x};
    }
  }

  lemma {:induction false} LessIsTotal(a: string, b: string)
    ensures Less(a, b) || Less(b, a) || a == b
  {
    if a != [] && b != [] {
      LessIsTotal(a[1..], b[1..]);
      assert a == [a[0]] + a[1..] && b == [b[0]] + b[1..];
    }
  }

  lemma {:induction false} LessIsTransitive(a: string, b: string, c: string)
    requires Less(a, b) && Less(b, c)
    ensures Less(a, c)
  {
    if a != [] && a[0] == b[0] && b[0] == c[0] {
      LessIsTransitive(a[1..], b[1..], c[1..]);
    }
  }

  /** MAIN: nothing to report exactly when one function is read, with its owner, its body and its EXECUTE
      list as reviewed. */
  method FunctionPostCheckFailures(pre: seq<FunctionRow>, rows: seq<FunctionRow>, source: string) returns (failures: seq<Failure>)
    ensures failures == [] <==> |rows| == 1 && Handed(pre, rows[0], source)
  {
    hide Sorted, Members;
    if |rows| != 1 {
      return [Failure(FUNCTION_REFERENCE, Null, if rows == [] then Missing else Repeated)];
    }
    var row := rows[0];
    var acl := SortEntries(WantedEntries(pre));
    failures := [];
    if !OwnedBundle(row, FUNCTION_ARGUMENTS, source) {
      failures := [Failure(FUNCTION_REFERENCE, Null, Wrong)];
    }
    if row.acl != Some(acl) {
      failures := failures + [Failure(FUNCTION_REFERENCE, Text("acl"), Wrong)];
    }
    if row.acl.Some? && Handed(pre, row, source) {
      SortedOnce(row.acl.value, acl);
    }
  }
}
