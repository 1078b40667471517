/** What it is to filter a list: the comprehensions of the routes keep some of the rows, in order. */
module Filters {
  ghost predicate Rising(a: seq<nat>) {
    forall j, k :: 0 <= j < k < |a| ==> a[j] < a[k]
  }

  /** `at` says which: every place of `all` that is kept, and no other, from left to right. */
  ghost predicate Picks<T>(all: seq<T>, kept: seq<T>, keep: T -> bool, at: seq<nat>) {
    && |at| == |kept|
    && Rising(at)
    && (forall k :: 0 <= k < |at| ==> at[k] < |all| && kept[k] == all[at[k]] && keep(all[at[k]]))
    && (forall i: nat :: i < |all| && keep(all[i]) ==> i in at)
  }

  ghost predicate Filtered<T>(all: seq<T>, kept: seq<T>, keep: T -> bool) {
    exists at :: Picks(all, kept, keep, at)
  }

  lemma NothingFiltered<T>(keep: T -> bool)
    ensures Filtered([], [], keep)
  {
    assert Picks([], [], keep, []);
  }

  lemma OneMoreFiltered<T>(all: seq<T>, kept: seq<T>, keep: T -> bool, x: T)
    requires Filtered(all, kept, keep)
    ensures Filtered(all + [x], if keep(x) then kept + [x] else kept, keep)
  {
    var at :| Picks(all, kept, keep, at);
    hide Picks;
    if keep(x) {
      PickLast(all, kept, keep, at, x);
    } else {
      PassLast(all, kept, keep, at, x);
    }
  }

  lemma PickLast<T>(all: seq<T>, kept: seq<T>, keep: T -> bool, at: seq<nat>, x: T)
    requires Picks(all, kept, keep, at) && keep(x)
    ensures Picks(all + [x], kept + [x], keep, at + [|all|])
  {
    var at' := at + [|all|];
    assert forall k :: 0 <= k < |at| ==> at'[k] == at[k] && (all + [x])[at[k]] == all[at[k]];
    assert at'[|at|] == |all| && (all + [x])[|all|] == x;
    forall i: nat | i < |all| + 1 && keep((all + [x])[i]) ensures i in at' {
      assert i < |all| ==> i in at;
    }
  }

  lemma PassLast<T>(all: seq<T>, kept: seq<T>, keep: T -> bool, at: seq<nat>, x: T)
    requires Picks(all, kept, keep, at) && !keep(x)
    ensures Picks(all + [x], kept, keep, at)
  {
    assert forall k :: 0 <= k < |at| ==> (all + [x])[at[k]] == all[at[k]];
    forall i: nat | i < |all| + 1 && keep((all + [x])[i]) ensures i in at {
      assert i < |all| && (all + [x])[i] == all[i];
    }
  }

  /** There is one way to list the same places from left to right. */
  lemma {:induction false} OneRisingList(a: seq<nat>, b: seq<nat>)
    requires Rising(a) && Rising(b) && forall i :: i in a <==> i in b
    ensures a == b
  {
    assert a != [] ==> a[0] in a;
    assert b != [] ==> b[0] in b;
    if a != [] {
      var m, n := |a| - 1, |b| - 1;
      SameGreatest(a, b);
      forall i ensures i in a[..m] <==> i in b[..n] {
        RestOf(a, i);
        RestOf(b, i);
      }
      OneRisingList(a[..m], b[..n]);
      assert a == a[..m] + [a[m]] && b == b[..n] + [b[n]];
    }
  }

  lemma SameGreatest(a: seq<nat>, b: seq<nat>)
    requires Rising(a) && Rising(b) && a != [] && b != [] && forall i :: i in a <==> i in b
    ensures a[|a| - 1] == b[|b| - 1]
  {
    assert a[|a| - 1] in b;
    var j :| 0 <= j < |b| && b[j] == a[|a| - 1];
    assert b[|b| - 1] in a;
    var k :| 0 <= k < |a| && a[k] == b[|b| - 1];
  }

  lemma RestOf(a: seq<nat>, i: nat)
    requires a != [] && Rising(a)
    ensures i in a[..|a| - 1] <==> i in a && i != a[|a| - 1]
  {
    if i in a && i != a[|a| - 1] {
      var k :| 0 <= k < |a| && a[k] == i;
      assert a[..|a| - 1][k] == i;
    }
  }

  /** So a list has one filtering. */
  lemma OneFiltering<T>(all: seq<T>, a: seq<T>, b: seq<T>, keep: T -> bool)
    requires Filtered(all, a, keep) && Filtered(all, b, keep)
    ensures a == b
  {
    var p :| Picks(all, a, keep, p);
    var q :| Picks(all, b, keep, q);
    forall i ensures i in p <==> i in q {
      PickedWhenKept(all, a, keep, p, i);
      PickedWhenKept(all, b, keep, q, i);
    }
    OneRisingList(p, q);
  }

  lemma PickedWhenKept<T>(all: seq<T>, kept: seq<T>, keep: T -> bool, at: seq<nat>, i: nat)
    requires Picks(all, kept, keep, at)
    ensures i in at <==> i < |all| && keep(all[i])
  {
    if i in at {
      var k :| 0 <= k < |at| && at[k] == i;
    }
  }
}
