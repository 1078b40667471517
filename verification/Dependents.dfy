/** The recursive query of scripts/audit_table_privileges.py that finds every relation whose rewrite
    rules reach an audited table: `_DEPENDENTS_CTE`, a bounded fixpoint. */
module Dependents {
  // A rule edge (v, b) says that a rewrite rule of relation v depends on relation b. A row (v, b, d) says
  // that v reaches the audited base b through d rules.

  type Edges = set<(nat, nat)>
  type Row = (nat, nat, nat)

  const MAX_DEPTH: nat := 16

  /** v reaches b through exactly d rules, none of them a relation's rule about itself. */
  ghost predicate Reaches(edges: Edges, b: nat, v: nat, d: nat)
    decreases d
  {
    if d == 0 then false
    else if d == 1 then (v, b) in edges && v != b
    else exists u: nat :: Reaches(edges, b, u, d - 1) && (v, u) in edges && v != u
  }

  /** The non-recursive term: the relations whose rules name an audited table. */
  function BaseRows(edges: Edges, audited: set<nat>): set<Row> {
    set e | e in edges && e.1 in audited && e.0 != e.1 :: (e.0, e.1, 1)
  }

  /** The recursive term over the working rows of one round. */
  function NextRows(edges: Edges, working: set<Row>): set<Row> {
    set w, e | w in working && e in edges && e.1 == w.0 && e.0 != w.0 && w.2 < MAX_DEPTH :: (e.0, w.1, w.2 + 1)
  }

  ghost predicate Exact(edges: Edges, audited: set<nat>, rows: set<Row>, depth: nat) {
    forall v: nat, b: nat, d: nat :: (v, b, d) in rows <==> b in audited && d <= depth && Reaches(edges, b, v, d)
  }

  ghost predicate ExactlyAt(edges: Edges, audited: set<nat>, rows: set<Row>, depth: nat) {
    forall v: nat, b: nat, d: nat :: (v, b, d) in rows <==> b in audited && d == depth && Reaches(edges, b, v, d)
  }

  lemma NextRowsExact(edges: Edges, audited: set<nat>, working: set<Row>, depth: nat)
    requires 1 <= depth < MAX_DEPTH && ExactlyAt(edges, audited, working, depth)
    ensures ExactlyAt(edges, audited, NextRows(edges, working), depth + 1)
  {
    var next := NextRows(edges, working);
    forall v: nat, b: nat, d: nat
      ensures (v, b, d) in next <==> b in audited && d == depth + 1 && Reaches(edges, b, v, d)
    {
      if (v, b, d) in next {
        var w, e :| w in working && e in edges && e.1 == w.0 && e.0 != w.0 && (v, b, d) == (e.0, w.1, w.2 + 1);
        assert (w.0, w.1, w.2) in working;
        assert Reaches(edges, b, w.0, depth) && (v, w.0) in edges;
      }
      if b in audited && d == depth + 1 && Reaches(edges, b, v, d) {
        var u: nat :| Reaches(edges, b, u, d - 1) && (v, u) in edges && v != u;
        assert (u, b, depth) in working;
      }
    }
  }

  /** A path of d rules passes through every smaller depth. */
  lemma {:induction false} EveryDepthHasARow(edges: Edges, audited: set<nat>, rows: set<Row>, depth: nat, b: nat, v: nat, d: nat)
    requires ExactlyAt(edges, audited, rows, depth) && b in audited && 1 <= depth <= d && Reaches(edges, b, v, d)
    ensures rows != {}
    decreases d
  {
    if d > depth {
      var u: nat :| Reaches(edges, b, u, d - 1) && (v, u) in edges && v != u;
      EveryDepthHasARow(edges, audited, rows, depth, b, u, d - 1);
    } else {
      assert (v, b, d) in rows;
    }
  }

  /** WITH RECURSIVE ... UNION: rows found are kept once, and only new rows feed the next round. */
  method FindDependents(edges: Edges, audited: set<nat>) returns (rows: set<Row>)
    ensures Exact(edges, audited, rows, 16)
  {
    var working := BaseRows(edges, audited);
    rows := working;
    ghost var depth: nat := 1;
    assert forall v: nat, b: nat :: !Reaches(edges, b, v, 0);
    while working != {}
      invariant 1 <= depth <= MAX_DEPTH + 1
      invariant depth <= MAX_DEPTH ==> ExactlyAt(edges, audited, working, depth) && Exact(edges, audited, rows, depth)
      invariant depth == MAX_DEPTH + 1 ==> working == {} && Exact(edges, audited, rows, MAX_DEPTH)
      decreases MAX_DEPTH + 1 - depth
    {
      var found := NextRows(edges, working);
      if depth < MAX_DEPTH {
        NextRowsExact(edges, audited, working, depth);
        NewRowsOnly(edges, audited, rows, found, depth);
      } else {
        assert found == {} by {
          forall w | w in working ensures w.2 == MAX_DEPTH { assert (w.0, w.1, w.2) in working; }
        }
      }
      working := found - rows;
      rows := rows + working;
      depth := depth + 1;
    }
    if depth <= MAX_DEPTH {
      forall v: nat, b: nat, d: nat | b in audited && depth < d <= MAX_DEPTH
        ensures !Reaches(edges, b, v, d)
      {
        if Reaches(edges, b, v, d) {
          EveryDepthHasARow(edges, audited, working, depth, b, v, d);
        }
      }
    }
  }

  lemma NewRowsOnly(edges: Edges, audited: set<nat>, rows: set<Row>, found: set<Row>, depth: nat)
    requires Exact(edges, audited, rows, depth) && ExactlyAt(edges, audited, found, depth + 1)
    ensures found - rows == found
    ensures Exact(edges, audited, rows + found, depth + 1)
  {
    forall r | r in found ensures r !in rows {
      assert (r.0, r.1, r.2) in found;
      assert (r.0, r.1, r.2) in rows ==> r.2 <= depth;
    }
  }

  // ------------------------------------------------------------------ what the depth bound leaves out

  /** The relation is listed for the base, at some depth. */
  ghost predicate Listed(edges: Edges, b: nat, v: nat) {
    exists d: nat :: d <= MAX_DEPTH && Reaches(edges, b, v, d)
  }

  ghost predicate Depends(edges: Edges, b: nat, v: nat) {
    exists d: nat :: Reaches(edges, b, v, d)
  }

  /** Nothing first appears one rule beyond the bound. */
  ghost predicate NothingNewBeyondTheBound(edges: Edges, b: nat) {
    forall v: nat :: Reaches(edges, b, v, MAX_DEPTH + 1) ==> Listed(edges, b, v)
  }

  lemma Extend(edges: Edges, b: nat, u: nat, v: nat, d: nat)
    requires d >= 1 && Reaches(edges, b, u, d) && (v, u) in edges && v != u
    ensures Reaches(edges, b, v, d + 1)
  {
  }

  lemma {:induction false} ListedAtEveryDepth(edges: Edges, b: nat, v: nat, d: nat)
    requires NothingNewBeyondTheBound(edges, b) && Reaches(edges, b, v, d)
    ensures Listed(edges, b, v)
    decreases d
  {
    if d > MAX_DEPTH + 1 {
      var u: nat :| Reaches(edges, b, u, d - 1) && (v, u) in edges && v != u;
      ListedAtEveryDepth(edges, b, u, d - 1);
      var k: nat :| k <= MAX_DEPTH && Reaches(edges, b, u, k);
      Extend(edges, b, u, v, k);
      ListedAtEveryDepth(edges, b, v, k + 1);
    }
  }

  /** MAIN: the query lists every dependent of a base, at any depth, exactly when nothing first
      appears at depth 17. */
  lemma CompleteExactlyWhenTheBoundSuffices(edges: Edges, b: nat)
    ensures (forall v: nat :: Depends(edges, b, v) ==> Listed(edges, b, v)) <==> NothingNewBeyondTheBound(edges, b)
  {
    if NothingNewBeyondTheBound(edges, b) {
      forall v: nat | Depends(edges, b, v) ensures Listed(edges, b, v) {
        var d: nat :| Reaches(edges, b, v, d);
        ListedAtEveryDepth(edges, b, v, d);
      }
    }
    if forall v: nat :: Depends(edges, b, v) ==> Listed(edges, b, v) {
      forall v: nat | Reaches(edges, b, v, MAX_DEPTH + 1) ensures Listed(edges, b, v) {
        assert Depends(edges, b, v);
      }
    }
  }

  /** A view over a view over ... over table 0, n deep. */
  function Chain(n: nat): Edges {
    if n == 0 then {} else Chain(n - 1) + {(n, n - 1)}
  }

  lemma {:induction false} ChainEdges(n: nat, v: nat, u: nat)
    ensures (v, u) in Chain(n) <==> 1 <= v <= n && u == v - 1
  {
    if n > 0 {
      ChainEdges(n - 1, v, u);
    }
  }

  lemma {:induction false} ChainDepth(n: nat, v: nat, d: nat)
    ensures Reaches(Chain(n), 0, v, d) <==> 1 <= d == v <= n
    decreases d
  {
    if d == 1 {
      ChainEdges(n, v, 0);
    } else if d > 1 {
      if Reaches(Chain(n), 0, v, d) {
        var u: nat :| Reaches(Chain(n), 0, u, d - 1) && (v, u) in Chain(n) && v != u;
        ChainDepth(n, u, d - 1);
        ChainEdges(n, v, u);
      }
      if d == v <= n {
        ChainDepth(n, v - 1, d - 1);
        ChainEdges(n, v, v - 1);
      }
    }
  }

  /** The source's "at any depth" fails for a chain of more than 16 views: the last is never listed. */
  lemma LongChainIsMissed(n: nat)
    requires n > MAX_DEPTH
    ensures Depends(Chain(n), 0, n) && !Listed(Chain(n), 0, n)
  {
    ChainDepth(n, n, n);
    forall d: nat | d <= MAX_DEPTH ensures !Reaches(Chain(n), 0, n, d) {
      ChainDepth(n, n, d);
    }
  }
}
