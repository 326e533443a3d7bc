/** Finite directed graphs, given by the set of successors of each vertex, and
    reachability by walks.  This is the reference against which the closure
    algorithms of byacc are proved. */
module Graph {

  type Relation = seq<set<nat>>

  /** A walk of exactly `n` edges from `i` to `j`. */
  ghost predicate Walk(r: Relation, i: nat, j: nat, n: nat)
    decreases n
  {
    i < |r| && if n == 0 then i == j else exists k: nat :: k in r[i] && Walk(r, k, j, n - 1)
  }

  ghost predicate Reach(r: Relation, i: nat, j: nat)
  {
    exists n: nat :: Walk(r, i, j, n)
  }

  /** Reachable by at least one edge. */
  ghost predicate ReachPlus(r: Relation, i: nat, j: nat)
  {
    exists n: nat :: n > 0 && Walk(r, i, j, n)
  }

  lemma ReachRefl(r: Relation, i: nat)
    requires i < |r|
    ensures Reach(r, i, i)
  {
    assert Walk(r, i, i, 0);
  }

  lemma ReachEdge(r: Relation, i: nat, k: nat, j: nat)
    requires i < |r| && k in r[i] && Reach(r, k, j)
    ensures Reach(r, i, j) && ReachPlus(r, i, j)
  {
    var n: nat :| Walk(r, k, j, n);
    assert Walk(r, i, j, n + 1);
  }

  lemma {:induction false} WalkJoin(r: Relation, i: nat, k: nat, j: nat, m: nat, n: nat)
    requires Walk(r, i, k, m) && Walk(r, k, j, n)
    ensures Walk(r, i, j, m + n)
    decreases m
  {
    if m > 0 {
      var l: nat :| l in r[i] && Walk(r, l, k, m - 1);
      WalkJoin(r, l, k, j, m - 1, n);
    }
  }

  lemma ReachTrans(r: Relation, i: nat, k: nat, j: nat)
    requires Reach(r, i, k) && Reach(r, k, j)
    ensures Reach(r, i, j)
  {
    var m: nat :| Walk(r, i, k, m);
    var n: nat :| Walk(r, k, j, n);
    WalkJoin(r, i, k, j, m, n);
  }

  lemma {:induction false} WalkEnds(r: Relation, i: nat, j: nat, n: nat)
    requires Walk(r, i, j, n)
    ensures j < |r|
    decreases n
  {
    if n > 0 {
      var k: nat :| k in r[i] && Walk(r, k, j, n - 1);
      WalkEnds(r, k, j, n - 1);
    }
  }

  /** A set of vertices closed under the relation keeps every walk inside. */
  lemma {:induction false} WalkStays(r: Relation, s: set<nat>, i: nat, j: nat, n: nat)
    requires Walk(r, i, j, n) && i in s
    requires forall u: nat, v: nat :: u in s && u < |r| && v in r[u] ==> v in s
    ensures j in s
    decreases n
  {
    if n > 0 {
      var k: nat :| k in r[i] && Walk(r, k, j, n - 1);
      WalkStays(r, s, k, j, n - 1);
    }
  }
}
