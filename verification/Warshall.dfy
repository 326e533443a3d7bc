/** byacc/warshall.c: the reflexive transitive closure of a relation held as a
    square bit matrix, computed in place. */
module Warshall {
  import opened Bits
  import opened Graph

  // ---------------------------------------------------------------------
  // Walks whose inner vertices are below a bound
  // ---------------------------------------------------------------------

  /** There is a walk from `i` to `j` all of whose inner vertices are below `k`. */
  ghost predicate Via(r: Relation, i: nat, j: nat, k: nat)
    requires i < |r| && k <= |r|
    decreases k
  {
    if k == 0 then j in r[i]
    else Via(r, i, j, k - 1) || (Via(r, i, k - 1, k - 1) && Via(r, k - 1, j, k - 1))
  }

  lemma {:induction false} ViaEdge(r: Relation, i: nat, j: nat, k: nat)
    requires i < |r| && k <= |r| && j in r[i]
    ensures Via(r, i, j, k)
  {
    if k > 0 {
      ViaEdge(r, i, j, k - 1);
    }
  }

  /** Allowing `k` as an inner vertex adds no walks to `k` or from `k`. */
  lemma ViaPivot(r: Relation, i: nat, j: nat, k: nat)
    requires i < |r| && k < |r|
    ensures Via(r, i, k, k + 1) <==> Via(r, i, k, k)
    ensures Via(r, k, j, k + 1) <==> Via(r, k, j, k)
  {
  }

  lemma {:induction false} ViaTrans(r: Relation, i: nat, j: nat, l: nat, k: nat)
    requires i < |r| && j < k <= |r|
    requires Via(r, i, j, k) && Via(r, j, l, k)
    ensures Via(r, i, l, k)
    decreases k
  {
    var m := k - 1;
    if j == m {
      ViaPivot(r, i, l, m);
    } else {
      if Via(r, i, j, m) && Via(r, j, l, m) {
        ViaTrans(r, i, j, l, m);
      } else if Via(r, i, j, m) {
        ViaTrans(r, i, j, m, m);
      } else if Via(r, j, l, m) {
        ViaTrans(r, m, j, l, m);
      }
    }
  }

  lemma {:induction false} ViaSound(r: Relation, i: nat, j: nat, k: nat)
    requires i < |r| && k <= |r| && Via(r, i, j, k) && j < |r|
    ensures ReachPlus(r, i, j)
    decreases k
  {
    if k == 0 {
      assert Walk(r, j, j, 0);
      assert Walk(r, i, j, 1);
    } else if Via(r, i, j, k - 1) {
      ViaSound(r, i, j, k - 1);
    } else {
      ViaSound(r, i, k - 1, k - 1);
      ViaSound(r, k - 1, j, k - 1);
      var m: nat :| m > 0 && Walk(r, i, k - 1, m);
      var n: nat :| n > 0 && Walk(r, k - 1, j, n);
      WalkJoin(r, i, k - 1, j, m, n);
    }
  }

  lemma {:induction false} ViaComplete(r: Relation, i: nat, j: nat, n: nat)
    requires n > 0 && Walk(r, i, j, n)
    ensures Via(r, i, j, |r|)
    decreases n
  {
    var k: nat :| k in r[i] && Walk(r, k, j, n - 1);
    ViaEdge(r, i, k, |r|);
    if n > 1 {
      ViaComplete(r, k, j, n - 1);
      ViaTrans(r, i, k, j, |r|);
    }
  }

  /** With every vertex allowed as an inner vertex, `Via` is reachability. */
  lemma ViaIsReachPlus(r: Relation, i: nat, j: nat)
    requires i < |r| && j < |r|
    ensures Via(r, i, j, |r|) <==> ReachPlus(r, i, j)
  {
    if Via(r, i, j, |r|) {
      ViaSound(r, i, j, |r|);
    }
    if ReachPlus(r, i, j) {
      var n: nat :| n > 0 && Walk(r, i, j, n);
      ViaComplete(r, i, j, n);
    }
  }

  // ---------------------------------------------------------------------
  // The loops over the matrix
  // ---------------------------------------------------------------------

  /** Row `i` of `s` holds the walks of `r` with inner vertices below `k`. */
  ghost predicate RowVia(r: Relation, s: set<nat>, i: nat, k: nat)
    requires i < |r| && k <= |r|
  {
    forall j: nat :: j in s <==> Via(r, i, j, k)
  }

  method TransitiveClosure(a: array<bv32>, n: nat)
    requires Matrix(a[..], n, WordSize(n))
    modifies a
    ensures Matrix(a[..], n, WordSize(n))
    ensures forall i, j: nat :: 0 <= i < n && j < n ==>
      (j in Rows(a[..], n, WordSize(n))[i] <==> ReachPlus(old(Rows(a[..], n, WordSize(n))), i, j))
  {
    var w := WordSize(n);
    ghost var r := Rows(a[..], n, w);
    var k := 0;
    while k < n
      invariant 0 <= k <= n && Matrix(a[..], n, w)
      invariant forall i :: 0 <= i < n ==> RowVia(r, Rows(a[..], n, w)[i], i, k)
    {
      var j := 0;
      while j < n
        invariant 0 <= j <= n && Matrix(a[..], n, w)
        invariant forall i :: 0 <= i < j ==> RowVia(r, Rows(a[..], n, w)[i], i, k + 1)
        invariant forall i :: j <= i < n ==> RowVia(r, Rows(a[..], n, w)[i], i, k)
      {
        ghost var before := Rows(a[..], n, w);
        var hit := TestBit(a, n, w, j, k);
        if hit {
          OrRow(a, n, w, j, k);
        }
        PivotStep(r, before, Rows(a[..], n, w)[j], j, k);
        j := j + 1;
      }
      k := k + 1;
    }
    forall i: nat, j: nat | i < n && j < n ensures j in Rows(a[..], n, w)[i] <==> ReachPlus(r, i, j) {
      assert RowVia(r, Rows(a[..], n, w)[i], i, n);
      ViaIsReachPlus(r, i, j);
    }
  }

  /** One row of one pivot round; the pivot row itself never changes. */
  lemma PivotStep(r: Relation, before: Relation, row: set<nat>, j: nat, k: nat)
    requires j < |r| == |before| && k < |r|
    requires RowVia(r, before[j], j, k)
    requires RowVia(r, before[k], k, k) || (k < j && RowVia(r, before[k], k, k + 1))
    requires row == if k in before[j] then before[j] + before[k] else before[j]
    ensures RowVia(r, row, j, k + 1)
  {
    forall l: nat ensures l in before[k] <==> Via(r, k, l, k) {
      ViaPivot(r, k, l, k);
    }
  }

  method ReflexiveTransitiveClosure(a: array<bv32>, n: nat)
    requires Matrix(a[..], n, WordSize(n))
    modifies a
    ensures Matrix(a[..], n, WordSize(n))
    ensures forall i, j: nat :: 0 <= i < n && j < n ==>
      (j in Rows(a[..], n, WordSize(n))[i] <==> Reach(old(Rows(a[..], n, WordSize(n))), i, j))
  {
    var w := WordSize(n);
    ghost var r := Rows(a[..], n, w);
    TransitiveClosure(a, n);
    ghost var plus := Rows(a[..], n, w);
    var i := 0;
    while i < n
      invariant 0 <= i <= n && Matrix(a[..], n, w)
      invariant forall k :: 0 <= k < n ==> Rows(a[..], n, w)[k] == if k < i then plus[k] + {k} else plus[k]
    {
      SetBit(a, n, w, i, i);
      i := i + 1;
    }
    forall i: nat, j: nat | i < n && j < n ensures j in Rows(a[..], n, w)[i] <==> Reach(r, i, j) {
      ReachSplit(r, i, j);
      assert j in plus[i] <==> ReachPlus(r, i, j);
    }
  }

  lemma ReachSplit(r: Relation, i: nat, j: nat)
    requires i < |r|
    ensures Reach(r, i, j) <==> i == j || ReachPlus(r, i, j)
  {
    ReachRefl(r, i);
  }
}
