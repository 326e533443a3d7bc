/** byacc/lalr.c, digraph and traverse: for a relation given by successor lists, or
    into the set of every vertex the sets of all vertices it reaches, in one
    depth-first pass that treats each strongly connected component as a whole. */
module Digraphs {
  import opened Bits
  import opened Graph

  type Lists = seq<seq<nat>>

  /** Every list entry is a vertex. */
  ghost predicate ValidLists(r: Lists) {
    forall i, k :: 0 <= i < |r| && 0 <= k < |r[i]| ==> r[i][k] < |r|
  }

  ghost function Successors(l: seq<nat>): set<nat> {
    set k: nat | k in l
  }

  /** The lists as a relation. */
  ghost function Rel(r: Lists): (s: Relation)
    ensures |s| == |r|
    ensures forall i :: 0 <= i < |r| ==> s[i] == Successors(r[i])
  {
    seq(|r|, i requires 0 <= i < |r| => Successors(r[i]))
  }

  /** What digraph has to leave in row `i`: everything that starts out in the row of
      some vertex reachable from `i`. */
  ghost function Full(r: Lists, f0: seq<set<nat>>, i: nat): (s: set<nat>)
    requires |f0| == |r|
    ensures forall x :: x in s <==> exists z :: 0 <= z < |r| && Reach(Rel(r), i, z) && x in f0[z]
  {
    set z, x | 0 <= z < |r| && Reach(Rel(r), i, z) && x in f0[z] :: x
  }

  lemma FullSelf(r: Lists, f0: seq<set<nat>>, i: nat)
    requires |f0| == |r| && i < |r|
    ensures f0[i] <= Full(r, f0, i)
  {
    ReachRefl(Rel(r), i);
  }

  lemma FullMonotone(r: Lists, f0: seq<set<nat>>, i: nat, j: nat)
    requires |f0| == |r| && Reach(Rel(r), i, j)
    ensures Full(r, f0, j) <= Full(r, f0, i)
  {
    forall x | x in Full(r, f0, j) ensures x in Full(r, f0, i) {
      var z :| 0 <= z < |r| && Reach(Rel(r), j, z) && x in f0[z];
      ReachTrans(Rel(r), i, j, z);
    }
  }

  lemma ListEdge(r: Lists, i: nat, k: nat)
    requires ValidLists(r) && i < |r| && k < |r[i]|
    ensures r[i][k] < |r| && Reach(Rel(r), i, r[i][k])
  {
    assert r[i][k] in Rel(r)[i];
    ReachRefl(Rel(r), r[i][k]);
    ReachEdge(Rel(r), i, r[i][k], r[i][k]);
  }

  // ---------------------------------------------------------------------
  // The state of the traversal, as values
  // ---------------------------------------------------------------------

  /** `f` the rows, `index` the marks (0 unvisited, `infinity` done, otherwise the
      lowest stack position known to be reached), `stack` the vertices in progress;
      the vertex at `stack[k]` has position `k + 1`. */
  datatype State = State(f: seq<set<nat>>, index: seq<int>, stack: seq<nat>)

  function Infinity(n: nat): int { n + 2 }

  ghost predicate Sizes(r: Lists, f0: seq<set<nat>>, s: State) {
    ValidLists(r) && |f0| == |s.f| == |s.index| == |r|
  }

  /** The vertex at `stack[k]` reaches the stack position that it is marked with. */
  ghost predicate StackOK(r: Lists, s: State, k: nat)
    requires |s.index| == |r| && k < |s.stack|
  {
    var v := s.stack[k];
    v < |r| && 1 <= s.index[v] <= k + 1 && Reach(Rel(r), v, s.stack[s.index[v] - 1])
  }

  ghost predicate VertexOK(r: Lists, f0: seq<set<nat>>, s: State, v: nat)
    requires Sizes(r, f0, s) && v < |r|
  {
    f0[v] <= s.f[v] <= Full(r, f0, v) &&
    (s.index[v] == 0 ==> s.f[v] == f0[v]) &&
    (s.index[v] == Infinity(|r|) ==> DoneOK(r, f0, s, v)) &&
    (s.index[v] != 0 && s.index[v] != Infinity(|r|) ==> v in s.stack)
  }

  /** A finished vertex has its final row, and all its successors are finished. */
  ghost predicate DoneOK(r: Lists, f0: seq<set<nat>>, s: State, v: nat)
    requires Sizes(r, f0, s) && v < |r|
  {
    s.f[v] == Full(r, f0, v) &&
    forall k :: 0 <= k < |r[v]| ==> s.index[r[v][k]] == Infinity(|r|)
  }

  ghost predicate NoRepeats(s: seq<nat>) {
    forall k, l :: 0 <= k < l < |s| ==> s[k] != s[l]
  }

  ghost predicate Inv(r: Lists, f0: seq<set<nat>>, s: State) {
    Sizes(r, f0, s) && NoRepeats(s.stack) && |s.stack| <= |r| &&
    (forall k: nat :: k < |s.stack| ==> StackOK(r, s, k)) &&
    (forall v: nat :: v < |r| ==> VertexOK(r, f0, s, v))
  }

  // ---------------------------------------------------------------------
  // The part of the stack above the vertex being visited
  // ---------------------------------------------------------------------

  /** Edge to `w` is accounted for at `i`: `w` is visited, what a finished `w` has is
      in the row of `i`, and the mark of `i` is no higher than the position of `w`. */
  ghost predicate EdgeOK(r: Lists, f0: seq<set<nat>>, s: State, i: nat, w: nat)
    requires Sizes(r, f0, s) && i < |r| && w < |r|
  {
    s.index[w] != 0 &&
    (s.index[w] == Infinity(|r|) ==> Full(r, f0, w) <= s.f[i]) &&
    (forall p :: 0 <= p < |s.stack| && s.stack[p] == w ==> s.index[i] <= p + 1)
  }

  /** The vertex at `stack[k]` was left without being the root of a component; what it
      knows has been passed on to `i`. */
  ghost predicate Left(r: Lists, f0: seq<set<nat>>, s: State, i: nat, k: nat)
    requires Sizes(r, f0, s) && i < |r| && k < |s.stack| && s.stack[k] < |r|
  {
    var u := s.stack[k];
    Reach(Rel(r), i, u) && f0[u] <= s.f[i] && s.index[i] <= s.index[u] <= k && EdgesOK(r, f0, s, i, u, |r[u]|)
  }

  /** The first `m` edges of `u` are accounted for at `i`. */
  ghost predicate EdgesOK(r: Lists, f0: seq<set<nat>>, s: State, i: nat, u: nat, m: nat)
    requires Sizes(r, f0, s) && i < |r| && u < |r| && m <= |r[u]|
  {
    forall e :: 0 <= e < m ==> EdgeOK(r, f0, s, i, r[u][e])
  }

  /** Vertex `i`, at `stack[from]`, has handled its first `m` edges. */
  ghost predicate Segment(r: Lists, f0: seq<set<nat>>, s: State, i: nat, from: nat, m: nat)
    requires Inv(r, f0, s)
  {
    i < |r| && from < |s.stack| && s.stack[from] == i && m <= |r[i]| &&
    EdgesOK(r, f0, s, i, i, m) &&
    forall k :: from < k < |s.stack| ==> StackOK(r, s, k) && Left(r, f0, s, i, k)
  }

  /** What a call leaves alone: the stack below, its marks and rows, finished vertices. */
  ghost predicate Frame(r: Lists, s: State, s': State) {
    |s.index| == |s'.index| == |s.f| == |s'.f| == |r| && s.stack <= s'.stack &&
    (forall v: nat :: v < |r| && v in s.stack ==> s'.index[v] == s.index[v] && s'.f[v] == s.f[v]) &&
    (forall v: nat :: v < |r| && s.index[v] == Infinity(|r|) ==> s'.index[v] == Infinity(|r|)) &&
    (forall v: nat :: v < |r| && s.index[v] != 0 ==> s'.index[v] != 0)
  }

  /** The outcome of visiting `i` from state `s`: its component is finished, or it is
      still on the stack because it reaches below. */
  ghost predicate Visited(r: Lists, f0: seq<set<nat>>, s: State, s': State, i: nat)
    requires Inv(r, f0, s')
  {
    i < |r| && Frame(r, s, s') && s'.index[i] != 0 &&
    if s'.index[i] == Infinity(|r|) then s'.stack == s.stack
    else Segment(r, f0, s', i, |s.stack|, |r[i]|) && s'.index[i] <= |s.stack|
  }

  // ---------------------------------------------------------------------
  // Entering a vertex
  // ---------------------------------------------------------------------

  function Push(s: State, i: nat): State
    requires i < |s.index|
  {
    State(s.f, s.index[i := |s.stack| + 1], s.stack + [i])
  }

  lemma PushOK(r: Lists, f0: seq<set<nat>>, s: State, i: nat)
    requires Inv(r, f0, s) && i < |r| && s.index[i] == 0 && |s.stack| < |r|
    ensures Inv(r, f0, Push(s, i)) && Segment(r, f0, Push(s, i), i, |s.stack|, 0)
    ensures Frame(r, s, Push(s, i))
  {
    var t := Push(s, i);
    NotOnStack(r, f0, s, i);
    forall k: nat | k < |t.stack| ensures StackOK(r, t, k) {
      if k < |s.stack| {
        assert StackOK(r, s, k);
      } else {
        ReachRefl(Rel(r), i);
      }
    }
    forall v: nat | v < |r| ensures VertexOK(r, f0, t, v) {
      assert VertexOK(r, f0, s, v);
      if v != i {
        assert DoneOK(r, f0, s, v) && s.index[v] == Infinity(|r|) ==> DoneOK(r, f0, t, v);
      }
    }
  }

  lemma NotOnStack(r: Lists, f0: seq<set<nat>>, s: State, v: nat)
    requires Inv(r, f0, s) && v < |r| && (s.index[v] == 0 || s.index[v] == Infinity(|r|))
    ensures v !in s.stack
  {
    forall k | 0 <= k < |s.stack| ensures s.stack[k] != v {
      assert StackOK(r, s, k);
    }
  }

  /** The stack never overflows. */
  lemma StackRoom(r: Lists, f0: seq<set<nat>>, s: State, i: nat)
    requires Inv(r, f0, s) && i < |r| && s.index[i] == 0
    ensures |s.stack| < |r|
  {
    NotOnStack(r, f0, s, i);
    forall v | v in s.stack + [i] ensures v < |r| {
      if v != i {
        var k :| 0 <= k < |s.stack| && s.stack[k] == v;
        assert StackOK(r, s, k);
      }
    }
    DistinctVertices(s.stack + [i], |r|);
  }

  lemma {:induction false} DistinctVertices(s: seq<nat>, n: nat)
    requires NoRepeats(s) && forall v :: v in s ==> v < n
    ensures |s| <= n
    decreases n
  {
    if s != [] {
      assert s[0] in s;
      if exists k :: 0 <= k < |s| && s[k] == n - 1 {
        var k :| 0 <= k < |s| && s[k] == n - 1;
        var t := s[..k] + s[k + 1..];
        assert forall l :: 0 <= l < |t| ==> t[l] == s[if l < k then l else l + 1];
        forall v | v in t ensures v < n - 1 {
          var l :| 0 <= l < |t| && t[l] == v;
          assert s[if l < k then l else l + 1] in s;
        }
        DistinctVertices(t, n - 1);
      } else {
        forall v | v in s ensures v < n - 1 {
          var k :| 0 <= k < |s| && s[k] == v;
        }
        DistinctVertices(s, n - 1);
      }
    }
  }

  // ---------------------------------------------------------------------
  // Handling one edge
  // ---------------------------------------------------------------------

  /** As `Segment`, but only for the stack below `upto`. */
  ghost predicate SegmentBelow(r: Lists, f0: seq<set<nat>>, s: State, i: nat, from: nat, m: nat, upto: nat)
    requires Inv(r, f0, s)
  {
    i < |r| && from < upto <= |s.stack| && s.stack[from] == i && m <= |r[i]| &&
    EdgesOK(r, f0, s, i, i, m) &&
    forall k :: from < k < upto ==> StackOK(r, s, k) && Left(r, f0, s, i, k)
  }

  lemma EdgeKept(r: Lists, f0: seq<set<nat>>, s: State, s': State, i: nat, w: nat)
    requires Inv(r, f0, s) && Inv(r, f0, s') && Frame(r, s, s')
    requires i < |r| && i in s.stack && w < |r| && EdgeOK(r, f0, s, i, w)
    ensures EdgeOK(r, f0, s', i, w)
  {
    assert VertexOK(r, f0, s, w);
    forall p | 0 <= p < |s'.stack| && s'.stack[p] == w ensures s'.index[i] <= p + 1 {
      assert StackOK(r, s', p);
      assert w in s.stack;
      var q :| 0 <= q < |s.stack| && s.stack[q] == w;
      assert s'.stack[q] == w;
    }
  }

  /** A call made from `i` keeps what `i` had established below. */
  lemma SegmentKept(r: Lists, f0: seq<set<nat>>, s: State, s': State, i: nat, from: nat, m: nat)
    requires Inv(r, f0, s) && Inv(r, f0, s') && Frame(r, s, s') && Segment(r, f0, s, i, from, m)
    ensures SegmentBelow(r, f0, s', i, from, m, |s.stack|)
  {
    assert i in s.stack;
    forall e | 0 <= e < m ensures EdgeOK(r, f0, s', i, r[i][e]) {
      EdgeKept(r, f0, s, s', i, r[i][e]);
    }
    forall k | from < k < |s.stack| ensures StackOK(r, s', k) && Left(r, f0, s', i, k) {
      assert StackOK(r, s', k);
      LeftKept(r, f0, s, s', i, k);
    }
  }

  lemma LeftKept(r: Lists, f0: seq<set<nat>>, s: State, s': State, i: nat, k: nat)
    requires Inv(r, f0, s) && Inv(r, f0, s') && Frame(r, s, s')
    requires i < |r| && i in s.stack && k < |s.stack| && s.stack[k] < |r| && Left(r, f0, s, i, k)
    ensures Left(r, f0, s', i, k)
  {
    var u := s.stack[k];
    assert u in s.stack;
    forall e | 0 <= e < |r[u]| ensures EdgeOK(r, f0, s', i, r[u][e]) {
      EdgeKept(r, f0, s, s', i, r[u][e]);
    }
  }

  function Min(a: int, b: int): int { if a > b then b else a }

  /** `i` takes over the mark and the row of `j`. */
  function Merge(s: State, i: nat, j: nat): State
    requires i < |s.f| == |s.index| && j < |s.f|
  {
    State(s.f[i := s.f[i] + s.f[j]], s.index[i := Min(s.index[i], s.index[j])], s.stack)
  }

  lemma MergeInv(r: Lists, f0: seq<set<nat>>, s: State, i: nat, j: nat, from: nat)
    requires Inv(r, f0, s) && i < |r| && j < |r| && from < |s.stack| && s.stack[from] == i
    requires s.index[j] != 0 && Reach(Rel(r), i, j)
    ensures Inv(r, f0, Merge(s, i, j))
  {
    var t := Merge(s, i, j);
    assert StackOK(r, s, from) && VertexOK(r, f0, s, i) && VertexOK(r, f0, s, j);
    FullMonotone(r, f0, i, j);
    if s.index[j] < s.index[i] {
      MarkReached(r, f0, s, i, j);
    }
    forall k: nat | k < |t.stack| ensures StackOK(r, t, k) {
      assert StackOK(r, s, k);
    }
    forall v: nat | v < |r| ensures VertexOK(r, f0, t, v) {
      assert VertexOK(r, f0, s, v);
      if v != i && s.index[v] == Infinity(|r|) {
        assert DoneOK(r, f0, t, v);
      }
    }
  }

  lemma MarkReached(r: Lists, f0: seq<set<nat>>, s: State, i: nat, j: nat)
    requires Inv(r, f0, s) && i < |r| && j < |r| && Reach(Rel(r), i, j)
    requires s.index[j] != 0 && s.index[j] != Infinity(|r|)
    ensures 1 <= s.index[j] <= |s.stack| && Reach(Rel(r), i, s.stack[s.index[j] - 1])
  {
    assert VertexOK(r, f0, s, j);
    var k :| 0 <= k < |s.stack| && s.stack[k] == j;
    assert StackOK(r, s, k);
    ReachTrans(Rel(r), i, j, s.stack[s.index[j] - 1]);
  }

  /** Edges accounted for at `i` or at `j` are accounted for at `i` after the merge. */
  lemma MergeEdge(r: Lists, f0: seq<set<nat>>, s: State, i: nat, j: nat, w: nat)
    requires Inv(r, f0, s) && i < |r| && j < |r| && w < |r| && Inv(r, f0, Merge(s, i, j))
    requires s.index[j] != 0 && i in s.stack
    requires EdgeOK(r, f0, s, i, w) || EdgeOK(r, f0, s, j, w)
    ensures EdgeOK(r, f0, Merge(s, i, j), i, w)
  {
    var t := Merge(s, i, j);
    if w == i {
      var p :| 0 <= p < |t.stack| && t.stack[p] == i;
      assert StackOK(r, t, p);
    }
  }

  /** The edge to `j` itself. */
  lemma MergeNewEdge(r: Lists, f0: seq<set<nat>>, s: State, i: nat, j: nat)
    requires Inv(r, f0, s) && i < |r| && j < |r| && Inv(r, f0, Merge(s, i, j))
    requires s.index[j] != 0 && i in s.stack
    ensures EdgeOK(r, f0, Merge(s, i, j), i, j)
  {
    var t := Merge(s, i, j);
    assert VertexOK(r, f0, s, j) && VertexOK(r, f0, t, j) && VertexOK(r, f0, t, i);
    forall p | 0 <= p < |t.stack| && t.stack[p] == j ensures t.index[i] <= p + 1 {
      assert StackOK(r, s, p);
    }
    var q :| 0 <= q < |t.stack| && t.stack[q] == i;
    assert StackOK(r, t, q);
  }

  lemma MergeLeft(r: Lists, f0: seq<set<nat>>, s: State, i: nat, j: nat, from: nat, k: nat)
    requires Inv(r, f0, s) && i < |r| && j < |r| && from < k < |s.stack| && s.stack[from] == i && s.stack[k] < |r|
    requires Inv(r, f0, Merge(s, i, j)) && s.index[j] != 0 && Reach(Rel(r), i, j)
    requires Left(r, f0, s, i, k) || Left(r, f0, s, j, k)
    ensures Left(r, f0, Merge(s, i, j), i, k)
  {
    var u, t := s.stack[k], Merge(s, i, j);
    assert u != i;
    if Left(r, f0, s, j, k) {
      ReachTrans(Rel(r), i, j, u);
      assert EdgesOK(r, f0, s, j, u, |r[u]|);
    } else {
      assert EdgesOK(r, f0, s, i, u, |r[u]|);
    }
    assert s.stack[from] in s.stack;
    forall e | 0 <= e < |r[u]| ensures EdgeOK(r, f0, t, i, r[u][e]) {
      MergeEdge(r, f0, s, i, j, r[u][e]);
    }
  }

  /** The vertex `j` itself, left on the stack above `i`. */
  lemma MergeChild(r: Lists, f0: seq<set<nat>>, s: State, i: nat, j: nat, from: nat, upto: nat)
    requires Inv(r, f0, s) && i < |r| && j < |r| && from < upto && upto < |s.stack| && s.stack[from] == i
    requires Segment(r, f0, s, j, upto, |r[j]|) && s.index[j] <= upto
    requires Inv(r, f0, Merge(s, i, j)) && s.index[j] != 0 && Reach(Rel(r), i, j)
    ensures Left(r, f0, Merge(s, i, j), i, upto)
  {
    var t := Merge(s, i, j);
    assert VertexOK(r, f0, s, j);
    assert s.stack[from] in s.stack && s.stack[upto] == j;
    forall e | 0 <= e < |r[j]| ensures EdgeOK(r, f0, t, i, r[j][e]) {
      MergeEdge(r, f0, s, i, j, r[j][e]);
    }
  }

  /** One more edge handled: nothing above `upto`, or what visiting `j` left there. */
  lemma HandleEdge(r: Lists, f0: seq<set<nat>>, s: State, i: nat, from: nat, m: nat, upto: nat)
    requires Inv(r, f0, s) && SegmentBelow(r, f0, s, i, from, m, upto) && m < |r[i]|
    requires s.index[r[i][m]] != 0
    requires upto == |s.stack| ||
      (Segment(r, f0, s, r[i][m], upto, |r[r[i][m]]|) && s.index[r[i][m]] <= upto)
    ensures Inv(r, f0, Merge(s, i, r[i][m]))
    ensures Segment(r, f0, Merge(s, i, r[i][m]), i, from, m + 1)
  {
    var j := r[i][m];
    ListEdge(r, i, m);
    MergeInv(r, f0, s, i, j, from);
    var t := Merge(s, i, j);
    assert s.stack[from] in s.stack;
    forall e | 0 <= e < m + 1 ensures EdgeOK(r, f0, t, i, r[i][e]) {
      if e < m {
        MergeEdge(r, f0, s, i, j, r[i][e]);
      } else {
        MergeNewEdge(r, f0, s, i, j);
      }
    }
    forall k | from < k < |t.stack| ensures StackOK(r, t, k) && Left(r, f0, t, i, k) {
      assert StackOK(r, t, k) && StackOK(r, s, k);
      if k == upto {
        MergeChild(r, f0, s, i, j, from, upto);
      } else {
        MergeLeft(r, f0, s, i, j, from, k);
      }
    }
  }

  // ---------------------------------------------------------------------
  // The root of a component
  // ---------------------------------------------------------------------

  /** All edges of `i` are handled and its mark is still its own position. */
  ghost predicate AtRoot(r: Lists, f0: seq<set<nat>>, s: State, i: nat, from: nat)
  {
    Inv(r, f0, s) && i < |r| && Segment(r, f0, s, i, from, |r[i]|) && s.index[i] == from + 1
  }

  /** Everything reachable from the segment of a root is in the row of the root. */
  lemma {:induction false} RootCovers(r: Lists, f0: seq<set<nat>>, s: State, i: nat, from: nat, k: nat, z: nat, n: nat)
    requires AtRoot(r, f0, s, i, from)
    requires from <= k < |s.stack| && z < |r| && Walk(Rel(r), s.stack[k], z, n)
    ensures f0[z] <= s.f[i]
    decreases n
  {
    var u := s.stack[k];
    assert StackOK(r, s, k) && VertexOK(r, f0, s, i);
    assert k > from ==> Left(r, f0, s, i, k);
    assert EdgesOK(r, f0, s, i, u, |r[u]|);
    if n > 0 {
      var w: nat :| w in Rel(r)[u] && Walk(Rel(r), w, z, n - 1);
      var e :| 0 <= e < |r[u]| && r[u][e] == w;
      assert EdgeOK(r, f0, s, i, r[u][e]) && VertexOK(r, f0, s, w);
      if s.index[w] == Infinity(|r|) {
        assert Reach(Rel(r), w, z);
      } else {
        var p :| 0 <= p < |s.stack| && s.stack[p] == w;
        RootCovers(r, f0, s, i, from, p, z, n - 1);
      }
    }
  }

  lemma RootFull(r: Lists, f0: seq<set<nat>>, s: State, i: nat, from: nat)
    requires AtRoot(r, f0, s, i, from)
    ensures s.f[i] == Full(r, f0, i)
  {
    assert VertexOK(r, f0, s, i);
    forall x | x in Full(r, f0, i) ensures x in s.f[i] {
      var z :| 0 <= z < |r| && Reach(Rel(r), i, z) && x in f0[z];
      var n: nat :| Walk(Rel(r), i, z, n);
      RootCovers(r, f0, s, i, from, from, z, n);
    }
  }

  /** Every vertex of the segment reaches the root. */
  lemma {:induction false} ReachesRoot(r: Lists, f0: seq<set<nat>>, s: State, i: nat, from: nat, k: nat)
    requires AtRoot(r, f0, s, i, from)
    requires from <= k < |s.stack|
    ensures s.stack[k] < |r| && Reach(Rel(r), s.stack[k], i)
    ensures k > from ==> Reach(Rel(r), i, s.stack[k])
    decreases k
  {
    assert StackOK(r, s, k);
    if k == from {
      ReachRefl(Rel(r), i);
    } else {
      assert Left(r, f0, s, i, k);
      var p := s.index[s.stack[k]] - 1;
      ReachesRoot(r, f0, s, i, from, p);
      ReachTrans(Rel(r), s.stack[k], s.stack[p], i);
    }
  }

  /** The vertices of a component have the same result. */
  lemma ComponentFull(r: Lists, f0: seq<set<nat>>, s: State, i: nat, from: nat, k: nat)
    requires AtRoot(r, f0, s, i, from)
    requires from <= k < |s.stack|
    ensures s.stack[k] < |r| && Full(r, f0, s.stack[k]) == s.f[i]
  {
    ReachesRoot(r, f0, s, i, from, k);
    RootFull(r, f0, s, i, from);
    FullMonotone(r, f0, s.stack[k], i);
    if k > from {
      FullMonotone(r, f0, i, s.stack[k]);
    }
  }

  /** `t` is `s` with the stack cut to `len`; the removed vertices are finished and
      have the row of `i`. */
  ghost predicate PoppedTo(r: Lists, s: State, t: State, i: nat, len: nat) {
    |s.f| == |s.index| == |t.f| == |t.index| == |r| && i < |r| && len <= |s.stack| &&
    t.stack == s.stack[..len] &&
    forall v: nat :: v < |r| ==>
      if v in s.stack[len..] then t.index[v] == Infinity(|r|) && t.f[v] == s.f[i]
      else t.index[v] == s.index[v] && t.f[v] == s.f[v]
  }

  lemma PopStep(r: Lists, s: State, t: State, i: nat, len: nat)
    requires PoppedTo(r, s, t, i, len) && len > 0 && NoRepeats(s.stack)
    requires s.stack[len - 1] < |r|
    ensures PoppedTo(r, s, State(t.f[s.stack[len - 1] := s.f[i]], t.index[s.stack[len - 1] := Infinity(|r|)], t.stack[..len - 1]), i, len - 1)
  {
    var j := s.stack[len - 1];
    assert s.stack[len - 1..] == [j] + s.stack[len..];
  }

  lemma RootDone(r: Lists, f0: seq<set<nat>>, s: State, t: State, i: nat, from: nat)
    requires AtRoot(r, f0, s, i, from)
    requires PoppedTo(r, s, t, i, from)
    ensures Inv(r, f0, t) && t.index[i] == Infinity(|r|)
  {
    assert s.stack[from..][0] == i;
    forall k: nat | k < |t.stack| ensures StackOK(r, t, k) {
      assert StackOK(r, s, k);
      BelowNotRemoved(s, from, k);
    }
    forall v: nat | v < |r| ensures VertexOK(r, f0, t, v) {
      RootDoneVertex(r, f0, s, t, i, from, v);
    }
  }

  lemma BelowNotRemoved(s: State, from: nat, k: nat)
    requires NoRepeats(s.stack) && k < from <= |s.stack|
    ensures s.stack[k] !in s.stack[from..]
  {
    forall l | 0 <= l < |s.stack| - from ensures s.stack[from..][l] != s.stack[k] {
      assert s.stack[from..][l] == s.stack[from + l];
    }
  }

  lemma RootDoneVertex(r: Lists, f0: seq<set<nat>>, s: State, t: State, i: nat, from: nat, v: nat)
    requires AtRoot(r, f0, s, i, from)
    requires PoppedTo(r, s, t, i, from) && v < |r|
    ensures VertexOK(r, f0, t, v)
  {
    assert VertexOK(r, f0, s, v);
    FullSelf(r, f0, v);
    if v in s.stack[from..] {
      var l :| 0 <= l < |s.stack| - from && s.stack[from..][l] == v;
      var k := from + l;
      assert s.stack[k] == v;
      ComponentFull(r, f0, s, i, from, k);
      assert k > from ==> Left(r, f0, s, i, k);
      assert EdgesOK(r, f0, s, i, v, |r[v]|);
      forall e | 0 <= e < |r[v]| ensures t.index[r[v][e]] == Infinity(|r|) {
        assert EdgeOK(r, f0, s, i, r[v][e]);
        EdgeFinished(r, f0, s, t, i, from, r[v][e]);
      }
    } else if s.index[v] == Infinity(|r|) {
      forall e | 0 <= e < |r[v]| ensures t.index[r[v][e]] == Infinity(|r|) {
        assert s.index[r[v][e]] == Infinity(|r|);
      }
    } else if s.index[v] != 0 {
      var k :| 0 <= k < |s.stack| && s.stack[k] == v;
      assert t.stack[k] == v;
    }
  }

  lemma EdgeFinished(r: Lists, f0: seq<set<nat>>, s: State, t: State, i: nat, from: nat, w: nat)
    requires Inv(r, f0, s) && i < |r| && s.index[i] == from + 1 && from < |s.stack|
    requires PoppedTo(r, s, t, i, from) && w < |r| && EdgeOK(r, f0, s, i, w)
    ensures t.index[w] == Infinity(|r|)
  {
    assert VertexOK(r, f0, s, w);
    if s.index[w] != Infinity(|r|) {
      var p :| 0 <= p < |s.stack| && s.stack[p] == w;
      assert s.stack[from..][p - from] == w;
    }
  }

  /** The vertices not visited yet. */
  ghost function Unvisited(s: State): set<nat> {
    set v: nat | v < |s.index| && s.index[v] == 0
  }

  lemma UnvisitedShrinks(r: Lists, a: State, s: State, i: nat)
    requires Frame(r, a, s) && i < |r| && a.index[i] == 0 && s.index[i] != 0
    ensures Unvisited(s) < Unvisited(a)
  {
    assert i in Unvisited(a) && i !in Unvisited(s);
  }

  // ---------------------------------------------------------------------
  // Frames
  // ---------------------------------------------------------------------

  lemma FrameTrans(r: Lists, a: State, b: State, c: State)
    requires Frame(r, a, b) && Frame(r, b, c)
    ensures Frame(r, a, c)
  {
    forall v | v in a.stack ensures v in b.stack {
      var k :| 0 <= k < |a.stack| && a.stack[k] == v;
      assert b.stack[k] == v;
    }
  }

  lemma FrameMerge(r: Lists, f0: seq<set<nat>>, a: State, s: State, i: nat, j: nat)
    requires Frame(r, a, s) && Inv(r, f0, s) && i < |r| && j < |r| && i !in a.stack
    requires s.index[i] != Infinity(|r|) && Inv(r, f0, Merge(s, i, j)) && i in s.stack
    ensures Frame(r, a, Merge(s, i, j))
  {
    var t := Merge(s, i, j);
    var k :| 0 <= k < |t.stack| && t.stack[k] == i;
    assert StackOK(r, t, k);
  }

  lemma StillOnStack(r: Lists, f0: seq<set<nat>>, a: State, s: State, i: nat)
    requires Inv(r, f0, s) && Frame(r, a, s) && |a.stack| < |s.stack| && s.stack[|a.stack|] == i
    ensures i < |r| && i in s.stack && i !in a.stack && s.index[i] != Infinity(|r|)
  {
    assert StackOK(r, s, |a.stack|);
    forall k | 0 <= k < |a.stack| ensures a.stack[k] != i {
      assert s.stack[k] != s.stack[|a.stack|];
    }
  }

  lemma FramePop(r: Lists, a: State, s: State, t: State, i: nat)
    requires Frame(r, a, s) && NoRepeats(s.stack) && PoppedTo(r, s, t, i, |a.stack|)
    ensures Frame(r, a, t) && t.stack == a.stack
  {
    forall v: nat | v in a.stack ensures v !in s.stack[|a.stack|..] {
      var k :| 0 <= k < |a.stack| && a.stack[k] == v;
      assert s.stack[k] == v;
      BelowNotRemoved(s, |a.stack|, k);
    }
  }

  // ---------------------------------------------------------------------
  // The traversal over the arrays
  // ---------------------------------------------------------------------

  /** The globals of lalr.c used by digraph: `F` holds `n` rows of `w` words, the
      stack is `VERTICES[1..top]`. */
  class Digraph {
    const r: Lists
    const n: nat
    const w: nat
    const F: array<bv32>
    const INDEX: array<int>
    const VERTICES: array<nat>
    var top: nat

    ghost predicate Shape()
      reads this, F, INDEX, VERTICES
    {
      n == |r| && ValidLists(r) && Matrix(F[..], n, w) &&
      INDEX.Length == n + 1 && VERTICES.Length == n + 1 && top <= n &&
      (INDEX as object) != (VERTICES as object) && (INDEX as object) != (F as object) && (VERTICES as object) != (F as object)
    }

    ghost function View(): (s: State)
      requires Shape()
      reads this, F, INDEX, VERTICES
      ensures |s.f| == |s.index| == n && |s.stack| == top
    {
      State(Rows(F[..], n, w), INDEX[..n], VERTICES[1..top + 1])
    }

    constructor (r0: Lists, w0: nat, f: array<bv32>)
      requires ValidLists(r0) && Matrix(f[..], |r0|, w0)
      ensures Shape() && r == r0 && n == |r0| && w == w0 && F == f
      ensures fresh(INDEX) && fresh(VERTICES)
      ensures View().stack == [] && View().f == Rows(f[..], |r0|, w0)
      ensures forall v :: 0 <= v < n ==> View().index[v] == 0
    {
      r, n, w, F, top := r0, |r0|, w0, f, 0;
      var i := new int[|r0| + 1](_ => 0);
      var v := new nat[|r0| + 1](_ => 0);
      INDEX, VERTICES := i, v;
    }

    /** traverse */
    method Traverse(i: nat, ghost f0: seq<set<nat>>)
      requires Shape() && i < n && Inv(r, f0, View()) && View().index[i] == 0
      modifies this`top, F, INDEX, VERTICES
      ensures Shape() && Inv(r, f0, View())
      ensures Visited(r, f0, old(View()), View(), i)
      decreases Unvisited(View()), 0
    {
      ghost var s0 := View();
      StackRoom(r, f0, s0, i);
      PushOK(r, f0, s0, i);
      top := top + 1;
      VERTICES[top] := i;
      var height := top;
      INDEX[i] := height;
      assert View() == Push(s0, i);

      var rp := 0;
      while rp < |r[i]|
        invariant 0 <= rp <= |r[i]| && Shape()
        invariant Inv(r, f0, View()) && Segment(r, f0, View(), i, |s0.stack|, rp)
        invariant Frame(r, s0, View())
      {
        assert StackOK(r, View(), |s0.stack|);
        UnvisitedShrinks(r, s0, View(), i);
        HandleSuccessor(i, rp, height, f0, s0);
        rp := rp + 1;
      }

      if INDEX[i] == height {
        PopComponent(i, height, f0, s0);
      } else {
        assert StackOK(r, View(), |s0.stack|);
      }
    }

    /** One round of the loop of traverse over the successors of `i`. */
    method HandleSuccessor(i: nat, rp: nat, height: nat, ghost f0: seq<set<nat>>, ghost s0: State)
      requires Shape() && i < n && rp < |r[i]| && height == |s0.stack| + 1
      requires Inv(r, f0, View()) && Segment(r, f0, View(), i, |s0.stack|, rp) && Frame(r, s0, View())
      requires |s0.index| == n && s0.index[i] == 0
      modifies this`top, F, INDEX, VERTICES
      ensures Shape() && Inv(r, f0, View()) && Segment(r, f0, View(), i, |s0.stack|, rp + 1)
      ensures Frame(r, s0, View())
      decreases Unvisited(View()), 1
    {
      ghost var s1 := View();
      var j := r[i][rp];
      ghost var upto := |s1.stack|;
      if INDEX[j] == 0 {
        Traverse(j, f0);
        SegmentKept(r, f0, s1, View(), i, |s0.stack|, rp);
        FrameTrans(r, s0, s1, View());
      }
      ghost var s2 := View();
      HandleEdge(r, f0, s2, i, |s0.stack|, rp, upto);
      StillOnStack(r, f0, s0, s2, i);
      FrameMerge(r, f0, s0, s2, i, j);
      MergeInto(i, j);
    }

    /** Take over the lower mark and or in the row. */
    method MergeInto(i: nat, j: nat)
      requires Shape() && i < n && j < n
      modifies F, INDEX
      ensures Shape() && View() == Merge(old(View()), i, j)
    {
      ghost var s := View();
      if INDEX[i] > INDEX[j] {
        INDEX[i] := INDEX[j];
      }
      OrRow(F, n, w, i, j);
    }

    /** The pop loop at the end of traverse. */
    method PopComponent(i: nat, height: nat, ghost f0: seq<set<nat>>, ghost s0: State)
      requires Shape() && i < n && height == |s0.stack| + 1 && AtRoot(r, f0, View(), i, |s0.stack|)
      requires Frame(r, s0, View())
      modifies this`top, F, INDEX, VERTICES
      ensures Shape() && Inv(r, f0, View()) && View().stack == s0.stack
      ensures View().index[i] == Infinity(n) && Frame(r, s0, View())
    {
      ghost var s := View();
      ghost var from := |s0.stack|;
      assert s.stack[|s.stack|..] == [];
      while true
        invariant Shape() && from < top <= |s.stack|
        invariant PoppedTo(r, s, View(), i, top)
        decreases top
      {
        assert StackOK(r, s, top - 1);
        var j := PopOne(i, s, from);
        if i == j {
          break;
        }
      }
      RootDone(r, f0, s, View(), i, from);
      FramePop(r, s0, s, View(), i);
    }

    /** Pop one vertex, finish it and give it the row of the root. */
    method PopOne(i: nat, ghost s: State, ghost from: nat) returns (j: nat)
      requires Shape() && i < n && from < top <= |s.stack| && NoRepeats(s.stack) && s.stack[from] == i
      requires PoppedTo(r, s, View(), i, top) && s.stack[top - 1] < n
      modifies this`top, F, INDEX, VERTICES
      ensures Shape() && top == old(top) - 1 && j == s.stack[top] && (j == i <==> top == from)
      ensures PoppedTo(r, s, View(), i, top)
    {
      ghost var t := View();
      j := VERTICES[top];
      assert j == t.stack[top - 1];
      PopStep(r, s, t, i, top);
      RowOfRoot(r, s, t, i, from, top);
      top := top - 1;
      INDEX[j] := n + 2;
      if i != j {
        CopyRow(F, n, w, j, i);
      }
      assert View() == State(t.f[j := s.f[i]], t.index[j := Infinity(n)], t.stack[..top]);
    }

    /** digraph: every row ends as the union over all reachable vertices. */
    method Run(ghost f0: seq<set<nat>>)
      requires Shape() && top == 0 && f0 == View().f
      requires forall v :: 0 <= v < n ==> View().index[v] == 0
      modifies this`top, F, INDEX, VERTICES
      ensures Shape() && top == 0
      ensures forall i :: 0 <= i < n ==> Rows(F[..], n, w)[i] == Full(r, f0, i)
    {
      InitialInv(r, f0, View());
      var i := 0;
      while i < n
        invariant 0 <= i <= n && Shape() && Inv(r, f0, View()) && top == 0
        invariant forall v: nat :: v < i ==> View().index[v] != 0 || r[v] == []
      {
        if INDEX[i] == 0 && r[i] != [] {
          ghost var s := View();
          Traverse(i, f0);
          NothingBelow(r, f0, s, View(), i);
        }
        i := i + 1;
      }
      AllFinal(r, f0, View());
    }
  }

  /** While the root is on the stack its row stays as it was. */
  lemma RowOfRoot(r: Lists, s: State, t: State, i: nat, from: nat, len: nat)
    requires PoppedTo(r, s, t, i, len) && NoRepeats(s.stack) && from < len && s.stack[from] == i
    ensures t.f[i] == s.f[i]
    ensures s.stack[len - 1] == i ==> len == from + 1
  {
    BelowNotRemoved(s, len, from);
  }

  lemma InitialInv(r: Lists, f0: seq<set<nat>>, s: State)
    requires ValidLists(r) && |s.f| == |s.index| == |r| && f0 == s.f && s.stack == []
    requires forall v :: 0 <= v < |r| ==> s.index[v] == 0
    ensures Inv(r, f0, s)
  {
    forall v: nat | v < |r| ensures VertexOK(r, f0, s, v) {
      FullSelf(r, f0, v);
    }
  }

  /** From an empty stack every visit ends with an empty stack. */
  lemma NothingBelow(r: Lists, f0: seq<set<nat>>, s: State, s': State, i: nat)
    requires Inv(r, f0, s') && Visited(r, f0, s, s', i) && s.stack == []
    ensures s'.stack == []
    ensures forall v: nat :: v < |r| && s.index[v] != 0 ==> s'.index[v] != 0
  {
    if s'.index[i] != Infinity(|r|) {
      MarkPositive(r, f0, s', i);
    }
  }

  lemma MarkPositive(r: Lists, f0: seq<set<nat>>, s: State, i: nat)
    requires Inv(r, f0, s) && s.stack != [] && s.stack[0] == i
    ensures i < |r| && s.index[i] == 1
  {
    assert StackOK(r, s, 0);
  }

  lemma AllFinal(r: Lists, f0: seq<set<nat>>, s: State)
    requires Inv(r, f0, s) && s.stack == []
    requires forall v: nat :: v < |r| ==> s.index[v] != 0 || r[v] == []
    ensures forall v :: 0 <= v < |r| ==> s.f[v] == Full(r, f0, v)
  {
    forall v: nat | v < |r| ensures s.f[v] == Full(r, f0, v) {
      assert VertexOK(r, f0, s, v);
      if s.index[v] == 0 {
        NoSuccessors(r, f0, v);
      }
    }
  }

  lemma NoSuccessors(r: Lists, f0: seq<set<nat>>, v: nat)
    requires |f0| == |r| && v < |r| && r[v] == []
    ensures Full(r, f0, v) == f0[v]
  {
    FullSelf(r, f0, v);
    forall x | x in Full(r, f0, v) ensures x in f0[v] {
      var z :| 0 <= z < |r| && Reach(Rel(r), v, z) && x in f0[z];
      var n: nat :| Walk(Rel(r), v, z, n);
    }
  }

  // ---------------------------------------------------------------------
  // The result as a least solution
  // ---------------------------------------------------------------------

  /** `f` contains the initial rows and is closed along the edges. */
  ghost predicate Solution(r: Lists, f0: seq<set<nat>>, f: seq<set<nat>>) {
    ValidLists(r) && |f0| == |f| == |r| &&
    (forall i :: 0 <= i < |r| ==> f0[i] <= f[i]) &&
    (forall i, k :: 0 <= i < |r| && 0 <= k < |r[i]| ==> f[r[i][k]] <= f[i])
  }

  /** The rows that digraph computes. */
  ghost function FullRows(r: Lists, f0: seq<set<nat>>): seq<set<nat>>
    requires |f0| == |r|
  {
    seq(|r|, i requires 0 <= i < |r| => Full(r, f0, i))
  }

  lemma FullIsSolution(r: Lists, f0: seq<set<nat>>)
    requires ValidLists(r) && |f0| == |r|
    ensures Solution(r, f0, FullRows(r, f0))
  {
    var f := FullRows(r, f0);
    forall i | 0 <= i < |r| ensures f0[i] <= f[i] {
      FullSelf(r, f0, i);
    }
    forall i, k | 0 <= i < |r| && 0 <= k < |r[i]| ensures f[r[i][k]] <= f[i] {
      ListEdge(r, i, k);
      FullMonotone(r, f0, i, r[i][k]);
    }
  }

  /** No solution is smaller. */
  lemma FullIsLeast(r: Lists, f0: seq<set<nat>>, f: seq<set<nat>>, i: nat)
    requires Solution(r, f0, f) && i < |r|
    ensures Full(r, f0, i) <= f[i]
  {
    forall x | x in Full(r, f0, i) ensures x in f[i] {
      var z :| 0 <= z < |r| && Reach(Rel(r), i, z) && x in f0[z];
      var n: nat :| Walk(Rel(r), i, z, n);
      SolutionAlongWalk(r, f0, f, i, z, n);
    }
  }

  lemma {:induction false} SolutionAlongWalk(r: Lists, f0: seq<set<nat>>, f: seq<set<nat>>, i: nat, z: nat, n: nat)
    requires Solution(r, f0, f) && i < |r| && z < |r| && Walk(Rel(r), i, z, n)
    ensures f0[z] <= f[i]
    decreases n
  {
    if n > 0 {
      var k: nat :| k in Rel(r)[i] && Walk(Rel(r), k, z, n - 1);
      var e :| 0 <= e < |r[i]| && r[i][e] == k;
      SolutionAlongWalk(r, f0, f, k, z, n - 1);
    }
  }
}
