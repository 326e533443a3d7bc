/** byacc/output.c, sort_actions to pack_vector: all rows and columns of the parsing
    tables are overlaid in one table.  A vector is stored at a displacement of its own;
    every cell remembers in `check` the key it was stored under. */
module Packing {

  /** A sparse row or column: `to[k]` is stored under key `from[k]`; the tally is the
      number of keys. */
  datatype Vector = Vector(from: seq<int>, to: seq<int>, width: int)

  function Tally(v: Vector): nat { |v.from| }

  ghost predicate VectorOK(v: Vector) {
    |v.from| == |v.to| && (forall k :: 0 <= k < |v.from| ==> v.from[k] >= 0) &&
    forall k, l :: 0 <= k < l < |v.from| ==> v.from[k] != v.from[l]
  }

  /** The vector has value `val` under `key`. */
  ghost predicate Entry(v: Vector, key: int, val: int) {
    exists k :: 0 <= k < |v.from| && k < |v.to| && v.from[k] == key && v.to[k] == val
  }

  ghost predicate SameContents(v: Vector, u: Vector) {
    v.from == u.from && v.to == u.to
  }

  // ---------------------------------------------------------------------
  // sort_actions
  // ---------------------------------------------------------------------

  /** Wider vectors first, and among equally wide ones those with more entries. */
  predicate NotAfter(v: Vector, u: Vector) {
    v.width > u.width || (v.width == u.width && Tally(v) >= Tally(u))
  }

  ghost predicate SortedBy(vectors: seq<Vector>, order: seq<nat>) {
    (forall k :: 0 <= k < |order| ==> order[k] < |vectors|) &&
    forall k, l :: 0 <= k < l < |order| ==> NotAfter(vectors[order[k]], vectors[order[l]])
  }

  ghost predicate Distinct(order: seq<nat>) {
    forall k, l :: 0 <= k < l < |order| ==> order[k] != order[l]
  }

  /** `order` names every non-empty vector below `n` once, sorted. */
  ghost predicate IsOrder(vectors: seq<Vector>, n: nat, order: seq<nat>) {
    SortedBy(vectors, order) && Distinct(order) &&
    forall i: nat :: i in order <==> i < n && i < |vectors| && Tally(vectors[i]) > 0
  }

  method SortActions(vectors: seq<Vector>) returns (order: seq<nat>)
    ensures IsOrder(vectors, |vectors|, order)
  {
    var a := new nat[|vectors|];
    var nentries := 0;
    for i := 0 to |vectors|
      invariant 0 <= nentries <= i && IsOrder(vectors, i, a[..nentries])
    {
      if Tally(vectors[i]) > 0 {
        InsertVector(vectors, a, nentries, i);
        nentries := nentries + 1;
      }
    }
    order := a[..nentries];
  }

  /** The place found by the two searches: everything before it comes first. */
  method FindPlace(vectors: seq<Vector>, order: array<nat>, nentries: nat, i: nat) returns (j: int)
    requires nentries < order.Length && i < |vectors| && SortedBy(vectors, order[..nentries])
    ensures -1 <= j < nentries
    ensures forall k :: 0 <= k <= j ==> order[k] < |vectors| && NotAfter(vectors[order[k]], vectors[i])
    ensures forall k :: j < k < nentries ==> order[k] < |vectors| && NotAfter(vectors[i], vectors[order[k]])
  {
    var t, w := Tally(vectors[i]), vectors[i].width;
    j := nentries - 1;
    ghost var s := order[..nentries];
    assert forall k :: 0 <= k < nentries ==> order[k] == s[k] && s[k] < |vectors|;
    while j >= 0 && vectors[order[j]].width < w
      invariant -1 <= j < nentries && s == order[..nentries]
      invariant forall k :: j < k < nentries ==> NotAfter(vectors[i], vectors[s[k]])
    {
      j := j - 1;
    }
    while j >= 0 && vectors[order[j]].width == w && Tally(vectors[order[j]]) < t
      invariant -1 <= j < nentries && s == order[..nentries]
      invariant j >= 0 ==> vectors[s[j]].width >= w
      invariant forall k :: j < k < nentries ==> NotAfter(vectors[i], vectors[s[k]])
    {
      assert j > 0 ==> NotAfter(vectors[s[j - 1]], vectors[s[j]]);
      j := j - 1;
    }
    forall k | 0 <= k <= j ensures NotAfter(vectors[s[k]], vectors[i]) {
      assert k < j ==> NotAfter(vectors[s[k]], vectors[s[j]]);
    }
  }

  /** Shift the tail of the order and put vector `i` in. */
  method InsertVector(vectors: seq<Vector>, order: array<nat>, nentries: nat, i: nat)
    requires nentries < order.Length && i < |vectors| && Tally(vectors[i]) > 0
    requires IsOrder(vectors, i, order[..nentries])
    modifies order
    ensures IsOrder(vectors, i + 1, order[..nentries + 1])
  {
    ghost var s := order[..nentries];
    var j := FindPlace(vectors, order, nentries, i);
    assert forall k :: 0 <= k < nentries ==> order[k] == s[k];
    PutAt(order, nentries, j + 1, i);
    Inserted(vectors, s, j + 1, i);
  }

  /** Move the elements from `p` on one place up and write `i` at `p`. */
  method PutAt(order: array<nat>, nentries: nat, p: nat, i: nat)
    requires p <= nentries < order.Length
    modifies order
    ensures order[..nentries + 1] == old(order[..nentries])[..p] + [i] + old(order[..nentries])[p..]
  {
    ghost var s := order[..nentries];
    var k := nentries - 1;
    while k > p - 1
      invariant p - 1 <= k < nentries
      invariant forall m :: 0 <= m <= k ==> order[m] == s[m]
      invariant forall m :: k < m < nentries ==> order[m + 1] == s[m]
    {
      order[k + 1] := order[k];
      k := k - 1;
    }
    order[p] := i;
  }

  lemma Inserted(vectors: seq<Vector>, s: seq<nat>, p: nat, i: nat)
    requires p <= |s| && i < |vectors| && Tally(vectors[i]) > 0 && IsOrder(vectors, i, s)
    requires forall k :: 0 <= k < p ==> NotAfter(vectors[s[k]], vectors[i])
    requires forall k :: p <= k < |s| ==> NotAfter(vectors[i], vectors[s[k]])
    ensures IsOrder(vectors, i + 1, s[..p] + [i] + s[p..])
  {
    var r := s[..p] + [i] + s[p..];
    assert s == s[..p] + s[p..];
    assert forall x :: x in r <==> x in s || x == i;
    forall k, l | 0 <= k < l < |r| ensures NotAfter(vectors[r[k]], vectors[r[l]]) && r[k] != r[l] {
      InsertedPair(vectors, s, p, i, k, l);
    }
  }

  lemma InsertedPair(vectors: seq<Vector>, s: seq<nat>, p: nat, i: nat, k: nat, l: nat)
    requires p <= |s| && i < |vectors| && IsOrder(vectors, i, s) && k < l < |s| + 1
    requires forall k :: 0 <= k < p ==> NotAfter(vectors[s[k]], vectors[i])
    requires forall k :: p <= k < |s| ==> NotAfter(vectors[i], vectors[s[k]])
    ensures var r := s[..p] + [i] + s[p..];
      r[k] < |vectors| && r[l] < |vectors| && NotAfter(vectors[r[k]], vectors[r[l]]) && r[k] != r[l]
  {
    var k', l' := if k < p then k else k - 1, if l < p then l else l - 1;
    if k != p && l != p {
      assert NotAfter(vectors[s[k']], vectors[s[l']]) && s[k'] != s[l'];
    } else if k == p {
      assert s[l'] in s;
    } else {
      assert s[k'] in s;
    }
  }

  // ---------------------------------------------------------------------
  // The packed table
  // ---------------------------------------------------------------------

  /** Entry `e` of a vector is found at displacement `place`. */
  ghost predicate CellOK(v: Vector, e: nat, place: int, table: seq<int>, check: seq<int>, high: nat)
    requires VectorOK(v) && e < |v.from|
  {
    0 <= place + v.from[e] <= high && place + v.from[e] < |check| && |table| == |check| &&
    check[place + v.from[e]] == v.from[e] && table[place + v.from[e]] == v.to[e]
  }

  ghost predicate Placed(v: Vector, place: int, table: seq<int>, check: seq<int>, high: nat)
    requires VectorOK(v)
  {
    forall e: nat :: e < |v.from| ==> CellOK(v, e, place, table, check, high)
  }

  /** What is fixed while packing. */
  ghost predicate Plan(vectors: seq<Vector>, order: seq<nat>) {
    (forall i :: 0 <= i < |vectors| ==> VectorOK(vectors[i])) && IsOrder(vectors, |vectors|, order)
  }

  /** The vector packed at step `k`. */
  function VectorAt(vectors: seq<Vector>, order: seq<nat>, k: int): Vector {
    if 0 <= k < |order| && order[k] < |vectors| then vectors[order[k]] else Vector([], [], 0)
  }

  lemma PlanVector(vectors: seq<Vector>, order: seq<nat>, k: nat)
    requires Plan(vectors, order) && k < |order|
    ensures order[k] < |vectors| && VectorOK(VectorAt(vectors, order, k)) && Tally(VectorAt(vectors, order, k)) > 0
  {
    assert order[k] in order;
  }

  /** The cell at `loc` was stored under its key by one of the first `n` vectors. */
  ghost predicate Owned(vectors: seq<Vector>, order: seq<nat>, pos: seq<int>, n: nat, loc: int, key: int)
    requires n <= |pos|
  {
    exists k :: 0 <= k < n && pos[k] == loc - key && key in VectorAt(vectors, order, k).from
  }

  /** Step `k` has been stored, and shares its displacement only with equal vectors. */
  ghost predicate StepOK(vectors: seq<Vector>, order: seq<nat>, pos: seq<int>, n: nat, k: nat, table: seq<int>, check: seq<int>, high: nat)
    requires k < n <= |pos|
  {
    pos[k] != 0 && VectorOK(VectorAt(vectors, order, k)) && Placed(VectorAt(vectors, order, k), pos[k], table, check, high) &&
    forall l :: 0 <= l < n && pos[l] == pos[k] ==> SameContents(VectorAt(vectors, order, k), VectorAt(vectors, order, l))
  }

  ghost predicate Cells(vectors: seq<Vector>, order: seq<nat>, pos: seq<int>, n: nat, check: seq<int>, high: nat)
    requires n <= |pos|
  {
    forall loc :: 0 <= loc < |check| && check[loc] != -1 ==> loc <= high && check[loc] >= 0 && Owned(vectors, order, pos, n, loc, check[loc])
  }

  ghost predicate LowFull(check: seq<int>, lowzero: nat) {
    lowzero <= |check| && forall loc :: 0 <= loc < lowzero ==> check[loc] != -1
  }

  /** The state of the packing after `n` vectors. */
  ghost predicate Packed(vectors: seq<Vector>, order: seq<nat>, pos: seq<int>, n: nat, table: seq<int>, check: seq<int>, high: nat) {
    n <= |pos| && |table| == |check| && high < |check| &&
    (forall k: nat :: k < n ==> StepOK(vectors, order, pos, n, k, table, check, high)) &&
    Cells(vectors, order, pos, n, check, high)
  }

  /** What a parser does with a displacement and a key. */
  datatype Found = Nothing | Value(val: int)

  function Probe(base: int, key: int, table: seq<int>, check: seq<int>, high: nat): Found
    requires high < |check| == |table|
  {
    if base != 0 && base + key >= 0 && base + key <= high && check[base + key] == key then Value(table[base + key]) else Nothing
  }

  /** Probing with a key finds exactly the entries of the vector that was stored: no
      cell of another vector answers. */
  lemma ProbeFindsExactly(vectors: seq<Vector>, order: seq<nat>, pos: seq<int>, n: nat, table: seq<int>, check: seq<int>, high: nat,
                          k: nat, key: int, val: int)
    requires Packed(vectors, order, pos, n, table, check, high) && k < n && key >= 0
    ensures Probe(pos[k], key, table, check, high) == Value(val) <==> Entry(VectorAt(vectors, order, k), key, val)
  {
    var v := VectorAt(vectors, order, k);
    assert StepOK(vectors, order, pos, n, k, table, check, high);
    if Entry(v, key, val) {
      var e: nat :| e < |v.from| && v.from[e] == key && v.to[e] == val;
      assert CellOK(v, e, pos[k], table, check, high);
    }
    if Probe(pos[k], key, table, check, high) == Value(val) {
      var loc := pos[k] + key;
      assert Owned(vectors, order, pos, n, loc, check[loc]);
      var l :| 0 <= l < n && pos[l] == loc - key && key in VectorAt(vectors, order, l).from;
      assert SameContents(v, VectorAt(vectors, order, l));
      var e: nat :| e < |v.from| && v.from[e] == key;
      assert CellOK(v, e, pos[k], table, check, high);
    }
  }

  // ---------------------------------------------------------------------
  // Growing and storing, as values
  // ---------------------------------------------------------------------

  /** The arrays after reallocation: the new cells are free. */
  ghost predicate Extends(s: seq<int>, s': seq<int>, fill: int) {
    |s| <= |s'| && s'[..|s|] == s && forall l :: |s| <= l < |s'| ==> s'[l] == fill
  }

  lemma GrownOK(vectors: seq<Vector>, order: seq<nat>, pos: seq<int>, n: nat, table: seq<int>, check: seq<int>, high: nat,
                table': seq<int>, check': seq<int>)
    requires Packed(vectors, order, pos, n, table, check, high) && |table'| == |check'|
    requires Extends(check, check', -1) && table'[..|table|] == table
    ensures Packed(vectors, order, pos, n, table', check', high)
  {
    assert forall l :: 0 <= l < |check| ==> check'[l] == check[l] && table'[l] == table[l];
    forall k: nat | k < n ensures StepOK(vectors, order, pos, n, k, table', check', high) {
      assert StepOK(vectors, order, pos, n, k, table, check, high);
      var v := VectorAt(vectors, order, k);
      forall e: nat | e < |v.from| ensures CellOK(v, e, pos[k], table', check', high) {
        assert CellOK(v, e, pos[k], table, check, high);
      }
    }
  }

  /** Displacement `j` is free for vector `v`. */
  ghost predicate Free(v: Vector, j: int, check: seq<int>) {
    forall e :: 0 <= e < |v.from| ==> 0 <= j + v.from[e] && (j + v.from[e] < |check| ==> check[j + v.from[e]] == -1)
  }

  /** What first fit looks for. */
  ghost predicate Fits(v: Vector, j: int, check: seq<int>, used: seq<int>) {
    j != 0 && Free(v, j, check) && j !in used
  }

  /** The first `m` entries have been stored at displacement `j`. */
  ghost predicate StoredUpto(v: Vector, j: int, m: nat, table: seq<int>, check: seq<int>, high: nat, table': seq<int>, check': seq<int>, high': nat)
    requires VectorOK(v) && m <= |v.from|
  {
    |table'| == |table| == |check| == |check'| && high <= high' < |check| &&
    (forall e: nat :: e < m ==> CellOK(v, e, j, table', check', high')) &&
    forall l :: 0 <= l < |check| ==> WrittenOK(v, j, m, l, table, check, table', check', high')
  }

  /** A cell holds what has been stored in it, and otherwise what it held before. */
  ghost predicate WrittenOK(v: Vector, j: int, m: nat, l: int, table: seq<int>, check: seq<int>, table': seq<int>, check': seq<int>, high': nat)
    requires m <= |v.from| && 0 <= l < |check| == |table| == |check'| == |table'|
  {
    if StoredAt(v, j, m, l) then l <= high' && check'[l] == l - j
    else check'[l] == check[l] && table'[l] == table[l]
  }

  ghost predicate StoredAt(v: Vector, j: int, m: nat, l: int)
    requires m <= |v.from|
  {
    exists e :: 0 <= e < m && j + v.from[e] == l
  }

  lemma StoreStep(v: Vector, j: int, m: nat, table: seq<int>, check: seq<int>, high: nat, table': seq<int>, check': seq<int>, high': nat)
    requires VectorOK(v) && m < |v.from| && StoredUpto(v, j, m, table, check, high, table', check', high')
    requires 0 <= j + v.from[m] < |check|
    ensures var loc := j + v.from[m];
      StoredUpto(v, j, m + 1, table, check, high, table'[loc := v.to[m]], check'[loc := v.from[m]], if loc > high' then loc else high')
  {
    var loc := j + v.from[m];
    var table'', check'', high'' := table'[loc := v.to[m]], check'[loc := v.from[m]], if loc > high' then loc else high';
    var m' := m + 1;
    forall l ensures StoredAt(v, j, m', l) <==> StoredAt(v, j, m, l) || l == loc {
    }
    forall e: nat | e < m' ensures CellOK(v, e, j, table'', check'', high'') {
      assert e < m ==> CellOK(v, e, j, table', check', high');
    }
    forall l | 0 <= l < |check| ensures WrittenOK(v, j, m', l, table, check, table'', check'', high'') {
      assert WrittenOK(v, j, m, l, table, check, table', check', high');
    }
  }

  /** A vector stored at a displacement that fits leaves everything in order. */
  lemma StoredOK(vectors: seq<Vector>, order: seq<nat>, pos: seq<int>, n: nat, j: int, table: seq<int>, check: seq<int>, high: nat,
                 table': seq<int>, check': seq<int>, high': nat)
    requires Plan(vectors, order) && n < |order| && n < |pos| && Packed(vectors, order, pos, n, table, check, high)
    requires VectorOK(VectorAt(vectors, order, n)) && Fits(VectorAt(vectors, order, n), j, check, pos[..n])
    requires StoredUpto(VectorAt(vectors, order, n), j, |VectorAt(vectors, order, n).from|, table, check, high, table', check', high')
    ensures Packed(vectors, order, pos[n := j], n + 1, table', check', high')
  {
    var v, pos', n' := VectorAt(vectors, order, n), pos[n := j], n + 1;
    forall k: nat | k < n' ensures StepOK(vectors, order, pos', n', k, table', check', high') {
      if k < n {
        assert pos[k] == pos[..n][k];
        StepKept(vectors, order, pos, n, j, k, table, check, high, table', check', high');
      } else {
        forall l | 0 <= l < n ensures pos[l] != j {
          assert pos[l] == pos[..n][l];
        }
      }
    }
    CellsKept(vectors, order, pos, n, j, table, check, high, table', check', high');
  }

  lemma StepKept(vectors: seq<Vector>, order: seq<nat>, pos: seq<int>, n: nat, j: int, k: nat, table: seq<int>, check: seq<int>, high: nat,
                 table': seq<int>, check': seq<int>, high': nat)
    requires k < n < |pos| && pos[k] != j && StepOK(vectors, order, pos, n, k, table, check, high)
    requires VectorOK(VectorAt(vectors, order, n)) && Free(VectorAt(vectors, order, n), j, check)
    requires StoredUpto(VectorAt(vectors, order, n), j, |VectorAt(vectors, order, n).from|, table, check, high, table', check', high')
    ensures StepOK(vectors, order, pos[n := j], n + 1, k, table', check', high')
  {
    var v, u := VectorAt(vectors, order, n), VectorAt(vectors, order, k);
    forall e: nat | e < |u.from| ensures CellOK(u, e, pos[k], table', check', high') {
      assert CellOK(u, e, pos[k], table, check, high);
      OccupiedKept(v, j, |v.from|, table, check, high, table', check', high', pos[k] + u.from[e]);
    }
  }

  /** A cell in use is not written. */
  lemma OccupiedKept(v: Vector, j: int, m: nat, table: seq<int>, check: seq<int>, high: nat, table': seq<int>, check': seq<int>, high': nat, loc: int)
    requires VectorOK(v) && m <= |v.from| && Free(v, j, check) && StoredUpto(v, j, m, table, check, high, table', check', high')
    requires 0 <= loc < |check| && check[loc] != -1
    ensures check'[loc] == check[loc] && table'[loc] == table[loc]
  {
    assert !StoredAt(v, j, m, loc);
    assert WrittenOK(v, j, m, loc, table, check, table', check', high');
  }

  lemma CellsKept(vectors: seq<Vector>, order: seq<nat>, pos: seq<int>, n: nat, j: int, table: seq<int>, check: seq<int>, high: nat,
                  table': seq<int>, check': seq<int>, high': nat)
    requires n < |pos| && Cells(vectors, order, pos, n, check, high) && VectorOK(VectorAt(vectors, order, n))
    requires StoredUpto(VectorAt(vectors, order, n), j, |VectorAt(vectors, order, n).from|, table, check, high, table', check', high')
    ensures Cells(vectors, order, pos[n := j], n + 1, check', high')
  {
    var v, pos', n' := VectorAt(vectors, order, n), pos[n := j], n + 1;
    forall loc | 0 <= loc < |check'| && check'[loc] != -1
      ensures loc <= high' && check'[loc] >= 0 && Owned(vectors, order, pos', n', loc, check'[loc])
    {
      assert WrittenOK(v, j, |v.from|, loc, table, check, table', check', high');
      if StoredAt(v, j, |v.from|, loc) {
        var e :| 0 <= e < |v.from| && j + v.from[e] == loc;
        assert pos'[n] == loc - check'[loc];
      } else {
        var k :| 0 <= k < n && pos[k] == loc - check[loc] && check[loc] in VectorAt(vectors, order, k).from;
        assert pos'[k] == loc - check'[loc];
      }
    }
  }

  /** Sharing the displacement of an equal vector stores nothing new. */
  lemma SharedOK(vectors: seq<Vector>, order: seq<nat>, pos: seq<int>, n: nat, p: nat, table: seq<int>, check: seq<int>, high: nat)
    requires n < |pos| && p < n && Packed(vectors, order, pos, n, table, check, high)
    requires SameContents(VectorAt(vectors, order, p), VectorAt(vectors, order, n))
    ensures Packed(vectors, order, pos[n := pos[p]], n + 1, table, check, high)
  {
    var pos', n' := pos[n := pos[p]], n + 1;
    assert StepOK(vectors, order, pos, n, p, table, check, high);
    forall k: nat | k < n' ensures StepOK(vectors, order, pos', n', k, table, check, high) {
      if k < n {
        assert StepOK(vectors, order, pos, n, k, table, check, high);
      } else {
        SameCells(VectorAt(vectors, order, p), VectorAt(vectors, order, n), pos[p], table, check, high);
      }
    }
    forall loc | 0 <= loc < |check| && check[loc] != -1 ensures Owned(vectors, order, pos', n', loc, check[loc]) {
      var k :| 0 <= k < n && pos[k] == loc - check[loc] && check[loc] in VectorAt(vectors, order, k).from;
      assert pos'[k] == loc - check[loc];
    }
  }

  lemma SameCells(v: Vector, u: Vector, place: int, table: seq<int>, check: seq<int>, high: nat)
    requires VectorOK(v) && SameContents(v, u) && Placed(v, place, table, check, high)
    ensures VectorOK(u) && Placed(u, place, table, check, high)
  {
    forall e: nat | e < |u.from| ensures CellOK(u, e, place, table, check, high) {
      assert CellOK(v, e, place, table, check, high);
    }
  }

  // ---------------------------------------------------------------------
  // The packer
  // ---------------------------------------------------------------------

  /** The globals of output.c: `table` and `check` grow, `nrows` is the number of
      vectors that are rows, which come before the columns. */
  class Packer {
    const vectors: seq<Vector>
    const order: seq<nat>
    const nrows: nat
    const base: array<int>
    const pos: array<int>
    var table: seq<int>
    var check: seq<int>
    var lowzero: nat
    var high: nat

    /** The first `n` vectors of the order have been packed. */
    ghost predicate Valid(n: nat)
      reads this, base, pos
    {
      Plan(vectors, order) && base.Length == |vectors| && pos.Length == |order| && base != pos && n <= |order| &&
      Packed(vectors, order, pos[..], n, table, check, high) && LowFull(check, lowzero) && BasesOK(n)
    }

    /** Packed vectors have their displacement in `base`, all others 0. */
    ghost predicate BasesOK(n: nat)
      requires base.Length == |vectors| && pos.Length == |order| && n <= |order|
      reads this, base, pos
    {
      (forall k :: 0 <= k < n ==> order[k] < |vectors| && base[order[k]] == pos[k]) &&
      (forall i: nat :: i < |vectors| && i !in order[..n] ==> base[i] == 0)
    }

    constructor (v: seq<Vector>, o: seq<nat>, rows: nat)
      requires Plan(v, o)
      ensures Valid(0) && vectors == v && order == o && nrows == rows && fresh(base) && fresh(pos)
    {
      vectors, order, nrows := v, o, rows;
      base := new int[|v|](_ => 0);
      pos := new int[|o|](_ => 0);
      table := seq(1000, _ => 0);
      check := seq(1000, _ => -1);
      lowzero, high := 0, 0;
    }

    /** matching_vector: an earlier vector with the same contents, or -1.  Columns are
        not looked up; for a row, -1 means that no earlier vector of its width has its
        contents. */
    method MatchingVector(n: nat) returns (prev: int)
      requires Valid(n) && n < |order|
      ensures -1 <= prev < n
      ensures prev >= 0 ==> SameContents(VectorAt(vectors, order, prev), VectorAt(vectors, order, n))
      ensures prev < 0 && order[n] < nrows ==> forall k :: 0 <= k < n ==> !Matches(vectors, order, k, n)
    {
      PlanVector(vectors, order, n);
      var i := order[n];
      if i >= nrows {
        return -1;
      }
      var t, w := Tally(vectors[i]), vectors[i].width;
      prev := n - 1;
      while prev >= 0
        invariant -1 <= prev < n
        invariant forall k :: prev < k < n ==> !Matches(vectors, order, k, n)
      {
        PlanVector(vectors, order, prev);
        var j := order[prev];
        if vectors[j].width != w || Tally(vectors[j]) != t {
          NoneEarlier(vectors, order, prev, n);
          return -1;
        }
        var match_ := SameEntries(vectors[j], vectors[i], t);
        if match_ {
          return;
        }
        prev := prev - 1;
      }
    }

    /** The first displacement that the search tries. */
    method FirstPlace(v: Vector) returns (j: int)
      requires Tally(v) > 0
      ensures forall e :: 0 <= e < |v.from| ==> lowzero - v.from[e] <= j
      ensures exists e :: 0 <= e < |v.from| && j == lowzero - v.from[e]
    {
      j := lowzero - v.from[0];
      var k := 1;
      while k < Tally(v)
        invariant 1 <= k <= |v.from|
        invariant forall e :: 0 <= e < k ==> lowzero - v.from[e] <= j
        invariant exists e :: 0 <= e < |v.from| && j == lowzero - v.from[e]
      {
        if lowzero - v.from[k] > j {
          j := lowzero - v.from[k];
        }
        k := k + 1;
      }
    }

    /** Reallocate so that `loc` is inside. */
    method Grow(loc: nat)
      requires |table| == |check|
      modifies this`table, this`check
      ensures Extends(old(check), check, -1) && Extends(old(table), table, 0) && |table| == |check|
      ensures loc < |check|
    {
      var maxtable := |check|;
      if loc >= maxtable {
        var newmax := maxtable + 200;
        while newmax <= loc
          invariant newmax > maxtable
        {
          newmax := newmax + 200;
        }
        table := table + seq(newmax - maxtable, _ => 0);
        check := check + seq(newmax - maxtable, _ => -1);
      }
    }

    /** The test of displacement `j`: are all its cells free?  The arrays grow as far
        as the test looks. */
    method TestPlace(v: Vector, j: int) returns (ok: bool)
      requires VectorOK(v) && |table| == |check| && forall e :: 0 <= e < |v.from| ==> 0 <= j + v.from[e]
      modifies this`table, this`check
      ensures Extends(old(check), check, -1) && Extends(old(table), table, 0) && |table| == |check|
      ensures ok <==> Free(v, j, old(check))
      ensures ok ==> forall e :: 0 <= e < |v.from| ==> j + v.from[e] < |check|
    {
      ok := true;
      var k := 0;
      while ok && k < Tally(v)
        invariant 0 <= k <= |v.from|
        invariant Extends(old(check), check, -1) && Extends(old(table), table, 0) && |table| == |check|
        invariant !ok ==> !Free(v, j, old(check))
        invariant ok ==> forall e :: 0 <= e < k ==> j + v.from[e] < |check| && check[j + v.from[e]] == -1
      {
        var loc := j + v.from[k];
        ghost var before := check;
        Grow(loc);
        assert loc < |old(check)| ==> check[loc] == old(check)[loc];
        assert forall l :: 0 <= l < |before| ==> check[l] == before[l];
        if check[loc] != -1 {
          ok := false;
        }
        k := k + 1;
      }
      assert ok ==> forall l :: 0 <= l < |old(check)| ==> check[l] == old(check)[l];
    }

    /** Is `j` the displacement of an earlier vector? */
    method Unused(j: int, n: nat) returns (ok: bool)
      requires n <= pos.Length
      ensures ok <==> j !in pos[..n]
    {
      ok := true;
      var k := 0;
      while ok && k < n
        invariant 0 <= k <= n
        invariant ok <==> j !in pos[..k]
      {
        assert pos[..k + 1] == pos[..k] + [pos[k]];
        if pos[k] == j {
          ok := false;
        }
        k := k + 1;
      }
      assert !ok ==> j in pos[..n];
    }

    /** Store the vector at `j`. */
    method Store(v: Vector, j: int)
      requires VectorOK(v) && |table| == |check| && high < |check|
      requires forall e :: 0 <= e < |v.from| ==> 0 <= j + v.from[e] < |check|
      modifies this`table, this`check, this`high
      ensures StoredUpto(v, j, |v.from|, old(table), old(check), old(high), table, check, high)
    {
      var k := 0;
      while k < Tally(v)
        invariant 0 <= k <= |v.from|
        invariant StoredUpto(v, j, k, old(table), old(check), old(high), table, check, high)
      {
        StoreEntry(v, j, k, old(table), old(check), old(high));
        k := k + 1;
      }
    }

    method StoreEntry(v: Vector, j: int, k: nat, ghost table0: seq<int>, ghost check0: seq<int>, ghost high0: nat)
      requires VectorOK(v) && k < |v.from| && StoredUpto(v, j, k, table0, check0, high0, table, check, high)
      requires 0 <= j + v.from[k] < |check0|
      modifies this`table, this`check, this`high
      ensures StoredUpto(v, j, k + 1, table0, check0, high0, table, check, high)
    {
      StoreStep(v, j, k, table0, check0, high0, table, check, high);
      var loc := j + v.from[k];
      table := table[loc := v.to[k]];
      check := check[loc := v.from[k]];
      if loc > high {
        high := loc;
      }
    }

    /** pack_vector: first fit.  The displacement returned is the least one, of all
        integers, that is not 0, not in use, and finds all its cells free. */
    method PackVector(n: nat) returns (j: int)
      requires Valid(n) && n < |order|
      modifies this`table, this`check, this`high, this`lowzero
      ensures Packed(vectors, order, pos[..][n := j], n + 1, table, check, high) && LowFull(check, lowzero)
      ensures Fits(VectorAt(vectors, order, n), j, old(check), pos[..n])
      ensures forall i :: i < j ==> !Fits(VectorAt(vectors, order, n), i, old(check), pos[..n])
    {
      PlanVector(vectors, order, n);
      var v := vectors[order[n]];
      ghost var c0 := check;
      j := SearchPlace(n, v);
      FreeStill(v, j, c0, check);
      ghost var t1, c1, h1 := table, check, high;
      Store(v, j);
      StoredOK(vectors, order, pos[..], n, j, t1, c1, h1, table, check, high);
      LowStillFull(v, j, lowzero, c0, t1, c1, h1, table, check, high);
      AdvanceLowzero();
    }

    /** The search of pack_vector. */
    method SearchPlace(n: nat, v: Vector) returns (j: int)
      requires n <= pos.Length && VectorOK(v) && Tally(v) > 0 && LowFull(check, lowzero)
      requires Packed(vectors, order, pos[..], n, table, check, high)
      modifies this`table, this`check
      ensures Extends(old(check), check, -1) && Packed(vectors, order, pos[..], n, table, check, high)
      ensures Fits(v, j, old(check), pos[..n]) && forall e :: 0 <= e < |v.from| ==> j + v.from[e] < |check|
      ensures forall i :: i < j ==> !Fits(v, i, old(check), pos[..n])
    {
      j := FirstPlace(v);
      TooLow(v, lowzero, j, check, pos[..n]);
      ghost var limit := SearchLimit(|check|, pos[..n]);
      ghost var c0 := check;
      var ok := false;
      while !ok
        invariant forall e :: 0 <= e < |v.from| ==> lowzero - v.from[e] <= j
        invariant Extends(c0, check, -1) && Packed(vectors, order, pos[..], n, table, check, high)
        invariant ok ==> Fits(v, j, c0, pos[..n]) && forall e :: 0 <= e < |v.from| ==> j + v.from[e] < |check|
        invariant forall i :: i < j ==> !Fits(v, i, c0, pos[..n])
        invariant j <= limit && limit == SearchLimit(|c0|, pos[..n])
        decreases limit - j, !ok
      {
        ok := TryPlace(n, v, j, c0);
        if !ok {
          LimitFits(v, j, c0, pos[..n]);
          j := j + 1;
        }
      }
    }

    /** One round of the search. */
    method TryPlace(n: nat, v: Vector, j: int, ghost c0: seq<int>) returns (ok: bool)
      requires n <= pos.Length && VectorOK(v) && (forall e :: 0 <= e < |v.from| ==> lowzero - v.from[e] <= j)
      requires Extends(c0, check, -1) && Packed(vectors, order, pos[..], n, table, check, high)
      modifies this`table, this`check
      ensures Extends(c0, check, -1) && Packed(vectors, order, pos[..], n, table, check, high)
      ensures ok <==> Fits(v, j, c0, pos[..n])
      ensures ok ==> forall e :: 0 <= e < |v.from| ==> j + v.from[e] < |check|
    {
      if j == 0 {
        return false;
      }
      ghost var t1, c1 := table, check;
      ok := TestPlace(v, j);
      GrownOK(vectors, order, pos[..], n, t1, c1, high, table, check);
      FreeBefore(v, j, c0, c1);
      if ok {
        ok := Unused(j, n);
      }
    }

    /** Move `lowzero` up to the first free cell. */
    method AdvanceLowzero()
      requires LowFull(check, lowzero)
      modifies this`lowzero
      ensures LowFull(check, lowzero) && lowzero >= old(lowzero)
      ensures lowzero < |check| ==> check[lowzero] == -1
    {
      while lowzero < |check| && check[lowzero] != -1
        invariant LowFull(check, lowzero) && lowzero >= old(lowzero)
      {
        lowzero := lowzero + 1;
      }
    }

    /** pack_table */
    method PackTable()
      requires Valid(0)
      modifies this`table, this`check, this`high, this`lowzero, base, pos
      ensures Valid(|order|)
    {
      for i := 0 to |order|
        invariant Valid(i)
      {
        PackNext(i);
      }
    }

    /** The body of the loop of pack_table. */
    method PackNext(i: nat)
      requires Valid(i) && i < |order|
      modifies this`table, this`check, this`high, this`lowzero, base, pos
      ensures Valid(i + 1)
    {
      PlanVector(vectors, order, i);
      var prev := MatchingVector(i);
      var place;
      if prev < 0 {
        place := PackVector(i);
      } else {
        PlanVector(vectors, order, prev);
        place := base[order[prev]];
        SharedOK(vectors, order, pos[..], i, prev, table, check, high);
      }
      ghost var p := pos[..];
      NotPackedYet(order, i);
      pos[i] := place;
      assert pos[..] == p[i := place];
      base[order[i]] := place;
    }
  }

  /** Vectors that matching_vector treats as equal. */
  ghost predicate Matches(vectors: seq<Vector>, order: seq<nat>, k: int, n: int) {
    var v, u := VectorAt(vectors, order, k), VectorAt(vectors, order, n);
    v.width == u.width && SameContents(v, u)
  }

  method SameEntries(v: Vector, u: Vector, t: nat) returns (m: bool)
    requires |v.from| == |v.to| == |u.from| == |u.to| == t
    ensures m <==> SameContents(v, u)
  {
    m := true;
    var k := 0;
    while m && k < t
      invariant 0 <= k <= t
      invariant m ==> v.from[..k] == u.from[..k] && v.to[..k] == u.to[..k]
      invariant !m ==> !SameContents(v, u)
    {
      if v.to[k] != u.to[k] || v.from[k] != u.from[k] {
        m := false;
      }
      k := k + 1;
    }
    assert m ==> v.from[..t] == u.from[..t] && v.to[..t] == u.to[..t];
    assert v.from[..t] == v.from && u.from[..t] == u.from && v.to[..t] == v.to && u.to[..t] == u.to;
  }

  /** The order is sorted, so equal vectors are next to each other. */
  lemma NoneEarlier(vectors: seq<Vector>, order: seq<nat>, p: nat, n: nat)
    requires Plan(vectors, order) && p < n < |order|
    requires VectorAt(vectors, order, p).width != VectorAt(vectors, order, n).width ||
             Tally(VectorAt(vectors, order, p)) != Tally(VectorAt(vectors, order, n))
    ensures forall k :: 0 <= k <= p ==> !Matches(vectors, order, k, n)
  {
    PlanVector(vectors, order, p);
    PlanVector(vectors, order, n);
    forall k | 0 <= k <= p ensures !Matches(vectors, order, k, n) {
      PlanVector(vectors, order, k);
      assert NotAfter(vectors[order[p]], vectors[order[n]]);
      assert k < p ==> NotAfter(vectors[order[k]], vectors[order[p]]);
    }
  }

  /** Below the starting point some entry would fall on a full cell. */
  lemma TooLow(v: Vector, lowzero: nat, j: int, check: seq<int>, used: seq<int>)
    requires LowFull(check, lowzero) && exists e :: 0 <= e < |v.from| && j == lowzero - v.from[e]
    ensures forall i :: i < j ==> !Fits(v, i, check, used)
  {
    var e :| 0 <= e < |v.from| && j == lowzero - v.from[e];
    forall i | i < j ensures !Fits(v, i, check, used) {
      assert i + v.from[e] < lowzero;
    }
  }

  /** A displacement beyond every cell and every displacement used. */
  ghost function SearchLimit(size: nat, used: seq<int>): (r: int)
    ensures r >= size && r >= 1 && forall k :: 0 <= k < |used| ==> used[k] < r
  {
    if used == [] then size + 1
    else
      var m := SearchLimit(size, used[..|used| - 1]);
      if used[|used| - 1] >= m then used[|used| - 1] + 1 else m
  }

  lemma LimitFits(v: Vector, j: int, check: seq<int>, used: seq<int>)
    requires VectorOK(v) && j <= SearchLimit(|check|, used) && !Fits(v, j, check, used)
    ensures j < SearchLimit(|check|, used)
  {
    var l := SearchLimit(|check|, used);
    assert Free(v, l, check);
    assert l !in used;
  }

  lemma LowStillFull(v: Vector, j: int, lowzero: nat, c0: seq<int>, table: seq<int>, check: seq<int>, high: nat,
                     table': seq<int>, check': seq<int>, high': nat)
    requires LowFull(c0, lowzero) && Extends(c0, check, -1) && VectorOK(v)
    requires StoredUpto(v, j, |v.from|, table, check, high, table', check', high')
    ensures LowFull(check', lowzero)
  {
    forall l | 0 <= l < lowzero ensures check'[l] != -1 {
      assert check[l] == c0[l];
      assert WrittenOK(v, j, |v.from|, l, table, check, table', check', high');
    }
  }

  lemma FreeStill(v: Vector, j: int, c0: seq<int>, c1: seq<int>)
    requires Extends(c0, c1, -1) && Free(v, j, c0)
    ensures Free(v, j, c1)
  {
    assert forall l :: 0 <= l < |c0| ==> c1[l] == c0[l];
  }

  lemma FreeBefore(v: Vector, j: int, c0: seq<int>, c1: seq<int>)
    requires Extends(c0, c1, -1)
    ensures Free(v, j, c1) <==> Free(v, j, c0)
  {
    assert forall l :: 0 <= l < |c0| ==> c1[l] == c0[l];
  }

  lemma NotPackedYet(order: seq<nat>, i: nat)
    requires i < |order| && Distinct(order)
    ensures forall k :: 0 <= k < i ==> order[k] != order[i]
    ensures order[..i + 1] == order[..i] + [order[i]]
  {
  }
}
