/** eyacc/ey3.c, stagen and state: the states are generated and their lookahead sets
    carried from state to state until no state has anything left to pass on. */
module Stagen {
  import opened Grammars
  import opened Closures
  import opened LR0
  import opened Firsts
  import opened Propagation
  import opened Eyacc
  import opened WorkingSets

  // ---------------------------------------------------------------------
  // What the tables have to be
  // ---------------------------------------------------------------------

  /** The states, the lookahead sets of their kernel items, their types (0 finished,
      1 awaiting generation, 2 finished with a complete item outside the kernel), and
      for each state the state entered on each symbol, 0 for none. */
  datatype Table = Table(states: seq<Core>, la: seq<seq<set<nat>>>, ty: seq<nat>, gotos: seq<seq<nat>>)

  ghost predicate RowOK(g: Grammar, items: seq<int>, row: seq<set<nat>>)
    requires g.WellFormed()
  {
    |row| == |items| && Canonical(g, items) && forall i, t :: 0 <= i < |row| && t in row[i] ==> t < g.start
  }

  ghost predicate Shape(g: Grammar, t: Table)
    requires g.WellFormed()
  {
    CoresOK(g, t.states) && |t.la| == |t.ty| == |t.gotos| == |t.states| &&
    forall q :: 0 <= q < |t.states| ==> RowOK(g, t.states[q].items, t.la[q])
  }

  /** The sets of the items `k` lie below an assignment. */
  ghost predicate RowBelow(k: seq<int>, row: seq<set<nat>>, m: Assignment) {
    |row| == |k| && forall i :: 0 <= i < |k| ==> row[i] <= m(k, k[i])
  }

  /** No lookahead is there that spreading does not force. */
  ghost predicate Low(g: Grammar, t: Table)
    requires g.WellFormed()
  {
    |t.la| == |t.states| && forall m, q :: Spreads(g, m) && 0 <= q < |t.states| ==> RowBelow(t.states[q].items, t.la[q], m)
  }

  /** Kernel item `y` of state `n` has at least the tokens of `s`. */
  ghost predicate Arrived(t: Table, n: nat, y: int, s: set<nat>) {
    n < |t.states| && n < |t.la| &&
    exists i :: 0 <= i < |t.states[n].items| && i < |t.la[n]| && t.states[n].items[i] == y && s <= t.la[n][i]
  }

  /** What the entries of `ws` before symbol `c` have is in the state `n` entered on `c`. */
  ghost predicate PassedOn(g: Grammar, t: Table, k: seq<int>, ws: seq<WSet>, c: int, n: nat)
    requires g.WellFormed()
  {
    if n == 0 then forall m :: 0 <= m < |ws| ==> SymAt(g, ws[m].pitem) != c
    else n < |t.states| && GotoKernel(g, k, c, t.states[n].items) &&
         forall m :: 0 <= m < |ws| && SymAt(g, ws[m].pitem) == c ==> Arrived(t, n, ws[m].pitem + 1, ws[m].ws)
  }

  ghost predicate AllPassed(g: Grammar, t: Table, k: seq<int>, ws: seq<WSet>, go: seq<nat>)
    requires g.WellFormed()
  {
    |go| == g.nsyms && forall c :: 0 < c < g.nsyms ==> PassedOn(g, t, k, ws, c, go[c])
  }

  /** State `q` has passed on everything it has. */
  ghost predicate Settled(g: Grammar, t: Table, q: nat)
    requires g.WellFormed() && q < |t.states| == |t.la| == |t.gotos|
  {
    exists ws :: LeastClosure(g, t.states[q].items, t.la[q], ws) && AllPassed(g, t, t.states[q].items, ws, t.gotos[q])
  }

  /** An item outside the kernel has nothing, or only the end marker, after its dot. */
  ghost predicate CompleteOutside(g: Grammar, k: seq<int>)
    requires g.WellFormed()
  {
    exists x :: InClosure(g, k, x) && x !in k && SymAt(g, x) <= 0
  }

  /** A state that is not awaiting generation. */
  ghost predicate Finished(g: Grammar, t: Table, q: nat)
    requires g.WellFormed() && q < |t.states| == |t.la| == |t.gotos| == |t.ty|
  {
    Settled(g, t, q) && t.ty[q] == (if CompleteOutside(g, t.states[q].items) then 2 else 0)
  }

  // ---------------------------------------------------------------------
  // How the tables change
  // ---------------------------------------------------------------------

  /** States are added and sets grow; a state whose sets grow awaits generation again.
      The type of state `b` may change otherwise, unless it awaits generation. */
  ghost predicate Evolves(t: Table, t': Table, b: int) {
    |t.states| == |t.la| == |t.ty| == |t.gotos| && |t'.states| == |t'.la| == |t'.ty| == |t'.gotos| &&
    t.states <= t'.states && (forall q :: |t.states| <= q < |t'.states| ==> t'.ty[q] == 1) && forall q :: 0 <= q < |t.states| ==> RowEvolves(t, t', q, b)
  }

  ghost predicate RowEvolves(t: Table, t': Table, q: nat, b: int)
    requires q < |t.la| && q < |t'.la| && q < |t.ty| && q < |t'.ty| && q < |t.gotos| && q < |t'.gotos|
  {
    Larger(t.la[q], t'.la[q]) && t'.gotos[q] == t.gotos[q] &&
    (t'.ty[q] == 1 || (t'.la[q] == t.la[q] && (t'.ty[q] == t.ty[q] || (q == b && t.ty[q] != 1))))
  }

  lemma EvolvesTrans(a: Table, b: Table, c: Table, e: int)
    requires Evolves(a, b, e) && Evolves(b, c, e)
    ensures Evolves(a, c, e)
  {
    forall q | 0 <= q < |a.states| ensures RowEvolves(a, c, q, e) {
      assert RowEvolves(a, b, q, e) && RowEvolves(b, c, q, e);
    }
    forall q | |a.states| <= q < |c.states| ensures c.ty[q] == 1 {
      assert q < |b.states| ==> RowEvolves(b, c, q, e);
    }
  }

  lemma EvolvesAny(t: Table, t': Table, b: int)
    requires Evolves(t, t', -1)
    ensures Evolves(t, t', b)
  {
    forall q | 0 <= q < |t.states| ensures RowEvolves(t, t', q, b) {
      assert RowEvolves(t, t', q, -1);
    }
  }

  lemma ArrivedKept(t: Table, t': Table, b: int, n: nat, y: int, s: set<nat>)
    requires Evolves(t, t', b) && Arrived(t, n, y, s)
    ensures Arrived(t', n, y, s)
  {
    var i :| 0 <= i < |t.states[n].items| && i < |t.la[n]| && t.states[n].items[i] == y && s <= t.la[n][i];
    assert RowEvolves(t, t', n, b) && t'.states[n].items[i] == y;
  }

  lemma PassedKept(g: Grammar, t: Table, t': Table, b: int, k: seq<int>, ws: seq<WSet>, c: int, n: nat)
    requires g.WellFormed() && Evolves(t, t', b) && PassedOn(g, t, k, ws, c, n)
    ensures PassedOn(g, t', k, ws, c, n)
  {
    hide GotoKernel, Arrived, RowEvolves;
    if n > 0 {
      forall m | 0 <= m < |ws| && SymAt(g, ws[m].pitem) == c ensures Arrived(t', n, ws[m].pitem + 1, ws[m].ws) {
        ArrivedKept(t, t', b, n, ws[m].pitem + 1, ws[m].ws);
      }
    }
  }

  lemma AllPassedKept(g: Grammar, t: Table, t': Table, b: int, k: seq<int>, ws: seq<WSet>, go: seq<nat>)
    requires g.WellFormed() && Evolves(t, t', b) && AllPassed(g, t, k, ws, go)
    ensures AllPassed(g, t', k, ws, go)
  {
    hide PassedOn, Evolves;
    forall c | 0 < c < g.nsyms ensures PassedOn(g, t', k, ws, c, go[c]) {
      PassedKept(g, t, t', b, k, ws, c, go[c]);
    }
  }

  /** A finished state stays finished until its own sets grow. */
  lemma FinishedKept(g: Grammar, t: Table, t': Table, b: int, q: nat)
    requires g.WellFormed() && Evolves(t, t', b) && q < |t.states| && Finished(g, t, q) && t'.ty[q] != 1 && q != b
    ensures Finished(g, t', q)
  {
    assert RowEvolves(t, t', q, b) && t'.states[q] == t.states[q];
    hide AllPassed, LeastClosure, CompleteOutside;
    var ws :| LeastClosure(g, t.states[q].items, t.la[q], ws) && AllPassed(g, t, t.states[q].items, ws, t.gotos[q]);
    AllPassedKept(g, t, t', b, t.states[q].items, ws, t.gotos[q]);
  }

  // Progress.

  ghost function AllRoom(n: nat, la: seq<seq<set<nat>>>): nat {
    if la == [] then 0 else AllRoom(n, la[..|la| - 1]) + Room(n, la[|la| - 1])
  }

  /** Something new: a state, or a token in some set. */
  ghost predicate More(g: Grammar, t: Table, t': Table) {
    |t'.states| > |t.states| || (|t'.states| == |t.states| && AllRoom(g.start, t'.la) < AllRoom(g.start, t.la))
  }

  lemma {:induction false} RoomOfRow(n: nat, la: seq<seq<set<nat>>>, q: nat, row: seq<set<nat>>)
    requires q < |la| && Room(n, row) < Room(n, la[q])
    ensures AllRoom(n, la[q := row]) < AllRoom(n, la)
  {
    var k, l := |la| - 1, la[q := row];
    if q < k {
      RoomOfRow(n, la[..k], q, row);
      assert l[..k] == la[..k][q := row];
    } else {
      assert l[..k] == la[..k];
    }
  }

  ghost function Waiting(ty: seq<nat>): nat {
    if ty == [] then 0 else Waiting(ty[..|ty| - 1]) + (if ty[|ty| - 1] == 1 then 1 else 0)
  }

  lemma {:induction false} WaitingDrops(ty: seq<nat>, ty': seq<nat>, i: nat)
    requires |ty'| == |ty| && forall q :: 0 <= q < |ty| && q != i ==> ty'[q] == ty[q]
    ensures Waiting(ty') <= Waiting(ty) || (i < |ty| && ty'[i] == 1)
    ensures i < |ty| && ty[i] == 1 && ty'[i] != 1 ==> Waiting(ty') < Waiting(ty)
    decreases |ty|
  {
    if ty != [] {
      WaitingDrops(ty[..|ty| - 1], ty'[..|ty| - 1], i);
    }
  }

  // ---------------------------------------------------------------------
  // Candidates for a state
  // ---------------------------------------------------------------------

  /** An item with the number of its lookahead set. */
  datatype Item = Item(pitem: int, look: nat)

  function ItemsOf(s: seq<Item>): (r: seq<int>)
    ensures |r| == |s| && forall i :: 0 <= i < |s| ==> r[i] == s[i].pitem
  {
    seq(|s|, i requires 0 <= i < |s| => s[i].pitem)
  }

  /** Every item of the closure of `k` with `c` after its dot, moved over `c`, once. */
  ghost predicate Candidate(g: Grammar, k: seq<int>, c: int, s: seq<Item>)
    requires g.WellFormed()
  {
    s != [] && (forall i, j :: 0 <= i < j < |s| ==> s[i].pitem != s[j].pitem) &&
    forall y :: y in ItemsOf(s) <==> MovedOver(g, k, c, y)
  }

  /** The sets that go with the items are forced. */
  ghost predicate CandidateLow(g: Grammar, k: seq<int>, s: seq<Item>, lkst: seq<set<nat>>)
    requires g.WellFormed()
  {
    forall m, i :: Spreads(g, m) && 0 <= i < |s| ==> s[i].look < |lkst| && lkst[s[i].look] <= m(k, s[i].pitem - 1)
  }

  /** The sort of state(): exchange sort, the largest item last. */
  method SortItems(items: seq<Item>) returns (s: seq<Item>)
    requires forall i, j :: 0 <= i < j < |items| ==> items[i].pitem != items[j].pitem
    ensures |s| == |items| && Ascending(ItemsOf(s)) && forall x :: x in s <==> x in items
  {
    s := items;
    var k := |s| - 1;
    while k > 0
      invariant |s| == |items| && -1 <= k < |s| && SamePairs(items, s)
      invariant forall i, j :: 0 <= i < j < |s| && k < j ==> s[i].pitem < s[j].pitem
    {
      s := LargestTo(s, k);
      k := k - 1;
    }
  }

  ghost predicate SamePairs(s: seq<Item>, t: seq<Item>) {
    |t| == |s| && (forall x :: x in t <==> x in s) && forall i, j :: 0 <= i < j < |t| ==> t[i].pitem != t[j].pitem
  }

  /** The inner loop: the largest of the first `k + 1` items comes to place `k`. */
  method LargestTo(s0: seq<Item>, k: nat) returns (s: seq<Item>)
    requires 0 < k < |s0| && forall i, j :: 0 <= i < j < |s0| ==> s0[i].pitem != s0[j].pitem
    requires forall i, j :: 0 <= i < j < |s0| && k < j ==> s0[i].pitem < s0[j].pitem
    ensures SamePairs(s0, s) && forall i, j :: 0 <= i < j < |s| && k <= j ==> s[i].pitem < s[j].pitem
  {
    s := s0;
    var l := k - 1;
    while l >= 0
      invariant -1 <= l < k && SamePairs(s0, s)
      invariant forall i, j :: 0 <= i < j < |s| && k < j ==> s[i].pitem < s[j].pitem
      invariant forall i :: l < i < k ==> s[i].pitem < s[k].pitem
    {
      if s[l].pitem > s[k].pitem {
        ghost var was := s;
        s := s[k := s[l]][l := s[k]];
        Swapped(was, s, l, k);
      }
      l := l - 1;
    }
  }

  lemma Swapped(s: seq<Item>, t: seq<Item>, l: nat, k: nat)
    requires l < k < |s| && t == s[k := s[l]][l := s[k]] && forall i, j :: 0 <= i < j < |s| ==> s[i].pitem != s[j].pitem
    ensures SamePairs(s, t)
  {
    forall x ensures x in t <==> x in s {
      if x in t {
        var i :| 0 <= i < |t| && t[i] == x;
        assert x == s[if i == l then k else if i == k then l else i];
      }
      if x in s {
        var i :| 0 <= i < |s| && s[i] == x;
        assert x == t[if i == l then k else if i == k then l else i];
      }
    }
  }

  /** The sorted candidate is the kernel of the state entered. */
  lemma SortedKernel(g: Grammar, k: seq<int>, c: int, cand: seq<Item>, s: seq<Item>)
    requires g.WellFormed() && Candidate(g, k, c, cand) && c > 0 && Canonical(g, k)
    requires |s| == |cand| && Ascending(ItemsOf(s)) && forall x :: x in s <==> x in cand
    ensures GotoKernel(g, k, c, ItemsOf(s)) && Canonical(g, ItemsOf(s))
    ensures ItemsOf(s)[0] > 1 && SymAt(g, ItemsOf(s)[0] - 1) == c
  {
    var items := ItemsOf(s);
    forall y ensures y in items <==> y in ItemsOf(cand) {
      SameNames(s, cand, y);
      SameNames(cand, s, y);
    }
    forall y | y in items ensures IsItem(g, y) {
      assert MovedOver(g, k, c, y);
      NextItem(g, y - 1);
    }
    assert items[0] in items;
    GotoCanonical(g, k, c, items);
  }

  lemma SameNames(s: seq<Item>, t: seq<Item>, y: int)
    requires forall x :: x in s ==> x in t
    ensures y in ItemsOf(s) ==> y in ItemsOf(t)
  {
    if y in ItemsOf(s) {
      var i :| 0 <= i < |s| && ItemsOf(s)[i] == y;
      assert s[i] in s;
      var j :| 0 <= j < |t| && t[j] == s[i];
      assert ItemsOf(t)[j] == y;
    }
  }

  /** Moving to the next state, forced sets stay forced. */
  lemma SortedLow(g: Grammar, k: seq<int>, c: int, cand: seq<Item>, s: seq<Item>, lkst: seq<set<nat>>, m: Assignment, i: nat)
    requires g.WellFormed() && Candidate(g, k, c, cand) && CandidateLow(g, k, cand, lkst) && c > 0 && Canonical(g, k)
    requires (forall x :: x in s <==> x in cand) && GotoKernel(g, k, c, ItemsOf(s)) && Spreads(g, m) && i < |s|
    ensures s[i].look < |lkst| && lkst[s[i].look] <= m(ItemsOf(s), s[i].pitem)
  {
    hide InClosure, LocalClosed, Canonical;
    assert s[i] in s;
    var j :| 0 <= j < |cand| && cand[j] == s[i];
    var y := s[i].pitem;
    assert ItemsOf(s)[i] in ItemsOf(s);
    assert MovedOver(g, k, c, y);
    assert SpreadsFrom(g, m, k);
    assert Moves(g, k, y - 1, ItemsOf(s));
  }

  // ---------------------------------------------------------------------
  // An old state receives lookaheads, or a new one is added
  // ---------------------------------------------------------------------

  /** The first `l` sets have been united into those of state `n`. */
  ghost predicate Merging(t0: Table, t: Table, n: nat, sets: seq<set<nat>>, l: nat) {
    n < |t0.la| == |t0.ty| && t.states == t0.states && t.gotos == t0.gotos && |t.la| == |t0.la| &&
    (forall q :: 0 <= q < |t.la| && q != n ==> t.la[q] == t0.la[q]) &&
    l <= |sets| == |t0.la[n]| == |t.la[n]| &&
    (forall i :: 0 <= i < l ==> t.la[n][i] == t0.la[n][i] + sets[i]) &&
    (forall i :: l <= i < |sets| ==> t.la[n][i] == t0.la[n][i]) &&
    ((t.ty == t0.ty && forall i :: 0 <= i < l ==> sets[i] <= t0.la[n][i]) ||
     (t.ty == t0.ty[n := 1] && exists i :: 0 <= i < l && !(sets[i] <= t0.la[n][i])))
  }

  lemma MergedEvolves(g: Grammar, t0: Table, t: Table, n: nat, sets: seq<set<nat>>)
    requires g.WellFormed() && Shape(g, t0) && Merging(t0, t, n, sets, |sets|)
    requires forall i, x :: 0 <= i < |sets| && x in sets[i] ==> x < g.start
    ensures Evolves(t0, t, -1) && Shape(g, t) && (More(g, t0, t) || t == t0)
    ensures forall i :: 0 <= i < |sets| ==> Arrived(t, n, t.states[n].items[i], sets[i])
  {
    hide CoresOK, Canonical, AllRoom, Room;
    assert RowOK(g, t0.states[n].items, t0.la[n]);
    if forall i :: 0 <= i < |sets| ==> sets[i] <= t0.la[n][i] {
      NothingMerged(t0, t, n, sets);
    } else {
      assert t.ty[n] == 1;
      RoomShrinks(g.start, t0.la[n], t.la[n]);
      var i :| 0 <= i < |sets| && !(sets[i] <= t0.la[n][i]);
      assert t.la[n][i] != t0.la[n][i];
      assert t.la == t0.la[n := t.la[n]];
      RoomOfRow(g.start, t0.la, n, t.la[n]);
    }
    forall q | 0 <= q < |t0.states| ensures RowEvolves(t0, t, q, -1) && RowOK(g, t.states[q].items, t.la[q]) {
      assert RowOK(g, t0.states[q].items, t0.la[q]);
    }
  }

  lemma NothingMerged(t0: Table, t: Table, n: nat, sets: seq<set<nat>>)
    requires Merging(t0, t, n, sets, |sets|) && forall i :: 0 <= i < |sets| ==> sets[i] <= t0.la[n][i]
    ensures t == t0
  {
    assert t.la[n] == t0.la[n] by {
      forall i | 0 <= i < |sets| ensures t.la[n][i] == t0.la[n][i] {
        assert sets[i] <= t0.la[n][i];
      }
    }
    assert t.la == t0.la;
  }

  lemma MergedLow(g: Grammar, t0: Table, t: Table, n: nat, sets: seq<set<nat>>)
    requires g.WellFormed() && Shape(g, t0) && Low(g, t0) && Merging(t0, t, n, sets, |sets|)
    requires forall m :: Spreads(g, m) ==> RowBelow(t0.states[n].items, sets, m)
    ensures Low(g, t)
  {
    hide Spreads, CoresOK, Canonical;
    forall m, q | Spreads(g, m) && 0 <= q < |t.states| ensures RowBelow(t.states[q].items, t.la[q], m) {
      assert RowBelow(t0.states[q].items, t0.la[q], m);
      if q == n {
        assert RowBelow(t0.states[n].items, sets, m);
      }
    }
  }

  lemma AddedState(g: Grammar, t0: Table, c: int, items: seq<int>, sets: seq<set<nat>>)
    requires g.WellFormed() && Shape(g, t0) && Low(g, t0) && RowOK(g, items, sets)
    requires items != [] && items[0] > 1 && SymAt(g, items[0] - 1) == c && forall p :: 0 < p < |t0.states| ==> t0.states[p].items != items
    requires forall m :: Spreads(g, m) ==> RowBelow(items, sets, m)
    ensures var t := Table(t0.states + [Core(c, items)], t0.la + [sets], t0.ty + [1], t0.gotos + [[]]);
      Evolves(t0, t, -1) && Shape(g, t) && Low(g, t) && More(g, t0, t) &&
      forall i :: 0 <= i < |sets| ==> Arrived(t, |t0.states|, items[i], sets[i])
  {
    hide Spreads, Canonical;
    CanonicalKernel(g, items);
    AddCore(g, t0.states, [], c, items);
    hide CoresOK;
    var t := Table(t0.states + [Core(c, items)], t0.la + [sets], t0.ty + [1], t0.gotos + [[]]);
    forall q | 0 <= q < |t0.states| ensures RowEvolves(t0, t, q, -1) {
    }
    forall q | 0 <= q < |t.states| ensures RowOK(g, t.states[q].items, t.la[q]) {
      assert q < |t0.states| ==> RowOK(g, t0.states[q].items, t0.la[q]);
    }
    forall m, q | Spreads(g, m) && 0 <= q < |t.states| ensures RowBelow(t.states[q].items, t.la[q], m) {
      assert q < |t0.states| ==> RowBelow(t0.states[q].items, t0.la[q], m);
    }
    forall i | 0 <= i < |sets| ensures Arrived(t, |t0.states|, items[i], sets[i]) {
      assert t.states[|t0.states|].items[i] == items[i];
    }
  }

  lemma FirstTable(g: Grammar)
    requires g.WellFormed()
    ensures var t := Table([Core(0, [1])], [[{}]], [1], [[]]); Shape(g, t) && Low(g, t)
  {
    StartCanonical(g);
  }

  // ---------------------------------------------------------------------
  // The generator
  // ---------------------------------------------------------------------

  /** The sets with the numbers in `l`. */
  function SetsOf(l: seq<nat>, lkst: seq<set<nat>>): (p: seq<set<nat>>)
    requires forall i :: 0 <= i < |l| ==> l[i] < |lkst|
    ensures |p| == |l| && forall i :: 0 <= i < |l| ==> p[i] == lkst[l[i]]
  {
    seq(|l|, i requires 0 <= i < |l| => lkst[l[i]])
  }

  function Looks(s: seq<Item>): (r: seq<nat>)
    ensures |r| == |s| && forall i :: 0 <= i < |s| ==> r[i] == s[i].look
  {
    seq(|s|, i requires 0 <= i < |s| => s[i].look)
  }

  /** The lists of states by the symbol that they are entered on: all but the first. */
  ghost predicate Chained(g: Grammar, states: seq<Core>, chains: seq<seq<nat>>) {
    |chains| == g.nsyms &&
    (forall c, e :: 0 <= c < |chains| && 0 <= e < |chains[c]| ==> 0 < chains[c][e] < |states| && states[chains[c][e]].symbol == c) &&
    forall q :: 0 < q < |states| ==> 0 <= states[q].symbol < |chains| && q in chains[states[q].symbol]
  }

  /** pstate and tystate, with the lookahead sets that are shared by number, and the
      chains of states. */
  class Generator {
    const g: Grammar
    const work: WorkingSet
    var states: seq<Core>
    var looks: seq<seq<nat>>
    var tystate: seq<nat>
    var gotos: seq<seq<nat>>
    var lkst: seq<set<nat>>
    var chains: seq<seq<nat>>

    ghost predicate Numbers()
      reads this
    {
      (forall q, i :: 0 <= q < |looks| && 0 <= i < |looks[q]| ==> looks[q][i] < |lkst|) &&
      forall i, j :: 0 <= i < j < |lkst| ==> lkst[i] != lkst[j]
    }

    ghost function View(): (t: Table)
      requires Numbers()
      reads this
      ensures t.states == states && t.ty == tystate && t.gotos == gotos && |t.la| == |looks|
      ensures forall q :: 0 <= q < |looks| ==> t.la[q] == SetsOf(looks[q], lkst)
    {
      var (l, sets) := (looks, lkst);
      Table(states, seq(|l|, q requires 0 <= q < |l| && (forall i :: 0 <= i < |l[q]| ==> l[q][i] < |sets|) => SetsOf(l[q], sets)), tystate, gotos)
    }

    ghost predicate Valid()
      reads this
    {
      Numbers() && g.WellFormed() && |looks| == |tystate| == |gotos| == |states| &&
      Shape(g, View()) && Low(g, View()) && Chained(g, states, chains)
    }

    /** The first lines of stagen: one state with the first item of `$accept` and no
        lookahead, awaiting generation. */
    constructor (w: WorkingSet)
      requires w.Tables()
      ensures g == w.g && work == w && Valid() && View() == Table([Core(0, [1])], [[{}]], [1], [[]])
    {
      g, work := w.g, w;
      states, looks, tystate, gotos, lkst := [Core(0, [1])], [[0]], [1], [[]], [{}];
      chains := seq(w.g.nsyms, i => []);
      new;
      assert View().la[0] == [{}];
      assert View() == Table([Core(0, [1])], [[{}]], [1], [[]]);
      FirstTable(g);
    }

    /** flset: the number of the set, old or new. */
    method FlSet(p: set<nat>) returns (j: nat)
      requires Numbers()
      modifies this`lkst
      ensures Numbers() && View() == old(View()) && old(lkst) <= lkst && j < |lkst| && lkst[j] == p
    {
      j := 0;
      while j < |lkst|
        invariant 0 <= j <= |lkst| && forall i :: 0 <= i < j ==> lkst[i] != p
      {
        if lkst[j] == p {
          return;
        }
        j := j + 1;
      }
      ghost var was := View();
      lkst := lkst + [p];
      assert forall q :: 0 <= q < |looks| ==> View().la[q] == was.la[q];
    }

    /** The loop of state() over the items of an old state. */
    method Merge(n: nat, s: seq<Item>)
      requires Numbers() && n < |looks| == |tystate| && |s| == |looks[n]| && forall i :: 0 <= i < |s| ==> s[i].look < |lkst|
      modifies this`looks, this`tystate, this`lkst
      ensures Numbers() && old(lkst) <= lkst && Merging(old(View()), View(), n, SetsOf(Looks(s), old(lkst)), |s|)
    {
      ghost var sets, t0 := SetsOf(Looks(s), lkst), View();
      for l := 0 to |s|
        invariant Numbers() && old(lkst) <= lkst && |looks| == |old(looks)| && |looks[n]| == |s| && |tystate| == |old(tystate)|
        invariant Merging(t0, View(), n, sets, l)
      {
        MergeOne(n, s[l], l, t0, sets);
      }
    }

    method MergeOne(n: nat, x: Item, l: nat, ghost t0: Table, ghost sets: seq<set<nat>>)
      requires Numbers() && n < |looks| == |tystate| && l < |looks[n]| && x.look < |lkst| && l < |sets| && lkst[x.look] == sets[l]
      requires Merging(t0, View(), n, sets, l)
      modifies this`looks, this`tystate, this`lkst
      ensures Numbers() && old(lkst) <= lkst && |looks| == |old(looks)| && |looks[n]| == |old(looks[n])| && |tystate| == |old(tystate)|
      ensures Merging(t0, View(), n, sets, l + 1)
    {
      hide Merging;
      var u, more := Union(lkst[looks[n][l]], lkst[x.look]);
      ghost var was := View();
      MergingStep(t0, was, n, sets, l);
      if more {
        tystate := tystate[n := 1];
        var j := FlSet(u);
        looks := looks[n := looks[n][l := j]];
        assert View().la[n] == was.la[n][l := u];
        assert View().la == was.la[n := was.la[n][l := u]];
      }
    }

    /** state: the number of the state with the kernel that the candidate gives, found or
        new, with at least the lookaheads of the candidate. */
    method State(c: int, ghost k: seq<int>, cand: seq<Item>) returns (n: nat)
      requires Valid() && 0 < c < g.nsyms && Candidate(g, k, c, cand) && Canonical(g, k)
      requires Given(cand, lkst, g.start) && CandidateLow(g, k, cand, lkst)
      modifies this`states, this`looks, this`tystate, this`gotos, this`lkst, this`chains
      ensures Valid() && old(lkst) <= lkst && Evolves(old(View()), View(), -1)
      ensures More(g, old(View()), View()) || View() == old(View())
      ensures 0 < n < |states| && GotoKernel(g, k, c, states[n].items)
      ensures forall i :: 0 <= i < |cand| ==> cand[i].look < |lkst| && Arrived(View(), n, cand[i].pitem, lkst[cand[i].look])
    {
      hide Low, Shape, CandidateLow, Canonical, GotoKernel, Evolves, More, Arrived, RowOK, Chained, Candidate;
      CandidateFacts(g, k, c, cand);
      NotEmpty(g, View());
      var s := SortItems(cand);
      SortedKernel(g, k, c, cand, s);
      RowFacts(g, k, c, cand, s, lkst);
      var found;
      found, n := Search(c, s);
      if !found {
        n := |states|;
        AddState(c, s);
      } else {
        JoinState(n, s);
      }
      ArrivedAll(View(), n, cand, s, old(lkst), g.start);
    }

    /** The search along the chain of states entered on `c`. */
    method Search(c: int, s: seq<Item>) returns (found: bool, n: nat)
      requires Valid() && 0 < c < g.nsyms && s != [] && SymAt(g, s[0].pitem - 1) == c
      ensures found ==> 0 < n < |states| && states[n].items == ItemsOf(s)
      ensures !found ==> forall p :: 0 < p < |states| ==> states[p].items != ItemsOf(s)
    {
      hide Low, SymAt;
      ghost var chain := chains[c];
      n := 0;
      for i := 0 to |chains[c]|
        invariant forall e :: 0 <= e < i ==> states[chain[e]].items != ItemsOf(s)
      {
        n := chains[c][i];
        found := SameKernel(states[n].items, s);
        if found {
          return;
        }
      }
      found := false;
      OnlyInChain(g, states, chains, c, ItemsOf(s));
    }

    /** A new state. */
    method AddState(c: int, s: seq<Item>)
      requires Valid() && 0 < c < g.nsyms && s != [] && Given(s, lkst, g.start)
      requires s[0].pitem > 1 && SymAt(g, s[0].pitem - 1) == c && forall p :: 0 < p < |states| ==> states[p].items != ItemsOf(s)
      requires RowOK(g, ItemsOf(s), SetsOf(Looks(s), lkst)) && forall m :: Spreads(g, m) ==> RowBelow(ItemsOf(s), SetsOf(Looks(s), lkst), m)
      modifies this`states, this`looks, this`tystate, this`gotos, this`chains
      ensures Valid() && Evolves(old(View()), View(), -1) && More(g, old(View()), View())
      ensures |states| == |old(states)| + 1 && states[|old(states)|].items == ItemsOf(s)
      ensures forall i :: 0 <= i < |s| ==> Arrived(View(), |old(states)|, s[i].pitem, lkst[s[i].look])
    {
      hide Low, Shape, Evolves, More, Arrived, RowOK, Spreads;
      NotEmpty(g, View());
      AddedState(g, View(), c, ItemsOf(s), SetsOf(Looks(s), lkst));
      ghost var was := View();
      ChainGrows(g, states, chains, c, Core(c, ItemsOf(s)));
      chains := chains[c := [|states|] + chains[c]];
      states := states + [Core(c, ItemsOf(s))];
      looks := looks + [Looks(s)];
      tystate := tystate + [1];
      gotos := gotos + [[]];
      assert View().la == was.la + [SetsOf(Looks(s), lkst)];
    }

    /** An old state receives the lookaheads. */
    method JoinState(n: nat, s: seq<Item>)
      requires Valid() && n < |states| && states[n].items == ItemsOf(s) && Given(s, lkst, g.start)
      requires forall m :: Spreads(g, m) ==> RowBelow(ItemsOf(s), SetsOf(Looks(s), lkst), m)
      modifies this`looks, this`tystate, this`lkst
      ensures Valid() && old(lkst) <= lkst && Evolves(old(View()), View(), -1)
      ensures More(g, old(View()), View()) || View() == old(View())
      ensures forall i :: 0 <= i < |s| ==> Arrived(View(), n, s[i].pitem, old(lkst)[s[i].look])
    {
      hide Low, Evolves, More, Arrived, RowOK, Spreads, Merging, RowBelow;
      ghost var was, sets := View(), SetsOf(Looks(s), lkst);
      RowLength(g, was, n);
      Merge(n, s);
      MergedEvolves(g, was, View(), n, sets);
      MergedLow(g, was, View(), n, sets);
    }

    // The gotos of one state.

    /** Where stagen stands in the working set of state `i`, at entry `j`: `ws` is the
        closure, `t1` the tables at its start, `go` the gotos so far. */
    ghost predicate Emitting(i: nat, k: seq<int>, t1: Table, ws: seq<WSet>, go: seq<nat>, j: nat)
      reads this, work
    {
      Valid() && i < |states| && i < |tystate| && i < |t1.la| && states[i].items == k && Canonical(g, k) &&
      Evolves(t1, View(), i) && Progress(g, t1, View(), i) && TypeSoFar(g, tystate[i], k, ws, j) &&
      GotosSoFar(g, View(), k, ws, go, j) && Flagged(g, ws, work.wsets, j) &&
      LeastClosure(g, k, t1.la[i], ws) && EntriesLow(g, k, ws)
    }

    /** The items from entry `j` on with `c` after the dot, moved over it. */
    method GatherItems(j: nat, c: int, ghost ws: seq<WSet>) returns (cand: seq<Item>)
      requires Valid() && work.g == g && j < |ws| && NoDoubles(ws) && Flagged(g, ws, work.wsets, j) && c > 0
      requires SymAt(g, ws[j].pitem) == c && !HasSymbol(g, ws, c, j) && forall e :: 0 <= e < |ws| ==> IsItem(g, ws[e].pitem)
      modifies this`lkst, work`wsets
      ensures Valid() && View() == old(View()) && old(lkst) <= lkst
      ensures Flagged(g, ws, work.wsets, j + 1) && Gathered(g, ws, c, j, |ws|, cand, lkst)
    {
      hide Low, Shape, Chained, Gathered;
      cand := [];
      NothingGathered(g, ws, c, j, lkst);
      var k := j;
      while k < |work.wsets|
        invariant j <= k <= |ws| && Valid() && View() == old(View()) && old(lkst) <= lkst
        invariant FlaggedUpto(g, ws, work.wsets, c, j, k) && Gathered(g, ws, c, j, k, cand, lkst)
      {
        if c == g.ritem[work.wsets[k].pitem] {
          ghost var was := lkst;
          var look := FlSet(work.wsets[k].ws);
          GatheredMore(g, ws, c, j, k, cand, was, Item(ws[k].pitem + 1, look), lkst);
          cand := cand + [Item(work.wsets[k].pitem + 1, look)];
          work.wsets := work.wsets[k := work.wsets[k].(flag := true)];
        } else {
          GatheredSkip(g, ws, c, j, k, cand, lkst);
        }
        k := k + 1;
      }
      AllFlagged(g, ws, work.wsets, c, j);
    }

    /** The body of the loop over the working set. */
    method EmitGoto(i: nat, j: nat, go: seq<nat>, ghost k: seq<int>, ghost t1: Table, ghost ws: seq<WSet>) returns (go': seq<nat>)
      requires work.g == g && j < |ws| && Emitting(i, k, t1, ws, go, j)
      modifies this`states, this`looks, this`tystate, this`gotos, this`lkst, this`chains, work`wsets
      ensures Emitting(i, k, t1, ws, go', j + 1)
    {
      hide Valid, LeastClosure, EntriesLow, Canonical, Evolves, Progress, GotosSoFar, More, TypeSoFar, HasSymbol;
      ValidFacts();
      EntrySymbol(g, k, t1.la[i], ws, j);
      if work.wsets[j].flag {
        FlagSet(g, ws, work.wsets, j);
        NoNewSymbol(g, View(), k, ws, go, j, tystate[i]);
        return go;
      }
      var c := g.ritem[work.wsets[j].pitem];
      if c <= 0 {
        EmitType(i, j, go, k, t1, ws);
        return go;
      }
      go' := EmitState(i, j, go, c, k, t1, ws);
    }

    /** An item with nothing to move over decides about the type of the state. */
    method EmitType(i: nat, j: nat, ghost go: seq<nat>, ghost k: seq<int>, ghost t1: Table, ghost ws: seq<WSet>)
      requires j < |ws| && Emitting(i, k, t1, ws, go, j) && SymAt(g, ws[j].pitem) <= 0
      modifies this`tystate, work`wsets
      ensures Emitting(i, k, t1, ws, go, j + 1)
    {
      hide Low, Shape, Chained, LeastClosure, EntriesLow, Canonical, Evolves, Progress, GotosSoFar, More, Flagged, OutsideComplete;
      FlagOne(g, ws, work.wsets, j);
      FlagSize(g, ws, work.wsets, j);
      work.wsets := work.wsets[j := work.wsets[j].(flag := true)];
      NoGoto(g, View(), k, ws, go, j);
      TypeKept(g, k, ws, j);
      if |states[i].items| <= j {
        ghost var was := View();
        SetType(i, if tystate[i] == 1 then 1 else 2, t1);
        GotosSame(g, was, View(), k, ws, go, j + 1);
      }
    }

    /** The goto on `c`. */
    method EmitState(i: nat, j: nat, go: seq<nat>, c: int, ghost k: seq<int>, ghost t1: Table, ghost ws: seq<WSet>) returns (go': seq<nat>)
      requires work.g == g && j < |ws| && Emitting(i, k, t1, ws, go, j)
      requires 0 < c < g.nsyms && SymAt(g, ws[j].pitem) == c && j < |work.wsets| && !work.wsets[j].flag
      modifies this`states, this`looks, this`tystate, this`gotos, this`lkst, this`chains, work`wsets
      ensures Emitting(i, k, t1, ws, go', j + 1)
    {
      hide Valid, LeastClosure, EntriesLow, Canonical, Evolves, Progress, GotosSoFar, Gathered, More, Flagged, TypeSoFar, HasSymbol;
      ValidFacts();
      EntrySymbol(g, k, t1.la[i], ws, j);
      GotosSize(g, View(), k, ws, go, j);
      NewSymbol(g, ws, work.wsets, c, j);
      var cand := GatherItems(j, c, ws);
      ValidFacts();
      GatheredAll(g, k, t1.la[i], ws, c, j, cand, lkst);
      ghost var before, gathered := View(), lkst;
      var n := State(c, k, cand);
      ValidFacts();
      TokensPassed(g, View(), k, ws, c, j, cand, gathered, lkst, n);
      EvolvedRow(before, View(), -1, i);
      GotoAdded(g, before, View(), i, k, ws, go, c, j, n);
      EmitProgress(g, t1, before, View(), i, k, ws, j);
      go' := go[c := n];
    }

    lemma ValidFacts()
      requires Valid()
      ensures Numbers() && g.WellFormed() && |looks| == |tystate| == |gotos| == |states|
    {
    }

    method SetType(i: nat, ty: nat, ghost t1: Table)
      requires Valid() && i < |states| && i < |tystate| && Evolves(t1, View(), i) && Progress(g, t1, View(), i)
      requires i < |t1.la| && ty == if tystate[i] == 1 then 1 else 2
      modifies this`tystate
      ensures Valid() && tystate == old(tystate)[i := ty] && View() == old(View()).(ty := tystate)
      ensures Evolves(t1, View(), i) && Progress(g, t1, View(), i)
    {
      hide CoresOK, More, Spreads;
      ghost var was := View();
      tystate := tystate[i := ty];
      TypeSet(g, t1, was, i, ty);
    }

    /** Every state that does not await generation has passed on what it has. */
    ghost predicate Ready()
      reads this
    {
      Valid() && forall q :: 0 <= q < |states| && tystate[q] != 1 ==> Finished(g, View(), q)
    }

    /** Close state `i` and do its gotos. */
    method Generate(i: nat)
      requires Ready() && work.Tables() && work.g == g && i < |states| && tystate[i] == 1
      modifies this`states, this`looks, this`tystate, this`gotos, this`lkst, this`chains, work`wsets
      ensures Ready() && Fewer(g, old(View()), View())
    {
      hide Low, Shape, Chained, LeastClosure, EntriesLow, Canonical, Evolves, Progress, GotosSoFar, More, Finished, TypeSoFar, Flagged,
        Kernel, NoStarts;
      ghost var t0 := View();
      tystate := tystate[i := 0];
      ghost var t1, k := View(), states[i].items;
      StartState(g, t0, t1, i);
      work.Closure(states[i].items, SetsOf(looks[i], lkst));
      ghost var ws := work.wsets;
      ClosureLow(g, t1, i, ws);
      var go := seq(g.nsyms, _ => 0);
      NothingEmitted(g, t1, i, k, ws, go);
      var j := 0;
      while j < |work.wsets|
        invariant 0 <= j <= |ws| == |work.wsets| && work.g == g && Emitting(i, k, t1, ws, go, j)
      {
        go := EmitGoto(i, j, go, k, t1, ws);
        FlagSize(g, ws, work.wsets, j + 1);
        j := j + 1;
      }
      ghost var t := View();
      gotos := gotos[i := go];
      GotosRecorded(g, t0, t1, t, i, k, ws, go);
    }

    /** stagen: one state after another, from the first again after each, until none
        awaits generation. */
    method Run()
      requires Ready() && work.Tables() && work.g == g
      modifies this`states, this`looks, this`tystate, this`gotos, this`lkst, this`chains, work`wsets
      ensures Ready() && forall q :: 0 <= q < |states| ==> Finished(g, View(), q)
    {
      hide Finished, Low, Chained, Shape, AllRoom, Waiting, Subsets, Room, CoresOK;
      var more := true;
      Bounded();
      while more
        invariant Ready() && |states| <= |Subsets(|g.ritem|)| && (!more ==> forall q :: 0 <= q < |states| ==> tystate[q] != 1)
        decreases |Subsets(|g.ritem|)| - |states|, AllRoom(g.start, View().la), Waiting(tystate), more
      {
        more := RunOne();
        Bounded();
      }
    }

    lemma Bounded()
      requires Valid()
      ensures |states| <= |Subsets(|g.ritem|)|
    {
      StatesBounded(g, states);
    }

    /** The loop that looks for a state awaiting generation. */
    method RunOne() returns (more: bool)
      requires Ready() && work.Tables() && work.g == g
      modifies this`states, this`looks, this`tystate, this`gotos, this`lkst, this`chains, work`wsets
      ensures Ready()
      ensures if more then Fewer(g, old(View()), View()) else View() == old(View()) && forall q :: 0 <= q < |states| ==> tystate[q] != 1
    {
      hide Finished, Low, Chained, More;
      for i := 0 to |states|
        invariant Ready() && View() == old(View()) && forall q :: 0 <= q < i ==> tystate[q] != 1
      {
        if tystate[i] == 1 {
          Generate(i);
          return true;
        }
      }
      return false;
    }
  }

  lemma TypeSet(g: Grammar, t1: Table, t: Table, i: nat, ty: nat)
    requires g.WellFormed() && Shape(g, t) && Low(g, t) && i < |t.ty| && Evolves(t1, t, i) && i < |t1.la| && Progress(g, t1, t, i)
    requires t.ty[i] == 1 <==> ty == 1
    ensures var t' := t.(ty := t.ty[i := ty]); Shape(g, t') && Low(g, t') && Evolves(t1, t', i) && Progress(g, t1, t', i)
  {
    hide CoresOK, Spreads, AllRoom, RowOK;
    var t' := t.(ty := t.ty[i := ty]);
    forall q | 0 <= q < |t.states| ensures RowOK(g, t'.states[q].items, t'.la[q]) {
      assert RowOK(g, t.states[q].items, t.la[q]);
    }
    forall m, q | Spreads(g, m) && 0 <= q < |t.states| ensures RowBelow(t'.states[q].items, t'.la[q], m) {
      assert RowBelow(t.states[q].items, t.la[q], m);
    }
    forall q | 0 <= q < |t1.states| ensures RowEvolves(t1, t', q, i) {
      assert RowEvolves(t1, t, q, i);
    }
  }

  lemma EntrySymbol(g: Grammar, k: seq<int>, looks: seq<set<nat>>, ws: seq<WSet>, j: nat)
    requires g.WellFormed() && LeastClosure(g, k, looks, ws) && j < |ws|
    ensures NoDoubles(ws) && (forall e :: 0 <= e < |ws| ==> IsItem(g, ws[e].pitem))
    ensures SymAt(g, ws[j].pitem) == g.ritem[ws[j].pitem] < g.nsyms
  {
    hide Least, Served, InClosure;
    var r := ItemExists(g, ws[j].pitem, g.nrules);
    ItemSymbol(g, ws[j].pitem, r);
  }

  /** A flagged entry has been passed, or its symbol has. */
  lemma FlagSet(g: Grammar, ws: seq<WSet>, now: seq<WSet>, j: nat)
    requires j < |ws| && Flagged(g, ws, now, j) && now[j].flag
    ensures SymAt(g, ws[j].pitem) > 0 && HasSymbol(g, ws, SymAt(g, ws[j].pitem), j) && Flagged(g, ws, now, j + 1)
  {
    SymbolMore(g, ws, j);
  }

  lemma NoNewSymbol(g: Grammar, t: Table, k: seq<int>, ws: seq<WSet>, go: seq<nat>, j: nat, ty: nat)
    requires g.WellFormed() && j < |ws| && GotosSoFar(g, t, k, ws, go, j) && TypeSoFar(g, ty, k, ws, j)
    requires SymAt(g, ws[j].pitem) > 0 && HasSymbol(g, ws, SymAt(g, ws[j].pitem), j)
    ensures GotosSoFar(g, t, k, ws, go, j + 1) && TypeSoFar(g, ty, k, ws, j + 1)
  {
    SymbolMore(g, ws, j);
    TypeKept(g, k, ws, j);
    hide HasSymbol, PassedOn, OutsideComplete;
    forall c | 0 < c < g.nsyms ensures GotoOK(g, t, k, ws, c, j + 1, go[c]) {
      assert GotoOK(g, t, k, ws, c, j, go[c]);
    }
  }

  lemma TypeKept(g: Grammar, k: seq<int>, ws: seq<WSet>, j: nat)
    requires j < |ws|
    ensures OutsideComplete(g, k, ws, j + 1) <==> OutsideComplete(g, k, ws, j) || (|k| <= j && SymAt(g, ws[j].pitem) <= 0)
  {
    if OutsideComplete(g, k, ws, j) {
      var e :| |k| <= e < j && e < |ws| && SymAt(g, ws[e].pitem) <= 0;
    }
  }

  /** Something new, or one state less that awaits generation. */
  ghost predicate Fewer(g: Grammar, t: Table, t': Table) {
    More(g, t, t') || (|t'.states| == |t.states| && t'.la == t.la && Waiting(t'.ty) < Waiting(t.ty))
  }

  lemma StartState(g: Grammar, t0: Table, t1: Table, i: nat)
    requires g.WellFormed() && Shape(g, t0) && Low(g, t0) && i < |t0.ty| && t1 == t0.(ty := t0.ty[i := 0])
    ensures Shape(g, t1) && Low(g, t1) && Evolves(t1, t1, i) && Progress(g, t1, t1, i)
    ensures Kernel(g, t1.states[i].items) && NoStarts(g, t1.states[i].items) && Canonical(g, t1.states[i].items)
    ensures |t1.la[i]| == |t1.states[i].items| && forall e, t :: 0 <= e < |t1.la[i]| && t in t1.la[i][e] ==> t < g.start
  {
    hide CoresOK, Spreads;
    var k := t0.states[i].items;
    forall q | 0 <= q < |t1.states| ensures RowOK(g, t1.states[q].items, t1.la[q]) {
      assert RowOK(g, t0.states[q].items, t0.la[q]);
    }
    forall m, q | Spreads(g, m) && 0 <= q < |t1.states| ensures RowBelow(t1.states[q].items, t1.la[q], m) {
      assert RowBelow(t0.states[q].items, t0.la[q], m);
    }
    assert RowOK(g, k, t0.la[i]);
    CanonicalKernel(g, k);
    forall e, r | 0 <= e < |k| && 2 < r < g.nrules ensures k[e] != g.rrhs[r] {
      KernelNotStart(g, k, k[e], r);
    }
  }

  lemma NothingEmitted(g: Grammar, t: Table, i: nat, k: seq<int>, ws: seq<WSet>, go: seq<nat>)
    requires g.WellFormed() && go == seq(g.nsyms, _ => 0) && i < |t.ty| && t.ty[i] == 0
    requires forall e :: 0 <= e < |ws| ==> !ws[e].flag
    ensures GotosSoFar(g, t, k, ws, go, 0) && Flagged(g, ws, ws, 0) && TypeSoFar(g, t.ty[i], k, ws, 0)
  {
  }

  /** The state that has been closed is finished, unless its own sets have grown. */
  lemma GeneratedFinished(g: Grammar, t1: Table, t: Table, i: nat, k: seq<int>, ws: seq<WSet>, go: seq<nat>)
    requires g.WellFormed() && i < |t1.states| && i < |t.states| && Evolves(t1, t, i) && k == t.states[i].items && t.ty[i] != 1
    requires LeastClosure(g, k, t1.la[i], ws) && GotosSoFar(g, t, k, ws, go, |ws|) && TypeSoFar(g, t.ty[i], k, ws, |ws|)
    ensures Finished(g, t.(gotos := t.gotos[i := go]), i)
  {
    var t' := t.(gotos := t.gotos[i := go]);
    assert RowEvolves(t1, t, i, i);
    GotosSame(g, t, t', k, ws, go, |ws|);
    hide LeastClosure, InClosure;
    forall c | 0 < c < g.nsyms ensures PassedOn(g, t', k, ws, c, go[c]) {
      assert GotoOK(g, t', k, ws, c, |ws|, go[c]);
      if !HasSymbol(g, ws, c, |ws|) {
        NoSymbol(g, t', k, ws, c);
      }
    }
    OutsideIs(g, k, t1.la[i], ws);
  }

  lemma NoSymbol(g: Grammar, t: Table, k: seq<int>, ws: seq<WSet>, c: int)
    requires g.WellFormed() && !HasSymbol(g, ws, c, |ws|)
    ensures PassedOn(g, t, k, ws, c, 0)
  {
  }

  lemma OutsideIs(g: Grammar, k: seq<int>, looks: seq<set<nat>>, ws: seq<WSet>)
    requires g.WellFormed() && LeastClosure(g, k, looks, ws)
    ensures OutsideComplete(g, k, ws, |ws|) <==> CompleteOutside(g, k)
  {
    hide Least, Served, InClosure;
    if CompleteOutside(g, k) {
      var x :| InClosure(g, k, x) && x !in k && SymAt(g, x) <= 0;
      var e := ClosureComplete(g, k, looks, ws, x);
      assert e >= |k|;
    }
    if OutsideComplete(g, k, ws, |ws|) {
      var e :| |k| <= e < |ws| && SymAt(g, ws[e].pitem) <= 0;
      assert InClosure(g, k, ws[e].pitem) && ws[e].pitem !in k;
    }
  }

  /** The gotos of the other states are not touched. */
  lemma OtherFinished(g: Grammar, t0: Table, t1: Table, t: Table, i: nat, go: seq<nat>, q: nat)
    requires g.WellFormed() && |t0.states| == |t0.la| == |t0.ty| == |t0.gotos| && i < |t0.states| && q < |t.states| && q != i
    requires t1 == t0.(ty := t0.ty[i := 0]) && Evolves(t1, t, i) && t.ty[q] != 1 && i < |t.states|
    requires q < |t0.states| && t0.ty[q] != 1 ==> Finished(g, t0, q)
    ensures Finished(g, t.(gotos := t.gotos[i := go]), q)
  {
    hide CompleteOutside;
    assert RowEvolves(t1, t, q, i);
    var t' := t.(gotos := t.gotos[i := go]);
    SameFinished(g, t0, t1, q);
    FinishedKept(g, t1, t, i, q);
    SameFinished(g, t, t', q);
  }

  lemma SameFinished(g: Grammar, t: Table, t': Table, q: nat)
    requires g.WellFormed() && q < |t.states| == |t.la| == |t.gotos| == |t.ty| && Finished(g, t, q)
    requires t'.states == t.states && t'.la == t.la && |t'.gotos| == |t.gotos| && |t'.ty| == |t.ty| && t'.gotos[q] == t.gotos[q] && t'.ty[q] == t.ty[q]
    ensures Finished(g, t', q)
  {
    hide LeastClosure, CompleteOutside, PassedOn;
    var k, go := t.states[q].items, t.gotos[q];
    var ws :| LeastClosure(g, k, t.la[q], ws) && AllPassed(g, t, k, ws, go);
    forall c | 0 < c < g.nsyms ensures PassedOn(g, t', k, ws, c, go[c]) {
      SamePassed(g, t, t', k, ws, c, go[c]);
    }
  }

  lemma GotosRecorded(g: Grammar, t0: Table, t1: Table, t: Table, i: nat, k: seq<int>, ws: seq<WSet>, go: seq<nat>)
    requires g.WellFormed() && Shape(g, t0) && i < |t0.states| && t0.ty[i] == 1 && t1 == t0.(ty := t0.ty[i := 0])
    requires forall q :: 0 <= q < |t0.states| && t0.ty[q] != 1 ==> Finished(g, t0, q)
    requires Shape(g, t) && Low(g, t) && Evolves(t1, t, i) && Progress(g, t1, t, i) && i < |t.states| && k == t.states[i].items
    requires LeastClosure(g, k, t1.la[i], ws) && GotosSoFar(g, t, k, ws, go, |ws|) && TypeSoFar(g, t.ty[i], k, ws, |ws|)
    ensures var t' := t.(gotos := t.gotos[i := go]);
      Shape(g, t') && Low(g, t') && Fewer(g, t0, t') && forall q :: 0 <= q < |t'.states| && t'.ty[q] != 1 ==> Finished(g, t', q)
  {
    var t' := t.(gotos := t.gotos[i := go]);
    hide CoresOK, RowOK, Finished, Evolves, LeastClosure, GotosSoFar, TypeSoFar, AllRoom, RowBelow, Spreads;
    if !More(g, t1, t) {
      WaitingDrops(t0.ty, t.ty, i);
    }
    forall q | 0 <= q < |t'.states| && t'.ty[q] != 1 ensures Finished(g, t', q) {
      if q == i {
        GeneratedFinished(g, t1, t, i, k, ws, go);
      } else {
        OtherFinished(g, t0, t1, t, i, go, q);
      }
    }
  }

  ghost predicate HasSymbol(g: Grammar, ws: seq<WSet>, c: int, j: nat) {
    exists e :: 0 <= e < j && e < |ws| && SymAt(g, ws[e].pitem) == c
  }

  /** The flags at entry `j`: set before it, and on later items over the same symbols. */
  ghost predicate Flagged(g: Grammar, ws: seq<WSet>, now: seq<WSet>, j: nat) {
    |now| == |ws| && forall m :: 0 <= m < |ws| ==>
      now[m].pitem == ws[m].pitem && now[m].ws == ws[m].ws &&
      (now[m].flag <==> m < j || (SymAt(g, ws[m].pitem) > 0 && HasSymbol(g, ws, SymAt(g, ws[m].pitem), j)))
  }

  /** While the items over `c` are gathered. */
  ghost predicate FlaggedUpto(g: Grammar, ws: seq<WSet>, now: seq<WSet>, c: int, j: nat, k: nat) {
    |now| == |ws| && forall m :: 0 <= m < |ws| ==>
      now[m].pitem == ws[m].pitem && now[m].ws == ws[m].ws &&
      (now[m].flag <==> m < j || (SymAt(g, ws[m].pitem) > 0 && HasSymbol(g, ws, SymAt(g, ws[m].pitem), j)) ||
                        (j <= m < k && SymAt(g, ws[m].pitem) == c))
  }

  lemma NothingGathered(g: Grammar, ws: seq<WSet>, c: int, j: nat, lkst: seq<set<nat>>)
    ensures Gathered(g, ws, c, j, j, [], lkst)
    ensures forall now :: Flagged(g, ws, now, j) ==> FlaggedUpto(g, ws, now, c, j, j)
  {
  }

  lemma SymbolMore(g: Grammar, ws: seq<WSet>, j: nat)
    requires j < |ws|
    ensures forall c :: HasSymbol(g, ws, c, j + 1) <==> HasSymbol(g, ws, c, j) || c == SymAt(g, ws[j].pitem)
  {
    forall c ensures HasSymbol(g, ws, c, j + 1) <==> HasSymbol(g, ws, c, j) || c == SymAt(g, ws[j].pitem) {
      if HasSymbol(g, ws, c, j) {
        var e :| 0 <= e < j && e < |ws| && SymAt(g, ws[e].pitem) == c;
      }
    }
  }

  lemma AllFlagged(g: Grammar, ws: seq<WSet>, now: seq<WSet>, c: int, j: nat)
    requires j < |ws| && c > 0 && SymAt(g, ws[j].pitem) == c && FlaggedUpto(g, ws, now, c, j, |ws|)
    ensures Flagged(g, ws, now, j + 1)
  {
    SymbolMore(g, ws, j);
  }

  ghost predicate OutsideComplete(g: Grammar, k: seq<int>, ws: seq<WSet>, j: nat) {
    exists e :: |k| <= e < j && e < |ws| && SymAt(g, ws[e].pitem) <= 0
  }

  ghost predicate TypeSoFar(g: Grammar, ty: nat, k: seq<int>, ws: seq<WSet>, j: nat) {
    ty == 1 || ty == (if OutsideComplete(g, k, ws, j) then 2 else 0)
  }

  ghost predicate GotoOK(g: Grammar, t: Table, k: seq<int>, ws: seq<WSet>, c: int, j: nat, n: nat)
    requires g.WellFormed()
  {
    if HasSymbol(g, ws, c, j) then n > 0 && PassedOn(g, t, k, ws, c, n) else n == 0
  }

  ghost predicate GotosSoFar(g: Grammar, t: Table, k: seq<int>, ws: seq<WSet>, go: seq<nat>, j: nat)
    requires g.WellFormed()
  {
    |go| == g.nsyms && forall c :: 0 < c < g.nsyms ==> GotoOK(g, t, k, ws, c, j, go[c])
  }

  /** Something is new, or nothing but the type of state `i` has changed and it does not
      await generation. */
  ghost predicate Progress(g: Grammar, t1: Table, t: Table, i: nat) {
    More(g, t1, t) ||
    (t.states == t1.states && t.la == t1.la && |t.ty| == |t1.ty| && i < |t.ty| && t.ty[i] != 1 &&
     forall q :: 0 <= q < |t.ty| && q != i ==> t.ty[q] == t1.ty[q])
  }

  /** Only states entered on `c` have a kernel with `c` before its first dot. */
  lemma OnlyInChain(g: Grammar, states: seq<Core>, chains: seq<seq<nat>>, c: int, items: seq<int>)
    requires g.WellFormed() && CoresOK(g, states) && Chained(g, states, chains) && 0 < c < g.nsyms
    requires items != [] && SymAt(g, items[0] - 1) == c
    ensures forall p :: 0 < p < |states| && states[p].items == items ==> p in chains[c]
  {
  }

  lemma NotEmpty(g: Grammar, t: Table)
    requires g.WellFormed() && Shape(g, t)
    ensures |t.states| > 0
  {
  }

  lemma CandidateFacts(g: Grammar, k: seq<int>, c: int, cand: seq<Item>)
    requires g.WellFormed() && Candidate(g, k, c, cand)
    ensures cand != [] && forall i, j :: 0 <= i < j < |cand| ==> cand[i].pitem != cand[j].pitem
  {
  }

  lemma RowLength(g: Grammar, t: Table, n: nat)
    requires g.WellFormed() && Shape(g, t) && n < |t.states|
    ensures |t.la[n]| == |t.states[n].items|
  {
    assert RowOK(g, t.states[n].items, t.la[n]);
  }

  /** Comparing the items of an old state with those of a candidate. */
  method SameKernel(items: seq<int>, s: seq<Item>) returns (same: bool)
    ensures same <==> items == ItemsOf(s)
  {
    if |items| != |s| {
      return false;
    }
    for l := 0 to |s|
      invariant items[..l] == ItemsOf(s)[..l]
    {
      if items[l] != s[l].pitem {
        assert ItemsOf(s)[l] != items[l];
        return false;
      }
    }
    return true;
  }

  /** The lookahead sets of the items are known and hold tokens. */
  ghost predicate Given(s: seq<Item>, lkst: seq<set<nat>>, n: nat) {
    forall i :: 0 <= i < |s| ==> s[i].look < |lkst| && forall t :: t in lkst[s[i].look] ==> t < n
  }

  lemma RowFacts(g: Grammar, k: seq<int>, c: int, cand: seq<Item>, s: seq<Item>, lkst: seq<set<nat>>)
    requires g.WellFormed() && Candidate(g, k, c, cand) && CandidateLow(g, k, cand, lkst) && Given(cand, lkst, g.start)
    requires c > 0 && Canonical(g, k) && GotoKernel(g, k, c, ItemsOf(s)) && Canonical(g, ItemsOf(s)) && forall x :: x in s <==> x in cand
    ensures Given(s, lkst, g.start) && RowOK(g, ItemsOf(s), SetsOf(Looks(s), lkst))
    ensures forall m :: Spreads(g, m) ==> RowBelow(ItemsOf(s), SetsOf(Looks(s), lkst), m)
  {
    hide Spreads, CandidateLow, GotoKernel, Canonical, Candidate;
    forall i | 0 <= i < |s| ensures s[i].look < |lkst| && forall t :: t in lkst[s[i].look] ==> t < g.start {
      assert s[i] in s;
    }
    forall m | Spreads(g, m) ensures RowBelow(ItemsOf(s), SetsOf(Looks(s), lkst), m) {
      forall i | 0 <= i < |s| ensures SetsOf(Looks(s), lkst)[i] <= m(ItemsOf(s), ItemsOf(s)[i]) {
        SortedLow(g, k, c, cand, s, lkst, m, i);
      }
    }
  }

  lemma ChainGrows(g: Grammar, states: seq<Core>, chains: seq<seq<nat>>, c: int, core: Core)
    requires Chained(g, states, chains) && 0 < c < g.nsyms && core.symbol == c && states != []
    ensures Chained(g, states + [core], chains[c := [|states|] + chains[c]])
  {
    var more := chains[c := [|states|] + chains[c]];
    forall q | 0 < q < |states| + 1
      ensures 0 <= (states + [core])[q].symbol < |more| && q in more[(states + [core])[q].symbol]
    {
      if q < |states| {
        assert q in chains[states[q].symbol];
      }
    }
  }

  lemma ArrivedAll(t: Table, n: nat, cand: seq<Item>, s: seq<Item>, lkst: seq<set<nat>>, tokens: nat)
    requires Given(cand, lkst, tokens) && Given(s, lkst, tokens) && forall x :: x in s <==> x in cand
    requires forall i :: 0 <= i < |s| ==> Arrived(t, n, s[i].pitem, lkst[s[i].look])
    ensures forall i :: 0 <= i < |cand| ==> Arrived(t, n, cand[i].pitem, lkst[cand[i].look])
  {
    hide Arrived;
    forall i | 0 <= i < |cand| ensures Arrived(t, n, cand[i].pitem, lkst[cand[i].look]) {
      assert cand[i] in cand;
      var j :| 0 <= j < |s| && s[j] == cand[i];
    }
  }

  lemma MergingStep(t0: Table, t: Table, n: nat, sets: seq<set<nat>>, l: nat)
    requires Merging(t0, t, n, sets, l) && l < |sets|
    ensures n < |t.la| == |t0.la| && l < |t.la[n]| && |t.ty| == |t0.ty|
    ensures if sets[l] <= t.la[n][l] then Merging(t0, t, n, sets, l + 1)
      else Merging(t0, t.(la := t.la[n := t.la[n][l := t.la[n][l] + sets[l]]], ty := t.ty[n := 1]), n, sets, l + 1)
  {
    if sets[l] <= t.la[n][l] {
      assert t.la[n][l] == t0.la[n][l] + sets[l];
    }
  }

  // ---------------------------------------------------------------------
  // The gotos of one state
  // ---------------------------------------------------------------------

  /** The closure of a state holds nothing that spreading does not force. */
  ghost predicate EntriesLow(g: Grammar, k: seq<int>, ws: seq<WSet>)
    requires g.WellFormed()
  {
    forall m, e :: Spreads(g, m) && 0 <= e < |ws| ==> ws[e].ws <= m(k, ws[e].pitem)
  }

  lemma ClosureLow(g: Grammar, t: Table, i: nat, ws: seq<WSet>)
    requires g.WellFormed() && Shape(g, t) && Low(g, t) && i < |t.states| && LeastClosure(g, t.states[i].items, t.la[i], ws)
    ensures EntriesLow(g, t.states[i].items, ws)
  {
    hide LocalClosed, Served, Entries;
    var k := t.states[i].items;
    assert RowOK(g, k, t.la[i]);
    forall m, e | Spreads(g, m) && 0 <= e < |ws| ensures ws[e].ws <= m(k, ws[e].pitem) {
      assert RowBelow(k, t.la[i], m);
      assert SpreadsFrom(g, m, k);
      assert LocalSolution(g, k, t.la[i], Part(m, k));
      assert Below(ws, Part(m, k));
    }
  }

  /** `x` is entry `e` of `ws` moved over the symbol after its dot. */
  ghost predicate MovedEntry(ws: seq<WSet>, e: nat, x: Item, lkst: seq<set<nat>>) {
    e < |ws| && x.pitem == ws[e].pitem + 1 && x.look < |lkst| && lkst[x.look] == ws[e].ws
  }

  /** Entry `e` has `c` after its dot and lies in `[lo, hi)`. */
  ghost predicate Before(g: Grammar, ws: seq<WSet>, c: int, lo: nat, hi: nat, e: nat) {
    lo <= e < hi && e < |ws| && SymAt(g, ws[e].pitem) == c
  }

  /** `x` is one of those entries, moved. */
  ghost predicate ComesFrom(g: Grammar, ws: seq<WSet>, c: int, lo: nat, hi: nat, x: Item, lkst: seq<set<nat>>) {
    exists e: nat :: Before(g, ws, c, lo, hi, e) && MovedEntry(ws, e, x, lkst)
  }

  /** Entry `e`, moved, is in the candidate. */
  ghost predicate Taken(ws: seq<WSet>, e: nat, cand: seq<Item>, lkst: seq<set<nat>>) {
    exists x :: x in cand && MovedEntry(ws, e, x, lkst)
  }

  /** The candidate holds exactly the moved entries of `[lo, hi)` before symbol `c`. */
  ghost predicate Gathered(g: Grammar, ws: seq<WSet>, c: int, lo: nat, hi: nat, cand: seq<Item>, lkst: seq<set<nat>>) {
    (forall x :: x in cand ==> ComesFrom(g, ws, c, lo, hi, x, lkst)) &&
    (forall e: nat :: Before(g, ws, c, lo, hi, e) ==> Taken(ws, e, cand, lkst)) &&
    forall i, j :: 0 <= i < j < |cand| ==> cand[i].pitem != cand[j].pitem
  }

  ghost predicate NoDoubles(ws: seq<WSet>) {
    forall i, j :: 0 <= i < j < |ws| ==> ws[i].pitem != ws[j].pitem
  }

  lemma ComesFromMore(g: Grammar, ws: seq<WSet>, c: int, lo: nat, hi: nat, x: Item, lkst: seq<set<nat>>, lkst': seq<set<nat>>)
    requires ComesFrom(g, ws, c, lo, hi, x, lkst) && lkst <= lkst'
    ensures ComesFrom(g, ws, c, lo, hi + 1, x, lkst')
  {
    var e: nat :| Before(g, ws, c, lo, hi, e) && MovedEntry(ws, e, x, lkst);
    assert Before(g, ws, c, lo, hi + 1, e) && MovedEntry(ws, e, x, lkst');
  }

  lemma TakenMore(ws: seq<WSet>, e: nat, cand: seq<Item>, lkst: seq<set<nat>>, x: Item, lkst': seq<set<nat>>)
    requires Taken(ws, e, cand, lkst) && lkst <= lkst'
    ensures Taken(ws, e, cand + [x], lkst')
  {
    var y :| y in cand && MovedEntry(ws, e, y, lkst);
    assert y in cand + [x] && MovedEntry(ws, e, y, lkst');
  }

  lemma GatheredMore(g: Grammar, ws: seq<WSet>, c: int, lo: nat, hi: nat, cand: seq<Item>, lkst: seq<set<nat>>, x: Item, lkst': seq<set<nat>>)
    requires NoDoubles(ws) && lo <= hi < |ws| && Gathered(g, ws, c, lo, hi, cand, lkst) && lkst <= lkst'
    requires SymAt(g, ws[hi].pitem) == c && MovedEntry(ws, hi, x, lkst')
    ensures Gathered(g, ws, c, lo, hi + 1, cand + [x], lkst')
  {
    hide ComesFrom, Taken;
    assert x in cand + [x];
    NewTaken(g, ws, c, lo, hi, cand, x, lkst');
    forall y | y in cand + [x] ensures ComesFrom(g, ws, c, lo, hi + 1, y, lkst') {
      if y in cand {
        ComesFromMore(g, ws, c, lo, hi, y, lkst, lkst');
      }
    }
    forall e: nat | Before(g, ws, c, lo, hi + 1, e) ensures Taken(ws, e, cand + [x], lkst') {
      if e < hi {
        assert Before(g, ws, c, lo, hi, e);
        TakenMore(ws, e, cand, lkst, x, lkst');
      }
    }
    forall n | 0 <= n < |cand| ensures cand[n].pitem != x.pitem {
      assert cand[n] in cand;
      EarlierEntry(g, ws, c, lo, hi, cand[n], lkst);
    }
  }

  lemma NewTaken(g: Grammar, ws: seq<WSet>, c: int, lo: nat, hi: nat, cand: seq<Item>, x: Item, lkst: seq<set<nat>>)
    requires lo <= hi < |ws| && SymAt(g, ws[hi].pitem) == c && MovedEntry(ws, hi, x, lkst)
    ensures ComesFrom(g, ws, c, lo, hi + 1, x, lkst) && Taken(ws, hi, cand + [x], lkst)
  {
    assert Before(g, ws, c, lo, hi + 1, hi);
    assert x in cand + [x];
  }

  lemma EarlierEntry(g: Grammar, ws: seq<WSet>, c: int, lo: nat, hi: nat, x: Item, lkst: seq<set<nat>>)
    requires ComesFrom(g, ws, c, lo, hi, x, lkst) && NoDoubles(ws) && hi < |ws|
    ensures x.pitem != ws[hi].pitem + 1
  {
  }

  lemma GatheredSkip(g: Grammar, ws: seq<WSet>, c: int, lo: nat, hi: nat, cand: seq<Item>, lkst: seq<set<nat>>)
    requires lo <= hi < |ws| && Gathered(g, ws, c, lo, hi, cand, lkst) && SymAt(g, ws[hi].pitem) != c
    ensures Gathered(g, ws, c, lo, hi + 1, cand, lkst)
  {
    hide ComesFrom, Taken;
    forall x | x in cand ensures ComesFrom(g, ws, c, lo, hi + 1, x, lkst) {
      ComesFromMore(g, ws, c, lo, hi, x, lkst, lkst);
    }
    forall e: nat | Before(g, ws, c, lo, hi + 1, e) ensures Taken(ws, e, cand, lkst) {
      assert Before(g, ws, c, lo, hi, e);
    }
  }

  /** What an item of the candidate is. */
  lemma FromEntry(g: Grammar, k: seq<int>, looks: seq<set<nat>>, ws: seq<WSet>, c: int, lo: nat, x: Item, lkst: seq<set<nat>>)
    requires g.WellFormed() && Entries(g, k, looks, ws) && EntriesLow(g, k, ws) && ComesFrom(g, ws, c, lo, |ws|, x, lkst)
    ensures MovedOver(g, k, c, x.pitem) && x.look < |lkst|
    ensures forall m :: Spreads(g, m) ==> lkst[x.look] <= m(k, x.pitem - 1)
    ensures forall t :: t in lkst[x.look] ==> t < g.start
  {
    hide InClosure, Spreads;
    var e: nat :| Before(g, ws, c, lo, |ws|, e) && MovedEntry(ws, e, x, lkst);
  }

  /** When no earlier entry has `c` after its dot, the gathered items are a candidate. */
  lemma GatheredAll(g: Grammar, k: seq<int>, looks: seq<set<nat>>, ws: seq<WSet>, c: int, lo: nat, cand: seq<Item>, lkst: seq<set<nat>>)
    requires g.WellFormed() && LeastClosure(g, k, looks, ws) && EntriesLow(g, k, ws) && lo < |ws| && SymAt(g, ws[lo].pitem) == c > 0
    requires Gathered(g, ws, c, lo, |ws|, cand, lkst) && forall e :: 0 <= e < lo ==> SymAt(g, ws[e].pitem) != c
    ensures Candidate(g, k, c, cand) && CandidateLow(g, k, cand, lkst) && Given(cand, lkst, g.start)
  {
    hide Least, Served, Entries, InClosure, Spreads, ComesFrom, EntriesLow, MovedOver, MovedEntry;
    assert Before(g, ws, c, lo, |ws|, lo);
    forall y ensures y in ItemsOf(cand) <==> MovedOver(g, k, c, y) {
      if y in ItemsOf(cand) {
        var n :| 0 <= n < |cand| && ItemsOf(cand)[n] == y;
        assert cand[n] in cand;
        FromEntry(g, k, looks, ws, c, lo, cand[n], lkst);
      }
      if MovedOver(g, k, c, y) {
        ItemTaken(g, k, looks, ws, c, lo, cand, lkst, y);
      }
    }
    forall n | 0 <= n < |cand|
      ensures cand[n].look < |lkst| && (forall t :: t in lkst[cand[n].look] ==> t < g.start) &&
        forall m :: Spreads(g, m) ==> lkst[cand[n].look] <= m(k, cand[n].pitem - 1)
    {
      assert cand[n] in cand;
      FromEntry(g, k, looks, ws, c, lo, cand[n], lkst);
    }
  }

  lemma ItemTaken(g: Grammar, k: seq<int>, looks: seq<set<nat>>, ws: seq<WSet>, c: int, lo: nat, cand: seq<Item>, lkst: seq<set<nat>>, y: int)
    requires g.WellFormed() && LeastClosure(g, k, looks, ws) && MovedOver(g, k, c, y)
    requires lo <= |ws| && Gathered(g, ws, c, lo, |ws|, cand, lkst) && forall e :: 0 <= e < lo ==> SymAt(g, ws[e].pitem) != c
    ensures y in ItemsOf(cand)
  {
    hide LeastClosure, InClosure;
    var e := ClosureComplete(g, k, looks, ws, y - 1);
    assert Before(g, ws, c, lo, |ws|, e);
    var x :| x in cand && MovedEntry(ws, e, x, lkst);
    var n :| 0 <= n < |cand| && cand[n] == x;
    assert ItemsOf(cand)[n] == y;
  }

  lemma NoGoto(g: Grammar, t: Table, k: seq<int>, ws: seq<WSet>, go: seq<nat>, j: nat)
    requires g.WellFormed() && j < |ws| && GotosSoFar(g, t, k, ws, go, j) && SymAt(g, ws[j].pitem) <= 0
    ensures GotosSoFar(g, t, k, ws, go, j + 1)
  {
    SymbolMore(g, ws, j);
    hide HasSymbol, PassedOn;
    forall c | 0 < c < g.nsyms ensures GotoOK(g, t, k, ws, c, j + 1, go[c]) {
      assert GotoOK(g, t, k, ws, c, j, go[c]);
    }
  }

  /** The gotos do not depend on the types. */
  lemma GotosSame(g: Grammar, t: Table, t': Table, k: seq<int>, ws: seq<WSet>, go: seq<nat>, j: nat)
    requires g.WellFormed() && t'.states == t.states && t'.la == t.la && GotosSoFar(g, t, k, ws, go, j)
    ensures GotosSoFar(g, t', k, ws, go, j)
  {
    hide HasSymbol, GotoKernel;
    forall c | 0 < c < g.nsyms ensures GotoOK(g, t', k, ws, c, j, go[c]) {
      assert GotoOK(g, t, k, ws, c, j, go[c]);
      if HasSymbol(g, ws, c, j) {
        SamePassed(g, t, t', k, ws, c, go[c]);
      }
    }
  }

  lemma SamePassed(g: Grammar, t: Table, t': Table, k: seq<int>, ws: seq<WSet>, c: int, n: nat)
    requires g.WellFormed() && t'.states == t.states && t'.la == t.la && PassedOn(g, t, k, ws, c, n)
    ensures PassedOn(g, t', k, ws, c, n)
  {
    hide GotoKernel;
    if n > 0 {
      forall m | 0 <= m < |ws| && SymAt(g, ws[m].pitem) == c ensures Arrived(t', n, ws[m].pitem + 1, ws[m].ws) {
        assert Arrived(t, n, ws[m].pitem + 1, ws[m].ws);
      }
    }
  }

  lemma FlagOne(g: Grammar, ws: seq<WSet>, now: seq<WSet>, j: nat)
    requires j < |ws| && Flagged(g, ws, now, j) && SymAt(g, ws[j].pitem) <= 0
    ensures Flagged(g, ws, now[j := now[j].(flag := true)], j + 1)
  {
    SymbolMore(g, ws, j);
  }

  lemma GotosKept(g: Grammar, t: Table, t': Table, b: int, k: seq<int>, ws: seq<WSet>, go: seq<nat>, j: nat)
    requires g.WellFormed() && Evolves(t, t', b) && GotosSoFar(g, t, k, ws, go, j)
    ensures GotosSoFar(g, t', k, ws, go, j)
  {
    hide Evolves, PassedOn, HasSymbol;
    forall c | 0 < c < g.nsyms ensures GotoOK(g, t', k, ws, c, j, go[c]) {
      assert GotoOK(g, t, k, ws, c, j, go[c]);
      if HasSymbol(g, ws, c, j) {
        PassedKept(g, t, t', b, k, ws, c, go[c]);
      }
    }
  }

  /** What the gathered items had is in the state entered. */
  lemma TokensPassed(g: Grammar, t: Table, k: seq<int>, ws: seq<WSet>, c: int, j: nat, cand: seq<Item>,
                     lkst: seq<set<nat>>, lkst': seq<set<nat>>, n: nat)
    requires g.WellFormed() && j < |ws| && Gathered(g, ws, c, j, |ws|, cand, lkst) && lkst <= lkst'
    requires 0 < n < |t.states| && GotoKernel(g, k, c, t.states[n].items)
    requires forall i :: 0 <= i < |cand| ==> cand[i].look < |lkst'| && Arrived(t, n, cand[i].pitem, lkst'[cand[i].look])
    requires forall e :: 0 <= e < j ==> SymAt(g, ws[e].pitem) != c
    ensures PassedOn(g, t, k, ws, c, n)
  {
    hide GotoKernel, Arrived, ComesFrom;
    forall m | 0 <= m < |ws| && SymAt(g, ws[m].pitem) == c ensures Arrived(t, n, ws[m].pitem + 1, ws[m].ws) {
      assert Before(g, ws, c, j, |ws|, m);
      var x :| x in cand && MovedEntry(ws, m, x, lkst);
      var i :| 0 <= i < |cand| && cand[i] == x;
    }
  }

  lemma GotoAdded(g: Grammar, t: Table, t': Table, b: int, k: seq<int>, ws: seq<WSet>, go: seq<nat>, c: int, j: nat, n: nat)
    requires g.WellFormed() && Evolves(t, t', -1) && GotosSoFar(g, t, k, ws, go, j) && j < |ws| && SymAt(g, ws[j].pitem) == c
    requires 0 < c < g.nsyms && n > 0 && PassedOn(g, t', k, ws, c, n)
    ensures GotosSoFar(g, t', k, ws, go[c := n], j + 1)
  {
    GotosKept(g, t, t', -1, k, ws, go, j);
    SymbolMore(g, ws, j);
    hide HasSymbol, PassedOn;
    var go' := go[c := n];
    forall d | 0 < d < g.nsyms ensures GotoOK(g, t', k, ws, d, j + 1, go'[d]) {
      assert GotoOK(g, t', k, ws, d, j, go[d]);
    }
  }

  /** An entry without a flag has a symbol that has not been met. */
  lemma NewSymbol(g: Grammar, ws: seq<WSet>, now: seq<WSet>, c: int, j: nat)
    requires j < |ws| && Flagged(g, ws, now, j) && !now[j].flag && SymAt(g, ws[j].pitem) == c > 0
    ensures !HasSymbol(g, ws, c, j) && forall e :: 0 <= e < j ==> SymAt(g, ws[e].pitem) != c
  {
  }

  /** After the gotos on one symbol. */
  lemma EmitProgress(g: Grammar, t1: Table, t: Table, t': Table, i: nat, k: seq<int>, ws: seq<WSet>, j: nat)
    requires g.WellFormed() && Evolves(t1, t, i) && Progress(g, t1, t, i) && Evolves(t, t', -1) && (More(g, t, t') || t' == t)
    requires i < |t.ty| && j < |ws| && TypeSoFar(g, t.ty[i], k, ws, j) && SymAt(g, ws[j].pitem) > 0
    ensures Evolves(t1, t', i) && Progress(g, t1, t', i) && i < |t'.ty| && TypeSoFar(g, t'.ty[i], k, ws, j + 1)
  {
    EvolvesAny(t, t', i);
    EvolvesTrans(t1, t, t', i);
    TypeKept(g, k, ws, j);
    assert RowEvolves(t, t', i, -1);
  }

  lemma EvolvedRow(t: Table, t': Table, b: int, i: nat)
    requires Evolves(t, t', b) && i < |t.states|
    ensures i < |t'.states| == |t'.la| == |t'.ty| && t'.states[i] == t.states[i]
  {
  }

  lemma FlagSize(g: Grammar, ws: seq<WSet>, now: seq<WSet>, j: nat)
    requires Flagged(g, ws, now, j)
    ensures |now| == |ws|
  {
  }

  lemma GotosSize(g: Grammar, t: Table, k: seq<int>, ws: seq<WSet>, go: seq<nat>, j: nat)
    requires g.WellFormed() && GotosSoFar(g, t, k, ws, go, j)
    ensures |go| == g.nsyms
  {
  }
}
