/** byacc/lalr.c, set_goto_map and map_goto: all transitions on nonterminals, numbered
    symbol by symbol and within a symbol by source state, and the binary search that
    finds the number of a transition. */
module GotoMaps {
  import opened Grammars
  import opened LR0
  import opened Automata

  /** `start[v]..start[v + 1]` are the numbers of the transitions on nonterminal `v`
      (counted from 0); `from` and `to` are their end points. */
  datatype GotoMap = GotoMap(start: seq<nat>, from: seq<nat>, to: seq<nat>)

  // ---------------------------------------------------------------------
  // The number of a transition
  // ---------------------------------------------------------------------

  /** How many states below `q` have a transition on `x`. */
  ghost function Count(a: Automaton, x: int, q: nat): nat
  {
    if q == 0 then 0 else Count(a, x, q - 1) + (if HasGoto(a, q - 1, x) then 1 else 0)
  }

  /** How many transitions there are on nonterminals below number `v`. */
  ghost function Start(g: Grammar, a: Automaton, v: nat): nat
  {
    if v == 0 then 0 else Start(g, a, v - 1) + Count(a, v - 1 + g.start, |a.states|)
  }

  ghost function GotoIndex(g: Grammar, a: Automaton, p: nat, x: int): nat
    requires x >= g.start
  {
    Start(g, a, x - g.start) + Count(a, x, p)
  }

  lemma {:induction false} CountMonotone(a: Automaton, x: int, p: nat, q: nat)
    requires p <= q
    ensures Count(a, x, p) <= Count(a, x, q)
    ensures p < q && HasGoto(a, p, x) ==> Count(a, x, p) < Count(a, x, q)
    decreases q
  {
    if p < q {
      CountMonotone(a, x, p, q - 1);
    }
  }

  lemma {:induction false} StartMonotone(g: Grammar, a: Automaton, u: nat, v: nat)
    requires u < v
    ensures Start(g, a, u) + Count(a, u + g.start, |a.states|) <= Start(g, a, v)
    decreases v
  {
    if u < v - 1 {
      StartMonotone(g, a, u, v - 1);
    }
  }

  /** A number lies in the block of its nonterminal. */
  lemma GotoIndexBounds(g: Grammar, a: Automaton, p: nat, x: int)
    requires g.start <= x < g.nsyms && p < |a.states| && HasGoto(a, p, x)
    ensures Start(g, a, x - g.start) <= GotoIndex(g, a, p, x) < Start(g, a, x - g.start) + Count(a, x, |a.states|)
    ensures Start(g, a, x - g.start + 1) == Start(g, a, x - g.start) + Count(a, x, |a.states|) <= Start(g, a, g.nsyms - g.start)
  {
    CountMonotone(a, x, p, |a.states|);
    StartMonotone(g, a, x - g.start, g.nsyms - g.start);
    assert x - g.start + 1 - 1 + g.start == x;
  }

  /** Different transitions have different numbers, all below the total. */
  lemma GotoIndexInjective(g: Grammar, a: Automaton, p: nat, x: int, q: nat, y: int)
    requires g.start <= x < g.nsyms && g.start <= y < g.nsyms && p < |a.states| && q < |a.states|
    requires HasGoto(a, p, x) && HasGoto(a, q, y)
    ensures GotoIndex(g, a, p, x) == GotoIndex(g, a, q, y) ==> p == q && x == y
    ensures Start(g, a, x - g.start) <= GotoIndex(g, a, p, x) < Start(g, a, x - g.start + 1)
    ensures GotoIndex(g, a, p, x) < Start(g, a, g.nsyms - g.start)
    ensures x == y ==> (GotoIndex(g, a, p, x) < GotoIndex(g, a, q, y) <==> p < q)
  {
    hide HasGoto;
    GotoIndexBounds(g, a, p, x);
    GotoIndexBounds(g, a, q, y);
    hide Count, Start;
    if x < y {
      StartMonotone(g, a, x - g.start, y - g.start);
    } else if y < x {
      StartMonotone(g, a, y - g.start, x - g.start);
    } else if p < q {
      CountMonotone(a, x, p, q);
    } else if q < p {
      CountMonotone(a, x, q, p);
    }
  }

  /** Every number of a block belongs to a transition. */
  lemma {:induction false} CountOnto(a: Automaton, x: int, q: nat, c: nat) returns (p: nat)
    requires c < Count(a, x, q)
    ensures p < q && HasGoto(a, p, x) && Count(a, x, p) == c
    decreases q
  {
    if c < Count(a, x, q - 1) {
      p := CountOnto(a, x, q - 1, c);
    } else {
      p := q - 1;
    }
  }

  lemma {:induction false} StartOnto(g: Grammar, a: Automaton, v: nat, k: nat) returns (u: nat)
    requires k < Start(g, a, v)
    ensures u < v && Start(g, a, u) <= k < Start(g, a, u + 1)
    decreases v
  {
    if k < Start(g, a, v - 1) {
      u := StartOnto(g, a, v - 1, k);
    } else {
      u := v - 1;
    }
  }

  lemma StartBound(g: Grammar, a: Automaton, v: nat)
    requires v <= g.nsyms - g.start
    ensures Start(g, a, v) <= Start(g, a, g.nsyms - g.start)
  {
    if v < g.nsyms - g.start {
      StartMonotone(g, a, v, g.nsyms - g.start);
    }
  }

  // ---------------------------------------------------------------------
  // What the map has to be
  // ---------------------------------------------------------------------

  /** Transition `k` is recorded with its end points. */
  ghost predicate Recorded(g: Grammar, a: Automaton, from: seq<nat>, to: seq<nat>, p: nat, x: int)
    requires x >= g.start && HasGoto(a, p, x)
  {
    var k := GotoIndex(g, a, p, x);
    k < |from| == |to| && from[k] == p && to[k] == Goto(a, p, x)
  }

  ghost predicate GotoMapOK(g: Grammar, a: Automaton, m: GotoMap)
    requires g.WellFormed()
  {
    |m.start| == g.nsyms - g.start + 1 &&
    (forall v :: 0 <= v < |m.start| ==> m.start[v] == Start(g, a, v)) &&
    |m.from| == |m.to| == Start(g, a, g.nsyms - g.start) &&
    forall p, x :: 0 <= p < |a.states| && g.start <= x < g.nsyms && HasGoto(a, p, x) ==> Recorded(g, a, m.from, m.to, p, x)
  }

  /** The transition with number `k`. */
  lemma GotoOfIndex(g: Grammar, a: Automaton, m: GotoMap, k: nat) returns (p: nat, x: int)
    requires g.WellFormed() && GotoMapOK(g, a, m) && k < |m.from|
    ensures p < |a.states| && g.start <= x < g.nsyms && HasGoto(a, p, x)
    ensures GotoIndex(g, a, p, x) == k && m.from[k] == p && m.to[k] == Goto(a, p, x) && a.states[m.to[k]].symbol == x
  {
    var u := StartOnto(g, a, g.nsyms - g.start, k);
    x := u + g.start;
    p := CountOnto(a, x, |a.states|, k - Start(g, a, u));
    assert Recorded(g, a, m.from, m.to, p, x);
  }

  /** Within a block the source states ascend strictly. */
  lemma BlockAscending(g: Grammar, a: Automaton, m: GotoMap, v: nat, k: nat, l: nat)
    requires g.WellFormed() && GotoMapOK(g, a, m) && v < g.nsyms - g.start
    requires m.start[v] <= k < l < m.start[v + 1]
    ensures l < |m.from| && m.from[k] < m.from[l]
    ensures m.to[k] < |a.states| && a.states[m.to[k]].symbol == v + g.start
    ensures m.to[l] < |a.states| && a.states[m.to[l]].symbol == v + g.start
  {
    var x := v + g.start;
    StartBound(g, a, v + 1);
    var p := CountOnto(a, x, |a.states|, k - Start(g, a, v));
    var q := CountOnto(a, x, |a.states|, l - Start(g, a, v));
    assert Recorded(g, a, m.from, m.to, p, x) && Recorded(g, a, m.from, m.to, q, x);
    GotoIndexInjective(g, a, p, x, q, x);
  }

  // ---------------------------------------------------------------------
  // map_goto
  // ---------------------------------------------------------------------

  /** map_goto: the number of the transition from `state` on `symbol`.  The upper bound
      starts one past the block, but the probe never gets there. */
  method MapGoto(g: Grammar, a: Automaton, m: GotoMap, state: nat, symbol: int) returns (k: nat)
    requires g.WellFormed() && GotoMapOK(g, a, m)
    requires state < |a.states| && g.start <= symbol < g.nsyms && HasGoto(a, state, symbol)
    ensures k == GotoIndex(g, a, state, symbol) && k < |m.from|
    ensures m.from[k] == state && m.to[k] == Goto(a, state, symbol)
  {
    ghost var target := GotoIndex(g, a, state, symbol);
    var v := symbol - g.start;
    GotoIndexInjective(g, a, state, symbol, state, symbol);
    StartBound(g, a, v + 1);
    assert Recorded(g, a, m.from, m.to, state, symbol);
    var low := m.start[v];
    var high := m.start[v + 1];
    while true
      invariant m.start[v] <= low <= target <= high <= m.start[v + 1]
      decreases high - low
    {
      var middle := (low + high) / 2;
      assert low <= middle < m.start[v + 1];
      ghost var p, x := GotoOfIndex(g, a, m, middle);
      SameBlock(g, a, m, v, middle, p, x);
      GotoIndexInjective(g, a, p, symbol, state, symbol);
      var s := m.from[middle];
      if s == state {
        return middle;
      } else if s < state {
        low := middle + 1;
      } else {
        high := middle - 1;
      }
    }
  }

  lemma SameBlock(g: Grammar, a: Automaton, m: GotoMap, v: nat, k: nat, p: nat, x: int)
    requires g.WellFormed() && GotoMapOK(g, a, m) && v < g.nsyms - g.start
    requires m.start[v] <= k < m.start[v + 1]
    requires p < |a.states| && g.start <= x < g.nsyms && HasGoto(a, p, x) && GotoIndex(g, a, p, x) == k
    ensures x == v + g.start
  {
    GotoIndexInjective(g, a, p, x, p, x);
    if x - g.start < v {
      if x - g.start + 1 < v { StartMonotone(g, a, x - g.start + 1, v); }
    } else if v < x - g.start {
      if v + 1 < x - g.start { StartMonotone(g, a, v + 1, x - g.start); }
    }
  }

  // ---------------------------------------------------------------------
  // set_goto_map: a counting sort
  // ---------------------------------------------------------------------

  /** The symbol of shift number `i` of state `q`; the shifts are walked from the last
      one down, and everything above this symbol has been dealt with. */
  function SymbolOf(a: Automaton, q: nat, i: int): int {
    if q < |a.shifts| && 0 <= i < |a.shifts[q]| && a.shifts[q][i] < |a.states| then a.states[a.shifts[q][i]].symbol else -1
  }

  /** No transition of `q` lies strictly between neighbouring shifts, above the last or
      below the first. */
  lemma Between(g: Grammar, a: Automaton, q: nat, i: nat, x: int)
    requires IsLR0(g, a) && q < |a.states| && i <= |a.shifts[q]|
    requires i < |a.shifts[q]| ==> x < SymbolOf(a, q, i)
    requires x > SymbolOf(a, q, i - 1)
    ensures !HasGoto(a, q, x)
  {
    if HasGoto(a, q, x) {
      var j: nat :| j < |a.shifts[q]| && a.shifts[q][j] < |a.states| && a.states[a.shifts[q][j]].symbol == x;
      assert SymbolOf(a, q, j) == x;
      if j < i - 1 {
        ShiftsAscend(g, a, q, j, i - 1);
      } else if i < j {
        ShiftsAscend(g, a, q, i, j);
      }
    }
  }

  lemma ShiftsAscend(g: Grammar, a: Automaton, q: nat, i: nat, j: nat)
    requires IsLR0(g, a) && q < |a.states| && i < j < |a.shifts[q]|
    ensures SymbolOf(a, q, i) < SymbolOf(a, q, j)
  {
    StateFacts(g, a, q);
    assert a.states[a.shifts[q][i]].symbol < a.states[a.shifts[q][j]].symbol;
  }

  /** The number of states counted for symbol `x`: `q`, and state `q` too once the walk
      has passed `x`. */
  function Upto(q: nat, x: int, b: int): nat {
    if x > b then q + 1 else q
  }

  ghost predicate CounterOK(a: Automaton, c: nat, base: nat, q: nat, x: int, b: int) {
    c == base + Count(a, x, Upto(q, x, b))
  }

  /** Counters after the walk over state `q` has come down to symbol `b`. */
  ghost predicate Counters(g: Grammar, a: Automaton, c: seq<nat>, base: seq<nat>, q: nat, b: int)
    requires g.WellFormed() && |c| >= g.nsyms - g.start && |base| >= g.nsyms - g.start
  {
    forall v :: 0 <= v < g.nsyms - g.start ==> CounterOK(a, c[v], base[v], q, v + g.start, b)
  }

  /** Beginning with state `q`: nothing lies above its last shift. */
  lemma CountersBegin(g: Grammar, a: Automaton, c: seq<nat>, base: seq<nat>, q: nat)
    requires IsLR0(g, a) && q < |a.states| && |c| >= g.nsyms - g.start && |base| >= g.nsyms - g.start
    requires Counters(g, a, c, base, q, g.nsyms)
    ensures Counters(g, a, c, base, q, SymbolOf(a, q, |a.shifts[q]| - 1))
  {
    var b := SymbolOf(a, q, |a.shifts[q]| - 1);
    forall v | 0 <= v < g.nsyms - g.start ensures CounterOK(a, c[v], base[v], q, v + g.start, b) {
      assert CounterOK(a, c[v], base[v], q, v + g.start, g.nsyms);
      if v + g.start > b {
        Between(g, a, q, |a.shifts[q]|, v + g.start);
      }
    }
  }

  lemma CountersEnd(g: Grammar, a: Automaton, c: seq<nat>, base: seq<nat>, q: nat, b: int)
    requires g.WellFormed() && |c| >= g.nsyms - g.start && |base| >= g.nsyms - g.start
    requires Counters(g, a, c, base, q, b) && b < g.start
    ensures Counters(g, a, c, base, q + 1, g.nsyms)
  {
    forall v | 0 <= v < g.nsyms - g.start ensures CounterOK(a, c[v], base[v], q + 1, v + g.start, g.nsyms) {
      assert CounterOK(a, c[v], base[v], q, v + g.start, b);
    }
  }

  /** Passing shift `i` of state `q`, whose symbol is counted. */
  lemma CountersStep(g: Grammar, a: Automaton, c: seq<nat>, base: seq<nat>, q: nat, i: nat)
    requires IsLR0(g, a) && q < |a.states| && |c| >= g.nsyms - g.start && |base| >= g.nsyms - g.start
    requires i < |a.shifts[q]| && g.start <= SymbolOf(a, q, i) < g.nsyms
    requires Counters(g, a, c, base, q, SymbolOf(a, q, i))
    ensures Counters(g, a, c[SymbolOf(a, q, i) - g.start := c[SymbolOf(a, q, i) - g.start] + 1], base, q, SymbolOf(a, q, i - 1))
  {
    var y, b := SymbolOf(a, q, i), SymbolOf(a, q, i - 1);
    var c' := c[y - g.start := c[y - g.start] + 1];
    SymbolInRange(g, a, q, i);
    if i > 0 {
      ShiftsAscend(g, a, q, i - 1, i);
    }
    forall v | 0 <= v < g.nsyms - g.start ensures CounterOK(a, c'[v], base[v], q, v + g.start, b) {
      assert CounterOK(a, c[v], base[v], q, v + g.start, y);
      CounterStepAt(g, a, c[v], base[v], q, i, v + g.start);
    }
  }

  lemma CounterStepAt(g: Grammar, a: Automaton, c: nat, base: nat, q: nat, i: nat, x: int)
    requires IsLR0(g, a) && q < |a.states| && i < |a.shifts[q]|
    requires SymbolOf(a, q, i - 1) < SymbolOf(a, q, i) && HasGoto(a, q, SymbolOf(a, q, i))
    requires CounterOK(a, c, base, q, x, SymbolOf(a, q, i))
    ensures CounterOK(a, if x == SymbolOf(a, q, i) then c + 1 else c, base, q, x, SymbolOf(a, q, i - 1))
  {
    if SymbolOf(a, q, i - 1) < x < SymbolOf(a, q, i) {
      Between(g, a, q, i, x);
    }
  }

  ghost function Sum(s: seq<nat>): nat {
    if s == [] then 0 else Sum(s[..|s| - 1]) + s[|s| - 1]
  }

  lemma {:induction false} SumStep(s: seq<nat>, v: nat)
    requires v < |s|
    ensures Sum(s[v := s[v] + 1]) == Sum(s) + 1
  {
    var n := |s| - 1;
    if v < n {
      SumStep(s[..n], v);
      assert s[v := s[v] + 1][..n] == s[..n][v := s[v] + 1];
    } else {
      assert s[v := s[v] + 1][..n] == s[..n];
    }
  }

  lemma {:induction false} SumIsStart(g: Grammar, a: Automaton, s: seq<nat>, v: nat)
    requires v <= |s| && forall u :: 0 <= u < v ==> s[u] == Count(a, u + g.start, |a.states|)
    ensures Sum(s[..v]) == Start(g, a, v)
  {
    if v > 0 {
      SumIsStart(g, a, s, v - 1);
      assert s[..v][..v - 1] == s[..v - 1];
    }
  }

  lemma {:induction false} SumZero(s: seq<nat>)
    requires forall v :: 0 <= v < |s| ==> s[v] == 0
    ensures Sum(s) == 0
  {
    if s != [] {
      SumZero(s[..|s| - 1]);
    }
  }

  /** The first loop for one state: count its transitions on nonterminals. */
  method CountState(g: Grammar, a: Automaton, gotoMap: array<nat>, q: nat, ngotos0: nat, ghost zeros: seq<nat>)
    returns (ngotos: nat)
    requires IsLR0(g, a) && q < |a.states| && gotoMap.Length == g.nsyms - g.start + 1 == |zeros|
    requires Counters(g, a, gotoMap[..], zeros, q, g.nsyms)
    requires ngotos0 == Sum(gotoMap[..g.nsyms - g.start])
    modifies gotoMap
    ensures Counters(g, a, gotoMap[..], zeros, q + 1, g.nsyms)
    ensures ngotos == Sum(gotoMap[..g.nsyms - g.start])
  {
    hide Counters, StatesOK;
    ngotos := ngotos0;
    var i := |a.shifts[q]| - 1;
    CountersBegin(g, a, gotoMap[..], zeros, q);
    while i >= 0
      invariant -1 <= i < |a.shifts[q]|
      invariant Counters(g, a, gotoMap[..], zeros, q, SymbolOf(a, q, i))
      invariant ngotos == Sum(gotoMap[..g.nsyms - g.start])
    {
      if !g.IsVar(SymbolOf(a, q, i)) {
        break;
      }
      ngotos := ngotos + 1;
      CountShift(g, a, gotoMap, q, i, zeros);
      i := i - 1;
    }
    CountersEnd(g, a, gotoMap[..], zeros, q, SymbolOf(a, q, i));
  }

  method CountShift(g: Grammar, a: Automaton, gotoMap: array<nat>, q: nat, i: nat, ghost zeros: seq<nat>)
    requires IsLR0(g, a) && q < |a.states| && gotoMap.Length == g.nsyms - g.start + 1 == |zeros|
    requires i < |a.shifts[q]| && g.start <= SymbolOf(a, q, i)
    requires Counters(g, a, gotoMap[..], zeros, q, SymbolOf(a, q, i))
    modifies gotoMap
    ensures Counters(g, a, gotoMap[..], zeros, q, SymbolOf(a, q, i - 1))
    ensures Sum(gotoMap[..g.nsyms - g.start]) == Sum(old(gotoMap[..g.nsyms - g.start])) + 1
  {
    hide Counters, StatesOK;
    SymbolInRange(g, a, q, i);
    CountersStep(g, a, gotoMap[..], zeros, q, i);
    Increment(gotoMap, g.nsyms - g.start, SymbolOf(a, q, i) - g.start);
  }

  method Increment(c: array<nat>, n: nat, v: nat)
    requires v < n <= c.Length
    modifies c
    ensures c[..] == old(c[..])[v := old(c[v]) + 1]
    ensures Sum(c[..n]) == Sum(old(c[..n])) + 1
  {
    SumStep(c[..n], v);
    c[v] := c[v] + 1;
    assert c[..n] == old(c[..n])[v := old(c[v]) + 1];
  }

  lemma SymbolInRange(g: Grammar, a: Automaton, q: nat, i: nat)
    requires IsLR0(g, a) && q < |a.states| && i < |a.shifts[q]|
    ensures 0 < SymbolOf(a, q, i) < g.nsyms && HasGoto(a, q, SymbolOf(a, q, i))
    ensures a.shifts[q][i] == Goto(a, q, SymbolOf(a, q, i))
  {
    GotoIs(g, a, q, i);
    GotoOK(g, a, q, SymbolOf(a, q, i));
  }

  /** What has been recorded when the walk over state `q` has come down to `b`. */
  ghost predicate RecordedUpto(g: Grammar, a: Automaton, from: seq<nat>, to: seq<nat>, q: nat, b: int)
    requires g.WellFormed()
  {
    forall p, x :: 0 <= p && g.start <= x < g.nsyms && HasGoto(a, p, x) && p < Upto(q, x, b) && p < |a.states| ==>
      Recorded(g, a, from, to, p, x)
  }

  lemma RecordedStep(g: Grammar, a: Automaton, from: seq<nat>, to: seq<nat>, q: nat, i: nat)
    requires IsLR0(g, a) && q < |a.states| && i < |a.shifts[q]| && g.start <= SymbolOf(a, q, i) < g.nsyms
    requires |from| == |to| == Start(g, a, g.nsyms - g.start)
    requires RecordedUpto(g, a, from, to, q, SymbolOf(a, q, i))
    ensures GotoIndex(g, a, q, SymbolOf(a, q, i)) < |from|
    ensures var k := GotoIndex(g, a, q, SymbolOf(a, q, i));
      RecordedUpto(g, a, from[k := q], to[k := a.shifts[q][i]], q, SymbolOf(a, q, i - 1))
  {
    var y := SymbolOf(a, q, i);
    SymbolInRange(g, a, q, i);
    GotoIndexInjective(g, a, q, y, q, y);
    var k := GotoIndex(g, a, q, y);
    forall p, x | 0 <= p && g.start <= x < g.nsyms && HasGoto(a, p, x) && p < Upto(q, x, SymbolOf(a, q, i - 1)) && p < |a.states|
      ensures Recorded(g, a, from[k := q], to[k := a.shifts[q][i]], p, x)
    {
      GotoIndexInjective(g, a, p, x, q, y);
      if p == q && SymbolOf(a, q, i - 1) < x < y {
        Between(g, a, q, i, x);
      }
    }
  }

  lemma RecordedBegin(g: Grammar, a: Automaton, from: seq<nat>, to: seq<nat>, q: nat)
    requires IsLR0(g, a) && q < |a.states|
    requires RecordedUpto(g, a, from, to, q, g.nsyms)
    ensures RecordedUpto(g, a, from, to, q, SymbolOf(a, q, |a.shifts[q]| - 1))
  {
    forall x | SymbolOf(a, q, |a.shifts[q]| - 1) < x && g.start <= x ensures !HasGoto(a, q, x) {
      Between(g, a, q, |a.shifts[q]|, x);
    }
  }

  /** The last loop for one state: place its transitions. */
  method PlaceState(g: Grammar, a: Automaton, tempMap: array<nat>, from: array<nat>, to: array<nat>, q: nat, ghost base: seq<nat>)
    requires IsLR0(g, a) && q < |a.states| && tempMap.Length == g.nsyms - g.start + 1 == |base|
    requires tempMap != from && tempMap != to && from != to && BaseOK(g, a, base)
    requires from.Length == to.Length == Start(g, a, g.nsyms - g.start)
    requires Counters(g, a, tempMap[..], base, q, g.nsyms)
    requires RecordedUpto(g, a, from[..], to[..], q, g.nsyms)
    modifies tempMap, from, to
    ensures Counters(g, a, tempMap[..], base, q + 1, g.nsyms)
    ensures RecordedUpto(g, a, from[..], to[..], q + 1, g.nsyms)
  {
    var i := |a.shifts[q]| - 1;
    CountersBegin(g, a, tempMap[..], base, q);
    RecordedBegin(g, a, from[..], to[..], q);
    while i >= 0
      invariant -1 <= i < |a.shifts[q]|
      invariant Counters(g, a, tempMap[..], base, q, SymbolOf(a, q, i))
      invariant RecordedUpto(g, a, from[..], to[..], q, SymbolOf(a, q, i))
    {
      if !g.IsVar(SymbolOf(a, q, i)) {
        break;
      }
      PlaceShift(g, a, tempMap, from, to, q, i, base);
      i := i - 1;
    }
    CountersEnd(g, a, tempMap[..], base, q, SymbolOf(a, q, i));
    RecordedEnd(g, a, from[..], to[..], q, SymbolOf(a, q, i));
  }

  ghost predicate BaseOK(g: Grammar, a: Automaton, base: seq<nat>)
    requires g.WellFormed()
  {
    |base| == g.nsyms - g.start + 1 && forall v :: 0 <= v < |base| ==> base[v] == Start(g, a, v)
  }

  lemma RecordedEnd(g: Grammar, a: Automaton, from: seq<nat>, to: seq<nat>, q: nat, b: int)
    requires g.WellFormed() && RecordedUpto(g, a, from, to, q, b) && b < g.start
    ensures RecordedUpto(g, a, from, to, q + 1, g.nsyms)
  {
  }

  method PlaceShift(g: Grammar, a: Automaton, tempMap: array<nat>, from: array<nat>, to: array<nat>, q: nat, i: nat, ghost base: seq<nat>)
    requires IsLR0(g, a) && q < |a.states| && tempMap.Length == g.nsyms - g.start + 1 == |base|
    requires tempMap != from && tempMap != to && from != to && i < |a.shifts[q]| && BaseOK(g, a, base)
    requires from.Length == to.Length == Start(g, a, g.nsyms - g.start)
    requires g.start <= SymbolOf(a, q, i)
    requires Counters(g, a, tempMap[..], base, q, SymbolOf(a, q, i))
    requires RecordedUpto(g, a, from[..], to[..], q, SymbolOf(a, q, i))
    modifies tempMap, from, to
    ensures Counters(g, a, tempMap[..], base, q, SymbolOf(a, q, i - 1))
    ensures RecordedUpto(g, a, from[..], to[..], q, SymbolOf(a, q, i - 1))
  {
    SymbolInRange(g, a, q, i);
    CountersStep(g, a, tempMap[..], base, q, i);
    RecordedStep(g, a, from[..], to[..], q, i);
    ghost var t, f, o := tempMap[..], from[..], to[..];
    var v := SymbolOf(a, q, i) - g.start;
    var k := tempMap[v];
    assert CounterOK(a, t[v], base[v], q, v + g.start, v + g.start);
    assert k == t[v] == GotoIndex(g, a, q, SymbolOf(a, q, i));
    tempMap[v] := k + 1;
    from[k] := q;
    to[k] := a.shifts[q][i];
    assert tempMap[..] == t[v := t[v] + 1];
    assert from[..] == f[k := q] && to[..] == o[k := a.shifts[q][i]];
  }

  method SetGotoMap(g: Grammar, a: Automaton) returns (m: GotoMap)
    requires IsLR0(g, a)
    ensures GotoMapOK(g, a, m)
  {
    var gotoMap, ngotos := CountAll(g, a);
    var tempMap := PrefixSums(g, a, gotoMap, ngotos);
    m := PlaceAll(g, a, gotoMap, tempMap, ngotos);
  }

  /** The counting loop of set_goto_map. */
  method CountAll(g: Grammar, a: Automaton) returns (gotoMap: array<nat>, ngotos: nat)
    requires IsLR0(g, a)
    ensures fresh(gotoMap) && gotoMap.Length == g.nsyms - g.start + 1 && ngotos == Start(g, a, g.nsyms - g.start)
    ensures forall v :: 0 <= v < g.nsyms - g.start ==> gotoMap[v] == Count(a, v + g.start, |a.states|)
  {
    var nvars := g.nsyms - g.start;
    gotoMap := new nat[nvars + 1](_ => 0);
    ghost var zeros := gotoMap[..];
    ngotos := 0;
    SumZero(gotoMap[..nvars]);
    for q := 0 to |a.states|
      invariant Counters(g, a, gotoMap[..], zeros, q, g.nsyms)
      invariant ngotos == Sum(gotoMap[..nvars])
    {
      ngotos := CountState(g, a, gotoMap, q, ngotos, zeros);
    }
    forall v | 0 <= v < nvars ensures gotoMap[v] == Count(a, v + g.start, |a.states|) {
      assert CounterOK(a, gotoMap[..][v], zeros[v], |a.states|, v + g.start, g.nsyms);
    }
    SumIsStart(g, a, gotoMap[..nvars], nvars);
    assert gotoMap[..nvars][..nvars] == gotoMap[..nvars];
  }

  /** The middle loops of set_goto_map turn counts into first positions. */
  method PrefixSums(g: Grammar, a: Automaton, gotoMap: array<nat>, ngotos: nat) returns (tempMap: array<nat>)
    requires IsLR0(g, a) && gotoMap.Length == g.nsyms - g.start + 1 && ngotos == Start(g, a, g.nsyms - g.start)
    requires forall v :: 0 <= v < g.nsyms - g.start ==> gotoMap[v] == Count(a, v + g.start, |a.states|)
    modifies gotoMap
    ensures fresh(tempMap) && BaseOK(g, a, gotoMap[..]) && BaseOK(g, a, tempMap[..])
  {
    var nvars := g.nsyms - g.start;
    tempMap := new nat[nvars + 1](_ => 0);
    ghost var starts := Starts(g, a, nvars + 1);
    StartsAddUp(g, a, gotoMap[..], nvars);
    AddUp(gotoMap, tempMap, nvars, starts);
    CopyBack(gotoMap, tempMap, nvars);
    gotoMap[nvars] := ngotos;
    tempMap[nvars] := ngotos;
    assert tempMap[..] == starts && gotoMap[..] == starts;
  }

  ghost function Starts(g: Grammar, a: Automaton, n: nat): seq<nat> {
    seq(n, v requires 0 <= v => Start(g, a, v))
  }

  ghost predicate PartialSums(counts: seq<nat>, starts: seq<nat>, n: nat)
    requires n <= |counts|
  {
    |starts| == n + 1 && starts[0] == 0 &&
    forall v :: 0 <= v < n ==> starts[v + 1] == starts[v] + counts[v]
  }

  lemma StartsAddUp(g: Grammar, a: Automaton, counts: seq<nat>, n: nat)
    requires n <= |counts| && forall v :: 0 <= v < n ==> counts[v] == Count(a, v + g.start, |a.states|)
    ensures PartialSums(counts, Starts(g, a, n + 1), n)
  {
  }

  method AddUp(counts: array<nat>, tempMap: array<nat>, n: nat, ghost starts: seq<nat>)
    requires n < counts.Length == tempMap.Length && counts != tempMap && PartialSums(counts[..], starts, n)
    modifies tempMap
    ensures tempMap[..n] == starts[..n]
  {
    var k: nat := 0;
    for i := 0 to n
      invariant k == starts[i]
      invariant tempMap[..i] == starts[..i]
    {
      tempMap[i] := k;
      assert counts[i] == counts[..][i];
      k := k + counts[i];
    }
  }

  method CopyBack(dst: array<nat>, src: array<nat>, n: nat)
    requires n < dst.Length == src.Length && dst != src
    modifies dst
    ensures dst[..n] == src[..n]
  {
    for i := 0 to n
      invariant dst[..i] == src[..i]
    {
      dst[i] := src[i];
    }
  }

  /** The last loop of set_goto_map. */
  method PlaceAll(g: Grammar, a: Automaton, gotoMap: array<nat>, tempMap: array<nat>, ngotos: nat) returns (m: GotoMap)
    requires IsLR0(g, a) && gotoMap != tempMap && ngotos == Start(g, a, g.nsyms - g.start)
    requires BaseOK(g, a, gotoMap[..]) && BaseOK(g, a, tempMap[..])
    modifies tempMap
    ensures GotoMapOK(g, a, m)
  {
    var from := new nat[ngotos](_ => 0);
    var to := new nat[ngotos](_ => 0);
    ghost var base := gotoMap[..];
    for q := 0 to |a.states|
      invariant fresh(from) && fresh(to) && gotoMap[..] == base
      invariant Counters(g, a, tempMap[..], base, q, g.nsyms)
      invariant RecordedUpto(g, a, from[..], to[..], q, g.nsyms)
    {
      PlaceState(g, a, tempMap, from, to, q, base);
    }
    m := GotoMap(gotoMap[..], from[..], to[..]);
    AllRecorded(g, a, m);
  }

  lemma AllRecorded(g: Grammar, a: Automaton, m: GotoMap)
    requires g.WellFormed() && BaseOK(g, a, m.start) && |m.from| == |m.to| == Start(g, a, g.nsyms - g.start)
    requires RecordedUpto(g, a, m.from, m.to, |a.states|, g.nsyms)
    ensures GotoMapOK(g, a, m)
  {
    forall p, x | 0 <= p < |a.states| && g.start <= x < g.nsyms && HasGoto(a, p, x) ensures Recorded(g, a, m.from, m.to, p, x) {
      assert p < Upto(|a.states|, x, g.nsyms);
    }
  }
}
