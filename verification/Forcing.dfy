/** What the tables of stagen mean when no state awaits generation: the states are the
    canonical collection, and a token is in the lookahead set of an item exactly when
    every way of spreading lookaheads puts it there. */
module Forcing {
  import opened Grammars
  import opened Closures
  import opened LR0
  import opened Firsts
  import opened Propagation
  import opened Eyacc
  import opened WorkingSets
  import opened Stagen

  /** What stagen leaves behind. */
  ghost predicate Complete(g: Grammar, t: Table)
    requires g.WellFormed()
  {
    Shape(g, t) && Low(g, t) && forall q :: 0 <= q < |t.states| ==> Finished(g, t, q)
  }

  // ---------------------------------------------------------------------
  // The least closure is unique
  // ---------------------------------------------------------------------

  /** The set of item `x` in the working set. */
  ghost function SetAt(ws: seq<WSet>, x: int): set<nat> {
    if exists e :: 0 <= e < |ws| && ws[e].pitem == x then
      var e :| 0 <= e < |ws| && ws[e].pitem == x; ws[e].ws
    else {}
  }

  lemma SetAtEntry(ws: seq<WSet>, e: nat)
    requires NoDoubles(ws) && e < |ws|
    ensures SetAt(ws, ws[e].pitem) == ws[e].ws
  {
    assert ws[e].pitem == ws[e].pitem;
  }

  ghost function SetsAt(ws: seq<WSet>): int -> set<nat> {
    x => SetAt(ws, x)
  }

  lemma ClosureNoDoubles(g: Grammar, k: seq<int>, looks: seq<set<nat>>, ws: seq<WSet>)
    requires g.WellFormed() && LeastClosure(g, k, looks, ws)
    ensures NoDoubles(ws) && |k| == |looks| <= |ws|
    ensures forall i :: 0 <= i < |k| ==> ws[i].pitem == k[i] && ws[i].ws == looks[i]
    ensures forall e :: 0 <= e < |ws| ==> InClosure(g, k, ws[e].pitem) && Served(g, ws, e)
    ensures forall e, t :: 0 <= e < |ws| && t in ws[e].ws ==> t < g.start
  {
  }

  /** A closure solves the inclusions that it is the least solution of. */
  lemma ClosureSolves(g: Grammar, k: seq<int>, looks: seq<set<nat>>, ws: seq<WSet>)
    requires g.WellFormed() && LeastClosure(g, k, looks, ws)
    ensures LocalSolution(g, k, looks, SetsAt(ws))
  {
    ClosureNoDoubles(g, k, looks, ws);
    hide Contribution, LeastClosure, InClosure, SetAt, CallsFor;
    var m := SetsAt(ws);
    forall i | 0 <= i < |k| ensures looks[i] <= m(k[i]) {
      SetAtEntry(ws, i);
    }
    forall x, r | InClosure(g, k, x) && CallsFor(g, x, r) ensures Contribution(g, x, m(x)) <= m(g.rrhs[r]) {
      ServedAt(g, k, looks, ws, x, r);
    }
  }

  lemma ServedAt(g: Grammar, k: seq<int>, looks: seq<set<nat>>, ws: seq<WSet>, x: int, r: int)
    requires g.WellFormed() && LeastClosure(g, k, looks, ws) && InClosure(g, k, x) && CallsFor(g, x, r)
    ensures Contribution(g, x, SetAt(ws, x)) <= SetAt(ws, g.rrhs[r])
  {
    ClosureNoDoubles(g, k, looks, ws);
    var e := ClosureComplete(g, k, looks, ws, x);
    hide Contribution, LeastClosure, InClosure, SetAt;
    SetAtEntry(ws, e);
    assert Has(ws, g.rrhs[r], Contribution(g, ws[e].pitem, ws[e].ws));
    var n :| 0 <= n < |ws| && ws[n].pitem == g.rrhs[r] && Contribution(g, x, ws[e].ws) <= ws[n].ws;
    SetAtEntry(ws, n);
  }

  lemma ClosureUnique(g: Grammar, k: seq<int>, looks: seq<set<nat>>, ws: seq<WSet>, ws': seq<WSet>, e: nat)
    requires g.WellFormed() && LeastClosure(g, k, looks, ws) && LeastClosure(g, k, looks, ws') && e < |ws|
    ensures ws[e].ws <= SetAt(ws', ws[e].pitem)
  {
    ClosureSolves(g, k, looks, ws');
    hide Entries, Served, LocalSolution;
    assert Below(ws, SetsAt(ws'));
  }

  // ---------------------------------------------------------------------
  // The states are the canonical collection
  // ---------------------------------------------------------------------

  lemma Settles(g: Grammar, t: Table, q: nat) returns (ws: seq<WSet>)
    requires g.WellFormed() && Complete(g, t) && q < |t.states|
    ensures |t.la| == |t.gotos| == |t.states| && Canonical(g, t.states[q].items)
    ensures LeastClosure(g, t.states[q].items, t.la[q], ws) && AllPassed(g, t, t.states[q].items, ws, t.gotos[q])
  {
    hide LeastClosure, AllPassed, CoresOK, Low, CompleteOutside, Canonical;
    assert RowOK(g, t.states[q].items, t.la[q]);
    assert Finished(g, t, q);
    ws :| LeastClosure(g, t.states[q].items, t.la[q], ws) && AllPassed(g, t, t.states[q].items, ws, t.gotos[q]);
  }

  /** The state entered over the symbol after the dot of an item. */
  lemma StateEntered(g: Grammar, t: Table, q: nat, ws: seq<WSet>, e: nat, k: seq<int>) returns (n: nat)
    requires g.WellFormed() && Complete(g, t) && q < |t.states| == |t.la| == |t.gotos|
    requires LeastClosure(g, t.states[q].items, t.la[q], ws) && AllPassed(g, t, t.states[q].items, ws, t.gotos[q])
    requires e < |ws| && SymAt(g, ws[e].pitem) > 0 && GotoKernel(g, t.states[q].items, SymAt(g, ws[e].pitem), k)
    ensures n < |t.states| && t.states[n].items == k && Arrived(t, n, ws[e].pitem + 1, ws[e].ws)
  {
    var c := SymAt(g, ws[e].pitem);
    EntrySymbol(g, t.states[q].items, t.la[q], ws, e);
    hide GotoKernel, Complete, LeastClosure, Arrived;
    n := t.gotos[q][c];
    assert PassedOn(g, t, t.states[q].items, ws, c, n);
    GotoUnique(g, t.states[q].items, c, t.states[n].items, k);
  }

  /** Every kernel of the canonical collection belongs to a state. */
  lemma {:induction false} CanonicalState(g: Grammar, t: Table, k: seq<int>, n: nat) returns (q: nat)
    requires g.WellFormed() && Complete(g, t) && CanonicalIn(g, k, n)
    ensures q < |t.states| && t.states[q].items == k
    decreases n
  {
    if n == 0 {
      q := 0;
    } else {
      var p: seq<int>, x: int :| CanonicalIn(g, p, n - 1) && x > 0 && GotoKernel(g, p, x, k);
      var s := CanonicalState(g, t, p, n - 1);
      var ws := Settles(g, t, s);
      hide Complete, LeastClosure, AllPassed, InClosure;
      assert k[0] in k;
      assert MovedOver(g, p, x, k[0]);
      var e := ClosureComplete(g, p, t.la[s], ws, k[0] - 1);
      q := StateEntered(g, t, s, ws, e, k);
    }
  }

  lemma StatesAreCanonical(g: Grammar, t: Table, k: seq<int>)
    requires g.WellFormed() && Complete(g, t)
    ensures Canonical(g, k) <==> exists q :: 0 <= q < |t.states| && t.states[q].items == k
  {
    if Canonical(g, k) {
      var n: nat :| CanonicalIn(g, k, n);
      var q := CanonicalState(g, t, k, n);
    }
    forall q | 0 <= q < |t.states| ensures Canonical(g, t.states[q].items) {
      var ws := Settles(g, t, q);
    }
  }

  // ---------------------------------------------------------------------
  // The sets that were computed spread
  // ---------------------------------------------------------------------

  /** Token `tok` was computed for item `x` of the state with kernel `k`. */
  ghost predicate Computed(g: Grammar, t: Table, k: seq<int>, x: int, tok: nat)
    requires g.WellFormed()
  {
    exists q: nat, ws :: q < |t.states| && q < |t.la| && t.states[q].items == k && LeastClosure(g, k, t.la[q], ws) && tok in SetAt(ws, x)
  }

  ghost function Made(g: Grammar, t: Table): (m: Assignment)
    requires g.WellFormed()
    ensures forall k, x, tok: nat :: tok in m(k, x) <==> tok < g.start && Computed(g, t, k, x, tok)
  {
    (k: seq<int>, x: int) requires g.WellFormed() => set tok: nat | tok < g.start && Computed(g, t, k, x, tok)
  }

  /** A computed token is in the closure that any look at the state gives. */
  lemma ComputedAt(g: Grammar, t: Table, q: nat, ws: seq<WSet>, x: int, tok: nat)
    requires g.WellFormed() && Complete(g, t) && q < |t.states| && q < |t.la| && LeastClosure(g, t.states[q].items, t.la[q], ws)
    ensures Computed(g, t, t.states[q].items, x, tok) <==> tok in SetAt(ws, x)
  {
    hide LeastClosure, SetAt, Low, Finished, RowOK;
    if Computed(g, t, t.states[q].items, x, tok) {
      var p: nat, ws' :| p < |t.states| && p < |t.la| && t.states[p].items == t.states[q].items &&
        LeastClosure(g, t.states[q].items, t.la[p], ws') && tok in SetAt(ws', x);
      assert p == q;
      SameToken(g, t.states[q].items, t.la[q], ws', ws, x, tok);
    }
  }

  lemma SameToken(g: Grammar, k: seq<int>, looks: seq<set<nat>>, ws: seq<WSet>, ws': seq<WSet>, x: int, tok: nat)
    requires g.WellFormed() && LeastClosure(g, k, looks, ws) && LeastClosure(g, k, looks, ws') && tok in SetAt(ws, x)
    ensures tok in SetAt(ws', x)
  {
    hide LeastClosure;
    var e :| 0 <= e < |ws| && ws[e].pitem == x;
    ClosureNoDoubles(g, k, looks, ws);
    SetAtEntry(ws, e);
    ClosureUnique(g, k, looks, ws, ws', e);
  }

  /** What was computed spreads within closures. */
  lemma MadeLocal(g: Grammar, t: Table, k: seq<int>)
    requires g.WellFormed() && Complete(g, t) && Canonical(g, k)
    ensures LocalClosed(g, k, Part(Made(g, t), k))
  {
    var n: nat :| CanonicalIn(g, k, n);
    var q := CanonicalState(g, t, k, n);
    var ws := Settles(g, t, q);
    hide Complete, LeastClosure, InClosure, SetAt, CallsFor, Computed, AllPassed, Made;
    var m := Part(Made(g, t), k);
    forall x ensures m(x) == SetAt(ws, x) {
      MadeIs(g, t, q, ws, x);
    }
    forall x, r | InClosure(g, k, x) && CallsFor(g, x, r) ensures Contribution(g, x, m(x)) <= m(g.rrhs[r]) {
      ServedAt(g, k, t.la[q], ws, x, r);
    }
  }

  lemma MadeIs(g: Grammar, t: Table, q: nat, ws: seq<WSet>, x: int)
    requires g.WellFormed() && Complete(g, t) && q < |t.states| && q < |t.la| && LeastClosure(g, t.states[q].items, t.la[q], ws)
    ensures Made(g, t)(t.states[q].items, x) == SetAt(ws, x)
  {
    hide Complete, Computed;
    ClosureNoDoubles(g, t.states[q].items, t.la[q], ws);
    hide LeastClosure;
    forall tok: nat ensures tok in Made(g, t)(t.states[q].items, x) <==> tok in SetAt(ws, x) {
      ComputedAt(g, t, q, ws, x, tok);
    }
  }

  /** And along transitions. */
  lemma MadeMoves(g: Grammar, t: Table, k: seq<int>, x: int, k': seq<int>)
    requires g.WellFormed() && Complete(g, t) && Canonical(g, k) && Moves(g, k, x, k')
    ensures Made(g, t)(k, x) <= Made(g, t)(k', x + 1)
  {
    hide Complete, LeastClosure, InClosure, SetAt, Computed, AllPassed, Made, GotoKernel, CanonicalIn, Served;
    var n: nat :| CanonicalIn(g, k, n);
    var q := CanonicalState(g, t, k, n);
    var ws := Settles(g, t, q);
    var e := ClosureComplete(g, k, t.la[q], ws, x);
    var p := StateEntered(g, t, q, ws, e, k');
    var ws' := Settles(g, t, p);
    ClosureNoDoubles(g, k, t.la[q], ws);
    ClosureNoDoubles(g, k', t.la[p], ws');
    MadeIs(g, t, q, ws, x);
    MadeIs(g, t, p, ws', x + 1);
    SetAtEntry(ws, e);
    var i :| 0 <= i < |k'| && i < |t.la[p]| && k'[i] == x + 1 && ws[e].ws <= t.la[p][i];
    SetAtEntry(ws', i);
  }

  lemma MadeSpreads(g: Grammar, t: Table)
    requires g.WellFormed() && Complete(g, t)
    ensures Spreads(g, Made(g, t))
  {
    hide Complete, LocalClosed, Moves, Canonical, Made;
    forall k | Canonical(g, k) ensures SpreadsFrom(g, Made(g, t), k) {
      MadeLocal(g, t, k);
      forall x, k' | Moves(g, k, x, k') ensures Made(g, t)(k, x) <= Made(g, t)(k', x + 1) {
        MadeMoves(g, t, k, x, k');
      }
    }
  }

  // ---------------------------------------------------------------------
  // The lookahead sets are exactly what is forced
  // ---------------------------------------------------------------------

  /** In the closure of every state each item has exactly the forced lookaheads. */
  lemma ClosureIsForced(g: Grammar, t: Table, q: nat, ws: seq<WSet>, e: nat, tok: nat)
    requires g.WellFormed() && Complete(g, t) && q < |t.states| && q < |t.la| && LeastClosure(g, t.states[q].items, t.la[q], ws)
    requires e < |ws|
    ensures tok in ws[e].ws <==> Forced(g, t.states[q].items, ws[e].pitem, tok)
  {
    var k, x := t.states[q].items, ws[e].pitem;
    ClosureLow(g, t, q, ws);
    MadeSpreads(g, t);
    ClosureNoDoubles(g, k, t.la[q], ws);
    SetAtEntry(ws, e);
    MadeIs(g, t, q, ws, x);
    hide Complete, LeastClosure, Spreads, Made, SetAt, InClosure;
    if Forced(g, k, x, tok) {
      assert tok in Made(g, t)(k, x);
    }
  }

  /** So has every kernel item. */
  lemma LookaheadIsForced(g: Grammar, t: Table, q: nat, i: nat, tok: nat)
    requires g.WellFormed() && Complete(g, t) && q < |t.states| && i < |t.states[q].items|
    ensures q < |t.la| && i < |t.la[q]| && (tok in t.la[q][i] <==> Forced(g, t.states[q].items, t.states[q].items[i], tok))
  {
    var ws := Settles(g, t, q);
    hide Complete, Forced, LeastClosure;
    ClosureNoDoubles(g, t.states[q].items, t.la[q], ws);
    ClosureIsForced(g, t, q, ws, i, tok);
  }

  /** Item `x` of the closure with everything before symbol `c` is in the state entered. */
  lemma ItemMoved(g: Grammar, t: Table, q: nat, ws: seq<WSet>, e: nat) returns (n: nat, i: nat)
    requires g.WellFormed() && Complete(g, t) && q < |t.states| && q < |t.la| && LeastClosure(g, t.states[q].items, t.la[q], ws)
    requires e < |ws| && SymAt(g, ws[e].pitem) > 0
    ensures n < |t.states| && GotoKernel(g, t.states[q].items, SymAt(g, ws[e].pitem), t.states[n].items)
    ensures i < |t.states[n].items| && n < |t.la| && i < |t.la[n]| && t.states[n].items[i] == ws[e].pitem + 1 && ws[e].ws <= t.la[n][i]
  {
    var k, c := t.states[q].items, SymAt(g, ws[e].pitem);
    var ws' := Settles(g, t, q);
    EntrySymbol(g, k, t.la[q], ws, e);
    ClosureNoDoubles(g, k, t.la[q], ws);
    ClosureNoDoubles(g, k, t.la[q], ws');
    var e' := ClosureComplete(g, k, t.la[q], ws', ws[e].pitem);
    ClosureUnique(g, k, t.la[q], ws, ws', e);
    SetAtEntry(ws', e');
    hide Complete, LeastClosure, SetAt, InClosure, GotoKernel;
    n := t.gotos[q][c];
    assert PassedOn(g, t, k, ws', c, n);
    assert Arrived(t, n, ws'[e'].pitem + 1, ws'[e'].ws);
    i :| 0 <= i < |t.states[n].items| && i < |t.la[n]| && t.states[n].items[i] == ws'[e'].pitem + 1 && ws'[e'].ws <= t.la[n][i];
  }

  /** cempty, cpfir and stagen: for every grammar the states generated are the canonical
      collection with exactly the forced lookaheads. */
  method GenerateStates(g: Grammar, pres: seq<seq<nat>>) returns (gen: Generator)
    requires g.WellFormed() && DerivesTable(g, pres)
    ensures gen.Valid() && gen.g == g && Complete(g, gen.View())
  {
    var pempty := CEmpty(g);
    var pfirst := CpFir(g, pempty[..], pres);
    var work := new WorkingSet(g, pempty[..], pfirst, pres);
    gen := new Generator(work);
    gen.Run();
  }
}
