/** The two parser generators, byacc and eyacc, compared. */
module Generators {
  import opened Grammars
  import opened Closures
  import opened LR0
  import opened GotoMaps
  import opened Lalr
  import opened Propagation
  import opened WorkingSets
  import opened Stagen
  import opened Forcing
  import opened Agreement

  /** The states of the two generators have the same kernels. */
  lemma SameKernels(g: Grammar, a: Automaton, t: Table, k: seq<int>)
    requires IsLR0(g, a) && Complete(g, t)
    ensures (exists q :: 0 <= q < |a.states| && a.states[q].items == k) <==> (exists n :: 0 <= n < |t.states| && t.states[n].items == k)
  {
    StatesAreCanonical(g, t, k);
    if Canonical(g, k) {
      var n: nat :| CanonicalIn(g, k, n);
      var q := KernelState(g, a, k, n);
    }
    forall q | 0 <= q < |a.states| ensures Canonical(g, a.states[q].items) {
      StateCanonical(g, a, q);
    }
  }

  /** In states with the same kernel byacc's row for a reduction and eyacc's set for the
      complete item, after the closure, have the same tokens. */
  lemma SameLookaheads(g: Grammar, a: Automaton, m: GotoMap, nullable: seq<bool>, r: Reductions, la: seq<set<nat>>, q: nat, j: nat,
                       t: Table, n: nat, ws: seq<WSet>, e: nat)
    requires IsLR0(g, a) && CoresOK(g, a.states) && GotoMapOK(g, a, m) && NullTable(g, nullable) && ReductionsNumbered(a, r)
    requires |m.from| == |m.to| && |nullable| == g.nsyms && LeastLookaheads(g, a, m, nullable, r, la) && |la| == |r.ruleno|
    requires NumberOf(r, q, j) && q < |a.states| && j < |la|
    requires Complete(g, t) && n < |t.states| && n < |t.la| && t.states[n].items == a.states[q].items
    requires LeastClosure(g, t.states[n].items, t.la[n], ws) && e < |ws| && ws[e].pitem == EndOf(g, r.ruleno[j])
    ensures la[j] == ws[e].ws
  {
    hide StatesOK, GotoMapOK, NullTable, LeastLookaheads, Complete, LeastClosure, Forced;
    forall tok: nat ensures tok in la[j] <==> tok in ws[e].ws {
      ReductionIsForced(g, a, m, nullable, r, la, q, j, tok);
      ClosureIsForced(g, t, n, ws, e, tok);
    }
  }

  /** And every reduction of byacc's state is such an entry. */
  lemma ReductionHasEntry(g: Grammar, a: Automaton, q: nat, r: nat, t: Table, n: nat, ws: seq<WSet>) returns (e: nat)
    requires IsLR0(g, a) && q < |a.states| && r in a.reductions[q]
    requires Complete(g, t) && n < |t.states| && n < |t.la| && t.states[n].items == a.states[q].items
    requires LeastClosure(g, t.states[n].items, t.la[n], ws)
    ensures e < |ws| && ws[e].pitem == EndOf(g, r)
  {
    StateFacts(g, a, q);
    e := ClosureComplete(g, a.states[q].items, t.la[n], ws, EndOf(g, r));
  }
}
