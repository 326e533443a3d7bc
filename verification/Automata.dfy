/** Moving through the LR(0) collection: transitions, paths, and the items that a path
    guarantees.  This is what lalr.c, output.c and the parser rely on. */
module Automata {
  import opened Grammars
  import opened Closures
  import opened LR0

  ghost predicate HasGoto(a: Automaton, q: nat, x: int)
  {
    q < |a.shifts| &&
    exists i :: 0 <= i < |a.shifts[q]| && a.shifts[q][i] < |a.states| && a.states[a.shifts[q][i]].symbol == x
  }

  /** The state entered from `q` on `x`. */
  ghost function Goto(a: Automaton, q: nat, x: int): (t: nat)
    requires HasGoto(a, q, x)
    ensures t < |a.states| && a.states[t].symbol == x && t in a.shifts[q]
  {
    var i :| 0 <= i < |a.shifts[q]| && a.shifts[q][i] < |a.states| && a.states[a.shifts[q][i]].symbol == x;
    a.shifts[q][i]
  }

  lemma GotoIs(g: Grammar, a: Automaton, q: nat, i: nat)
    requires IsLR0(g, a) && q < |a.states| && i < |a.shifts[q]|
    ensures 0 < a.shifts[q][i] < |a.states| && a.states[a.shifts[q][i]].symbol > 0
    ensures HasGoto(a, q, a.states[a.shifts[q][i]].symbol) && Goto(a, q, a.states[a.shifts[q][i]].symbol) == a.shifts[q][i]
  {
    StateFacts(g, a, q);
    var x := a.states[a.shifts[q][i]].symbol;
    assert HasGoto(a, q, x);
    var j :| 0 <= j < |a.shifts[q]| && a.shifts[q][j] == Goto(a, q, x);
    assert a.states[Goto(a, q, x)].symbol == x;
    assert a.states[a.shifts[q][j]].symbol == x;
  }

  lemma GotoOK(g: Grammar, a: Automaton, q: nat, x: int)
    requires IsLR0(g, a) && q < |a.states| && HasGoto(a, q, x)
    ensures Kernel(g, a.states[q].items) && 0 < Goto(a, q, x) && 0 < x < g.nsyms && x != g.start
    ensures GotoKernel(g, a.states[q].items, x, a.states[Goto(a, q, x)].items)
  {
    StateFacts(g, a, q);
    var t := Goto(a, q, x);
    var i :| 0 <= i < |a.shifts[q]| && a.shifts[q][i] == t;
    var k := a.states[t].items;
    assert k[0] in k;
    assert MovedOver(g, a.states[q].items, x, k[0]);
    var r := ItemExists(g, k[0] - 1, g.nrules);
    ItemSymbol(g, k[0] - 1, r);
  }

  /** The states have valid kernels. */
  lemma KernelOK(g: Grammar, a: Automaton, q: nat)
    requires IsLR0(g, a) && q < |a.states|
    ensures Kernel(g, a.states[q].items) && a.states[q].items != []
  {
    StateFacts(g, a, q);
  }

  /** An item with `x` after the dot has a transition on `x`. */
  lemma ItemGivesGoto(g: Grammar, a: Automaton, q: nat, i: int)
    requires IsLR0(g, a) && q < |a.states| && IsItem(g, i)
    requires InClosure(g, a.states[q].items, i) && g.ritem[i] > 0
    ensures HasGoto(a, q, g.ritem[i]) && i + 1 in a.states[Goto(a, q, g.ritem[i])].items
  {
    var x, k := g.ritem[i], a.states[q].items;
    StateFacts(g, a, q);
    assert MovedOver(g, k, x, i + 1);
    assert Shiftable(g, k, x);
    var j :| 0 <= j < |a.shifts[q]| && a.states[a.shifts[q][j]].symbol == x;
    GotoIs(g, a, q, j);
    GotoOK(g, a, q, x);
  }

  /** A transition on `x` comes from an item with `x` after the dot. */
  lemma GotoGivesItem(g: Grammar, a: Automaton, q: nat, x: int) returns (i: int)
    requires IsLR0(g, a) && q < |a.states| && HasGoto(a, q, x)
    ensures Kernel(g, a.states[q].items) && IsItem(g, i) && InClosure(g, a.states[q].items, i) && g.ritem[i] == x
  {
    GotoOK(g, a, q, x);
    var k := a.states[Goto(a, q, x)].items;
    assert k[0] in k;
    assert MovedOver(g, a.states[q].items, x, k[0]);
    i := k[0] - 1;
  }

  // ---------------------------------------------------------------------
  // Paths
  // ---------------------------------------------------------------------

  /** The symbols `w` can be followed one after another from `q`. */
  ghost predicate CanRun(a: Automaton, q: nat, w: seq<int>)
    decreases |w|, 0
  {
    w == [] || (CanRun(a, q, w[..|w| - 1]) && HasGoto(a, Run(a, q, w[..|w| - 1]), w[|w| - 1]))
  }

  /** The state reached from `q` over `w`. */
  ghost function Run(a: Automaton, q: nat, w: seq<int>): nat
    requires CanRun(a, q, w)
    decreases |w|, 1
  {
    if w == [] then q else Goto(a, Run(a, q, w[..|w| - 1]), w[|w| - 1])
  }

  lemma RunStep(a: Automaton, q: nat, w: seq<int>, x: int)
    requires CanRun(a, q, w) && HasGoto(a, Run(a, q, w), x)
    ensures CanRun(a, q, w + [x]) && Run(a, q, w + [x]) == Goto(a, Run(a, q, w), x)
  {
    assert (w + [x])[..|w|] == w;
  }

  lemma {:induction false} RunInRange(g: Grammar, a: Automaton, q: nat, w: seq<int>)
    requires IsLR0(g, a) && q < |a.states| && CanRun(a, q, w)
    ensures Run(a, q, w) < |a.states|
    decreases |w|
  {
  }

  lemma {:induction false} RunJoin(a: Automaton, q: nat, u: seq<int>, v: seq<int>)
    requires CanRun(a, q, u) && CanRun(a, Run(a, q, u), v)
    ensures CanRun(a, q, u + v) && Run(a, q, u + v) == Run(a, Run(a, q, u), v)
    decreases |v|
  {
    if v == [] {
      assert u + v == u;
    } else {
      var v' := v[..|v| - 1];
      RunJoin(a, q, u, v');
      assert u + v == (u + v') + [v[|v| - 1]];
      RunStep(a, q, u + v', v[|v| - 1]);
    }
  }

  // ---------------------------------------------------------------------
  // Following a rule
  // ---------------------------------------------------------------------

  /** From a state whose closure starts rule `r`, the first `d` symbols of the rule can
      be followed, and the closure of the state reached has the item with the dot
      after them. */
  lemma {:induction false} FollowRule(g: Grammar, a: Automaton, q: nat, r: nat, d: nat)
    requires IsLR0(g, a) && q < |a.states| && 2 < r < g.nrules && d <= |g.Rhs(r)|
    requires InClosure(g, a.states[q].items, g.rrhs[r])
    ensures CanRun(a, q, g.Rhs(r)[..d]) && Run(a, q, g.Rhs(r)[..d]) < |a.states|
    ensures InClosure(g, a.states[Run(a, q, g.Rhs(r)[..d])].items, g.rrhs[r] + d)
  {
    var rhs := g.Rhs(r);
    g.GetRule(r);
    if d > 0 {
      FollowRule(g, a, q, r, d - 1);
      var p := Run(a, q, rhs[..d - 1]);
      var i := g.rrhs[r] + (d - 1);
      assert g.ritem[i] == rhs[d - 1];
      KernelOK(g, a, p);
      ItemGivesGoto(g, a, p, i);
      assert rhs[..d] == rhs[..d - 1] + [rhs[d - 1]];
      RunStep(a, q, rhs[..d - 1], rhs[d - 1]);
    }
  }

  /** A state with a transition on a nonterminal starts all its rules. */
  lemma RulesOfGoto(g: Grammar, a: Automaton, q: nat, r: nat)
    requires IsLR0(g, a) && q < |a.states| && 2 <= r < g.nrules && HasGoto(a, q, g.rlhs[r])
    ensures Kernel(g, a.states[q].items) && InClosure(g, a.states[q].items, g.rrhs[r]) && r > 2
  {
    var i := GotoGivesItem(g, a, q, g.rlhs[r]);
    GotoOK(g, a, q, g.rlhs[r]);
    ClosureExpands(g, a.states[q].items, i, r);
  }

  /** Following a whole rule of a nonterminal with a transition ends in a state that
      can reduce by the rule. */
  lemma FollowToReduction(g: Grammar, a: Automaton, q: nat, r: nat)
    requires IsLR0(g, a) && q < |a.states| && 2 <= r < g.nrules && HasGoto(a, q, g.rlhs[r])
    ensures CanRun(a, q, g.Rhs(r)) && Run(a, q, g.Rhs(r)) < |a.states|
    ensures r in a.reductions[Run(a, q, g.Rhs(r))]
  {
    RulesOfGoto(g, a, q, r);
    var rhs := g.Rhs(r);
    g.GetRule(r);
    FollowRule(g, a, q, r, |rhs|);
    assert rhs[..|rhs|] == rhs;
    StateFacts(g, a, Run(a, q, rhs));
    assert EndOf(g, r) == g.rrhs[r] + |rhs|;
  }

  // ---------------------------------------------------------------------
  // Looking back
  // ---------------------------------------------------------------------

  /** If the closure of the state reached over `w` has an item of rule `r` with the dot
      after `d` symbols, then `w` ends with those symbols and the state before them
      starts the rule. */
  lemma {:induction false} LookBack(g: Grammar, a: Automaton, w: seq<int>, r: nat, d: nat)
    requires IsLR0(g, a) && CanRun(a, 0, w) && Run(a, 0, w) < |a.states|
    requires 2 <= r < g.nrules && d <= |g.Rhs(r)|
    requires InClosure(g, a.states[Run(a, 0, w)].items, g.rrhs[r] + d)
    ensures d <= |w| && w[|w| - d..] == g.Rhs(r)[..d]
    ensures CanRun(a, 0, w[..|w| - d]) && Run(a, 0, w[..|w| - d]) < |a.states|
    ensures Kernel(g, a.states[Run(a, 0, w[..|w| - d])].items)
    ensures InClosure(g, a.states[Run(a, 0, w[..|w| - d])].items, g.rrhs[r])
    decreases d
  {
    if d == 0 {
      assert w[..|w|] == w;
      KernelOK(g, a, Run(a, 0, w));
    } else {
      var q := Run(a, 0, w);
      ItemInKernel(g, a, q, r, d);
      assert q != 0 && w != [];
      var w', x := w[..|w| - 1], w[|w| - 1];
      RunInRange(g, a, 0, w');
      var p := Run(a, 0, w');
      StepBack(g, a, p, x, r, d);
      LookBack(g, a, w', r, d - 1);
      ExtendSuffix(w, g.Rhs(r), d);
    }
  }

  lemma ExtendSuffix(w: seq<int>, rhs: seq<int>, d: nat)
    requires 0 < d <= |rhs| && d <= |w| && rhs[d - 1] == w[|w| - 1]
    requires w[..|w| - 1][|w| - d..] == rhs[..d - 1]
    ensures w[|w| - d..] == rhs[..d] && w[..|w| - 1][..|w| - d] == w[..|w| - d]
  {
    assert w[|w| - d..] == w[..|w| - 1][|w| - d..] + [w[|w| - 1]];
    assert rhs[..d] == rhs[..d - 1] + [rhs[d - 1]];
  }

  /** An item with something before the dot is in the kernel, and not in state 0. */
  lemma ItemInKernel(g: Grammar, a: Automaton, q: nat, r: nat, d: nat)
    requires IsLR0(g, a) && q < |a.states| && 2 <= r < g.nrules && 0 < d <= |g.Rhs(r)|
    requires InClosure(g, a.states[q].items, g.rrhs[r] + d)
    ensures g.rrhs[r] + d in a.states[q].items && q != 0
  {
    var x, k := g.rrhs[r] + d, a.states[q].items;
    g.GetRule(r);
    StateFacts(g, a, q);
    forall s: nat | 2 <= s < g.nrules ensures g.rrhs[s] != x {
      if s < r { RulesApart(g, s, r); }
      if r < s { RulesApart(g, r, s); }
    }
  }

  lemma StepBack(g: Grammar, a: Automaton, p: nat, x: int, r: nat, d: nat)
    requires IsLR0(g, a) && p < |a.states| && HasGoto(a, p, x) && 2 <= r < g.nrules && 0 < d <= |g.Rhs(r)|
    requires g.rrhs[r] + d in a.states[Goto(a, p, x)].items
    ensures Kernel(g, a.states[p].items) && InClosure(g, a.states[p].items, g.rrhs[r] + (d - 1))
    ensures g.Rhs(r)[d - 1] == x
  {
    GotoOK(g, a, p, x);
    assert MovedOver(g, a.states[p].items, x, g.rrhs[r] + d);
    g.GetRule(r);
  }

  /** Reducing never runs off the bottom of the path, and the goto it needs exists:
      the rule's symbols end the path, and the state before them either has a transition
      on the left side or the rule is that of `$accept`. */
  lemma ReduceIsSafe(g: Grammar, a: Automaton, w: seq<int>, r: nat)
    requires IsLR0(g, a) && CanRun(a, 0, w) && Run(a, 0, w) < |a.states|
    requires r in a.reductions[Run(a, 0, w)]
    ensures 2 < r < g.nrules && |g.Rhs(r)| <= |w| && w[|w| - |g.Rhs(r)|..] == g.Rhs(r)
    ensures CanRun(a, 0, w[..|w| - |g.Rhs(r)|]) && Run(a, 0, w[..|w| - |g.Rhs(r)|]) < |a.states|
    ensures HasGoto(a, Run(a, 0, w[..|w| - |g.Rhs(r)|]), g.rlhs[r])
  {
    var q := Run(a, 0, w);
    StateFacts(g, a, q);
    g.GetRule(r);
    var d := |g.Rhs(r)|;
    assert EndOf(g, r) == g.rrhs[r] + d;
    LookBack(g, a, w, r, d);
    assert g.Rhs(r)[..d] == g.Rhs(r);
    var p := Run(a, 0, w[..|w| - d]);
    NoAcceptReduction(g, a, w, r);
    StartHasGoto(g, a, p, r);
  }

  /** The end marker is never shifted, so the rule of `$accept` is never complete. */
  lemma NoAcceptReduction(g: Grammar, a: Automaton, w: seq<int>, r: nat)
    requires IsLR0(g, a) && CanRun(a, 0, w) && Run(a, 0, w) < |a.states| && 2 <= r < g.nrules
    requires InClosure(g, a.states[Run(a, 0, w)].items, EndOf(g, r))
    ensures r != 2
  {
    if r == 2 {
      assert |g.Rhs(2)| == 2 && g.Rhs(2)[1] == 0;
      ItemInKernel(g, a, Run(a, 0, w), 2, 2);
      RunInRange(g, a, 0, w[..|w| - 1]);
      EndNotShifted(g, a, Run(a, 0, w[..|w| - 1]), w[|w| - 1]);
    }
  }

  /** No state reduces by rule 2. */
  lemma RuleTwoNotReduced(g: Grammar, a: Automaton, q: nat)
    requires IsLR0(g, a) && q < |a.states|
    ensures q < |a.reductions| && 2 !in a.reductions[q]
  {
    StateFacts(g, a, q);
    if 2 in a.reductions[q] {
      ItemInKernel(g, a, q, 2, 2);
      var p :| 0 <= p < |a.shifts| && p < q && q in a.shifts[p];
      var i: nat :| i < |a.shifts[p]| && a.shifts[p][i] == q;
      GotoIs(g, a, p, i);
      EndNotShifted(g, a, p, a.states[q].symbol);
    }
  }

  lemma EndNotShifted(g: Grammar, a: Automaton, p: nat, x: int)
    requires IsLR0(g, a) && p < |a.states| && HasGoto(a, p, x)
    ensures 3 !in a.states[Goto(a, p, x)].items
  {
    GotoOK(g, a, p, x);
    assert MovedOver(g, a.states[p].items, x, 3) ==> x == 0;
  }

  /** A state whose closure starts rule `r` has a transition on its left side. */
  lemma StartHasGoto(g: Grammar, a: Automaton, p: nat, r: nat)
    requires IsLR0(g, a) && p < |a.states| && 2 < r < g.nrules
    requires InClosure(g, a.states[p].items, g.rrhs[r])
    ensures HasGoto(a, p, g.rlhs[r])
  {
    var k := a.states[p].items;
    g.GetRule(r);
    KernelOK(g, a, p);
    KernelMiddle(g, a, p, r);
    var y, s := ClosureCalledFor(g, k, g.rrhs[r]);
    if s < r { RulesApart(g, s, r); }
    if r < s { g.GetRule(s); RulesApart(g, r, s); }
    ItemGivesGoto(g, a, p, y);
  }

  /** Kernel items other than that of state 0 have a symbol before the dot. */
  lemma KernelMiddle(g: Grammar, a: Automaton, p: nat, r: nat)
    requires IsLR0(g, a) && p < |a.states| && 2 < r < g.nrules
    ensures g.rrhs[r] !in a.states[p].items
  {
    g.GetRule(r);
    RulesApart(g, 2, r);
    StateFacts(g, a, p);
    g.GetRule(r - 1);
    if p > 0 && g.rrhs[r] in a.states[p].items {
      StateFacts(g, a, p);
      var o :| 0 <= o < |a.shifts| && o < p && p in a.shifts[o];
      var i :| 0 <= i < |a.shifts[o]| && a.shifts[o][i] == p;
      GotoIs(g, a, o, i);
      var x := a.states[p].symbol;
      GotoOK(g, a, o, x);
    }
  }
}
