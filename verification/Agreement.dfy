/** byacc's lalr.c and eyacc's stagen compute the same lookahead sets.  byacc solves
    inclusions over the nonterminal transitions of the automaton, eyacc carries sets from
    item to item; both end with the sets that `Propagation` says are forced. */
module Agreement {
  import opened Grammars
  import opened Closures
  import opened LR0
  import opened Automata
  import opened GotoMaps
  import opened Lalr
  import opened Firsts
  import opened Propagation
  import Graph
  import Mkpar

  // ---------------------------------------------------------------------
  // First tokens at a place in a rule
  // ---------------------------------------------------------------------

  /** One vanishing symbol more in front. */
  lemma FirstBehind(g: Grammar, y: int, t: int)
    requires g.WellFormed() && Vanishes(g, SymAt(g, y)) && FirstAt(g, y + 1, t)
    ensures FirstAt(g, y, t)
  {
    hide Vanishes, Begins;
    var z :| Passes(g, y + 1, z) && Begins(g, [SymAt(g, z)], t);
    assert Passes(g, y, z);
  }

  lemma FirstHere(g: Grammar, y: int, t: int)
    requires g.WellFormed() && Begins(g, [SymAt(g, y)], t)
    ensures FirstAt(g, y, t)
  {
    assert Passes(g, y, y);
  }

  /** What follows the start of a rule can begin with is what the rule can begin with. */
  lemma RuleFirst(g: Grammar, r: nat, t: int)
    requires g.WellFormed() && 2 <= r < g.nrules && FirstAt(g, g.rrhs[r], t)
    ensures Begins(g, g.Rhs(r), t)
  {
    g.GetRule(r);
    var z :| Passes(g, g.rrhs[r], z) && Begins(g, [SymAt(g, z)], t);
    hide Vanishes, Begins;
    var d, n := z - g.rrhs[r], |g.Rhs(r)|;
    EndStays(g, r);
    assert d <= n;
    TokenBegins(g, SymAt(g, EndOf(g, r)), t);
    assert d < n && SymAt(g, z) == g.Rhs(r)[d];
    forall e | 0 <= e < d ensures Vanishes(g, g.Rhs(r)[e]) {
      assert Vanishes(g, SymAt(g, g.rrhs[r] + e));
    }
    BeginsAt(g, g.Rhs(r), d, t);
  }

  /** Nothing passes the end of a rule. */
  lemma EndStays(g: Grammar, r: nat)
    requires g.WellFormed() && 2 <= r < g.nrules
    ensures EndOf(g, r) == g.rrhs[r] + |g.Rhs(r)| && SymAt(g, EndOf(g, r)) < 0 && !Vanishes(g, SymAt(g, EndOf(g, r)))
  {
    g.GetRule(r);
    TokenStays(g, SymAt(g, EndOf(g, r)));
  }

  /** What a rule that can come first begins with, the nonterminal begins with. */
  lemma StartsBegin(g: Grammar, v: int, r: int, t: int)
    requires g.WellFormed() && StartsIn(g, v, r) && Begins(g, g.Rhs(r), t)
    ensures Begins(g, [v], t)
  {
    RuleBegins(g, r, t);
    var n: nat :| Graph.Walk(Leads(g), v - g.start, g.rlhs[r] - g.start, n);
    LeadsBegin(g, v - g.start, g.rlhs[r] - g.start, n, t);
  }

  lemma {:induction false} LeadsBegin(g: Grammar, u: nat, v: nat, n: nat, t: int)
    requires g.WellFormed() && Graph.Walk(Leads(g), u, v, n) && Begins(g, [v + g.start], t)
    ensures Begins(g, [u + g.start], t)
    decreases n
  {
    hide Begins, LeadsTo;
    if n > 0 {
      var b: nat :| b in Leads(g)[u] && Graph.Walk(Leads(g), b, v, n - 1);
      LeadsBegin(g, b, v, n - 1, t);
      LeadBegins(g, u, b, t);
    }
  }

  lemma LeadBegins(g: Grammar, u: nat, b: nat, t: int)
    requires g.WellFormed() && LeadsTo(g, u, b) && Begins(g, [b + g.start], t)
    ensures Begins(g, [u + g.start], t)
  {
    hide Begins;
    var r :| 2 <= r < g.nrules && g.rlhs[r] == u + g.start && FirstSymbol(g, r) == b + g.start;
    g.GetRule(r);
    assert g.Rhs(r)[0] == b + g.start;
    BeginsAt(g, g.Rhs(r), 0, t);
    RuleBegins(g, r, t);
  }

  // ---------------------------------------------------------------------
  // From spread lookaheads to a solution of byacc's inclusions
  // ---------------------------------------------------------------------

  /** An item of state `p` with `v` after its dot is followed by something that can
      begin with `t`. */
  ghost predicate ReadAfter(g: Grammar, a: Automaton, p: nat, v: int, t: int)
    requires g.WellFormed() && p < |a.states|
  {
    exists x :: InClosure(g, a.states[p].items, x) && SymAt(g, x) == v && FirstAt(g, x + 1, t)
  }

  /** An item of state `p` with `v` after its dot passes on `t`. */
  ghost predicate FollowAfter(g: Grammar, a: Automaton, s: Assignment, p: nat, v: int, t: nat)
    requires g.WellFormed() && p < |a.states|
  {
    exists x :: InClosure(g, a.states[p].items, x) && SymAt(g, x) == v && t in Contribution(g, x, s(a.states[p].items, x))
  }

  /** Items of the state entered from `p` on `v`: a token that one of them can come
      before is read after `v`. */
  lemma ReadIntoKernel(g: Grammar, a: Automaton, p: nat, v: int, y: int, t: int)
    requires IsLR0(g, a) && p < |a.states| && HasGoto(a, p, v)
    requires InClosure(g, a.states[Goto(a, p, v)].items, y) && FirstAt(g, y, t)
    ensures ReadAfter(g, a, p, v, t)
  {
    GotoOK(g, a, p, v);
    var k := a.states[Goto(a, p, v)].items;
    if y in k {
      assert MovedOver(g, a.states[p].items, v, y);
      assert InClosure(g, a.states[p].items, y - 1) && SymAt(g, y - 1) == v;
    } else {
      var i, r :| i in k && StartsIn(g, SymAt(g, i), r) && y == g.rrhs[r];
      hide FirstAt, InClosure, StartsIn, Begins;
      RuleFirst(g, r, t);
      StartsBegin(g, SymAt(g, i), r, t);
      FirstHere(g, i, t);
      assert MovedOver(g, a.states[p].items, v, i);
      assert InClosure(g, a.states[p].items, i - 1) && SymAt(g, i - 1) == v;
    }
  }

  lemma SpreadsAt(g: Grammar, a: Automaton, s: Assignment, p: nat)
    requires IsLR0(g, a) && p < |a.states| && Spreads(g, s)
    ensures Canonical(g, a.states[p].items) && SpreadsFrom(g, s, a.states[p].items)
  {
    StateCanonical(g, a, p);
  }

  lemma {:induction false} StateCanonical(g: Grammar, a: Automaton, q: nat)
    requires IsLR0(g, a) && q < |a.states|
    ensures Canonical(g, a.states[q].items)
    decreases q
  {
    StateFacts(g, a, q);
    if q == 0 {
      StartCanonical(g);
    } else {
      var p :| 0 <= p < |a.shifts| && p < q && q in a.shifts[p];
      var i :| 0 <= i < |a.shifts[p]| && a.shifts[p][i] == q;
      StateCanonical(g, a, p);
      GotoIs(g, a, p, i);
      GotoOK(g, a, p, a.states[q].symbol);
      GotoCanonical(g, a.states[p].items, a.states[q].symbol, a.states[q].items);
    }
  }

  /** Spread lookaheads go along the path over a rule. */
  lemma {:induction false} AlongRule(g: Grammar, a: Automaton, s: Assignment, p: nat, r: nat, d: nat)
    requires IsLR0(g, a) && Spreads(g, s) && p < |a.states| && 2 < r < g.nrules && d <= |g.Rhs(r)|
    requires InClosure(g, a.states[p].items, g.rrhs[r])
    ensures CanRun(a, p, g.Rhs(r)[..d]) && Run(a, p, g.Rhs(r)[..d]) < |a.states|
    ensures InClosure(g, a.states[Run(a, p, g.Rhs(r)[..d])].items, g.rrhs[r] + d)
    ensures s(a.states[p].items, g.rrhs[r]) <= s(a.states[Run(a, p, g.Rhs(r)[..d])].items, g.rrhs[r] + d)
    decreases d
  {
    hide InClosure, Spreads;
    FollowRule(g, a, p, r, d);
    if d == 0 {
      assert g.Rhs(r)[..0] == [];
    } else {
      AlongRule(g, a, s, p, r, d - 1);
      FollowRule(g, a, p, r, d - 1);
      var u := Run(a, p, g.Rhs(r)[..d - 1]);
      OneAlong(g, a, s, u, g.rrhs[r] + (d - 1), r, d - 1);
      assert g.Rhs(r)[..d][..d - 1] == g.Rhs(r)[..d - 1];
    }
  }

  lemma OneAlong(g: Grammar, a: Automaton, s: Assignment, u: nat, x: int, r: nat, d: nat)
    requires IsLR0(g, a) && Spreads(g, s) && u < |a.states| && 2 < r < g.nrules && d < |g.Rhs(r)| && x == g.rrhs[r] + d
    requires InClosure(g, a.states[u].items, x)
    ensures HasGoto(a, u, g.Rhs(r)[d])
    ensures s(a.states[u].items, x) <= s(a.states[Goto(a, u, g.Rhs(r)[d])].items, x + 1)
  {
    hide InClosure, Spreads, LocalClosed;
    g.GetRule(r);
    ItemGivesGoto(g, a, u, x);
    GotoOK(g, a, u, g.ritem[x]);
    SpreadsAt(g, a, s, u);
    assert Moves(g, a.states[u].items, x, a.states[Goto(a, u, g.ritem[x])].items);
  }

  /** The end points and the symbol of transition `k`. */
  ghost predicate IsTransition(g: Grammar, a: Automaton, m: GotoMap, k: nat, p: nat, v: int) {
    k < |m.from| == |m.to| && m.from[k] == p < |a.states| && m.to[k] < |a.states| && g.start <= v < g.nsyms &&
    HasGoto(a, p, v) && m.to[k] == Goto(a, p, v) && a.states[m.to[k]].symbol == v && k == GotoIndex(g, a, p, v)
  }

  lemma TransitionOf(g: Grammar, a: Automaton, m: GotoMap, k: nat) returns (p: nat, v: int)
    requires IsLR0(g, a) && GotoMapOK(g, a, m) && k < |m.from|
    ensures IsTransition(g, a, m, k, p, v)
  {
    p, v := GotoOfIndex(g, a, m, k);
  }

  lemma TransitionOn(g: Grammar, a: Automaton, m: GotoMap, p: nat, v: int)
    requires IsLR0(g, a) && GotoMapOK(g, a, m) && p < |a.states| && g.start <= v < g.nsyms && HasGoto(a, p, v)
    ensures IsTransition(g, a, m, GotoIndex(g, a, p, v), p, v)
  {
    assert Recorded(g, a, m.from, m.to, p, v);
  }

  ghost predicate ReadOn(g: Grammar, a: Automaton, m: GotoMap, k: nat, t: int)
    requires g.WellFormed()
  {
    exists p: nat, v :: IsTransition(g, a, m, k, p, v) && ReadAfter(g, a, p, v, t)
  }

  ghost predicate FollowOn(g: Grammar, a: Automaton, m: GotoMap, s: Assignment, k: nat, t: nat)
    requires g.WellFormed()
  {
    exists p: nat, v :: IsTransition(g, a, m, k, p, v) && FollowAfter(g, a, s, p, v, t)
  }

  ghost predicate ReduceOn(g: Grammar, a: Automaton, t: Reductions, s: Assignment, j: nat, tok: nat) {
    exists q: nat :: NumberOf(t, q, j) && q < |a.states| && j < |t.ruleno| && tok in s(a.states[q].items, EndOf(g, t.ruleno[j]))
  }

  ghost function ReadSets(g: Grammar, a: Automaton, m: GotoMap): (p: seq<set<nat>>)
    requires g.WellFormed()
    ensures |p| == |m.to| && forall k, t: nat :: 0 <= k < |p| ==> (t in p[k] <==> t < g.start && ReadOn(g, a, m, k, t))
  {
    seq(|m.to|, k requires 0 <= k => set t: nat | t < g.start && ReadOn(g, a, m, k, t))
  }

  ghost function FollowSets(g: Grammar, a: Automaton, m: GotoMap, s: Assignment): (p: seq<set<nat>>)
    requires g.WellFormed()
    ensures |p| == |m.to| && forall k, t: nat :: 0 <= k < |p| ==> (t in p[k] <==> t < g.start && FollowOn(g, a, m, s, k, t))
  {
    seq(|m.to|, k requires 0 <= k => set t: nat | t < g.start && FollowOn(g, a, m, s, k, t))
  }

  ghost function ReduceSets(g: Grammar, a: Automaton, t: Reductions, s: Assignment): (p: seq<set<nat>>)
    requires g.WellFormed()
    ensures |p| == |t.ruleno| && forall j, x: nat :: 0 <= j < |p| ==> (x in p[j] <==> x < g.start && ReduceOn(g, a, t, s, j, x))
  {
    seq(|t.ruleno|, j requires 0 <= j => set x: nat | x < g.start && ReduceOn(g, a, t, s, j, x))
  }

  /** Direct reads. */
  lemma TokenRead(g: Grammar, a: Automaton, m: GotoMap, k: nat, t: nat)
    requires IsLR0(g, a) && GotoMapOK(g, a, m) && k < |m.to| && ReadsToken(g, a, m, k, t)
    ensures t < g.start && ReadOn(g, a, m, k, t)
  {
    hide InClosure, Begins, FirstAt;
    MapSize(g, a, m);
    var p, v := TransitionOf(g, a, m, k);
    hide GotoMapOK;
    if 0 < t < g.start && HasGoto(a, m.to[k], t) {
      var i := GotoGivesItem(g, a, m.to[k], t);
      TokenBegins(g, t, t);
      FirstHere(g, i, t);
      ReadIntoKernel(g, a, p, v, i, t);
    } else {
      FirstGoto(g, a, m);
      TransitionOn(g, a, m, 0, g.Goal());
      TokenBegins(g, 0, 0);
      FirstHere(g, 2, 0);
      StartItem(g, a);
      assert ReadAfter(g, a, 0, g.Goal(), 0);
    }
  }

  lemma StartItem(g: Grammar, a: Automaton)
    requires IsLR0(g, a)
    ensures InClosure(g, a.states[0].items, 1) && SymAt(g, 1) == g.Goal()
  {
    StateFacts(g, a, 0);
  }

  /** Reads through a nullable nonterminal. */
  lemma NullableRead(g: Grammar, a: Automaton, m: GotoMap, nullable: seq<bool>, k: nat, e: nat, t: nat)
    requires IsLR0(g, a) && GotoMapOK(g, a, m) && NullTable(g, nullable) && k < |m.to| && Reads(g, a, m, nullable, k, e)
    requires ReadOn(g, a, m, e, t)
    ensures ReadOn(g, a, m, k, t)
  {
    MapSize(g, a, m);
    hide InClosure, Begins, FirstAt, GotoMapOK, Derives;
    var p, v := TransitionOf(g, a, m, k);
    var x :| g.start <= x < g.nsyms && ReadsOver(g, a, m, nullable, k, x) && e == GotoIndex(g, a, m.to[k], x);
    var p': nat, v' :| IsTransition(g, a, m, e, p', v') && ReadAfter(g, a, p', v', t);
    SameTransition(g, a, p', v', m.to[k], x);
    var y :| InClosure(g, a.states[p'].items, y) && SymAt(g, y) == v' && FirstAt(g, y + 1, t);
    FirstBehind(g, y, t);
    ReadIntoKernel(g, a, p, v, y, t);
  }

  lemma SameTransition(g: Grammar, a: Automaton, p: nat, v: int, q: nat, x: int)
    requires g.start <= x < g.nsyms && g.start <= v < g.nsyms && p < |a.states| && q < |a.states|
    requires HasGoto(a, p, v) && HasGoto(a, q, x) && GotoIndex(g, a, p, v) == GotoIndex(g, a, q, x)
    ensures p == q && v == x
  {
    GotoIndexInjective(g, a, p, v, q, x);
  }

  /** What follows a nonterminal is the lookahead of its rules. */
  lemma FollowIsLookahead(g: Grammar, a: Automaton, s: Assignment, p: nat, r: nat, t: nat)
    requires IsLR0(g, a) && Spreads(g, s) && p < |a.states| && 2 <= r < g.nrules && HasGoto(a, p, g.rlhs[r])
    requires FollowAfter(g, a, s, p, g.rlhs[r], t)
    ensures r > 2 && InClosure(g, a.states[p].items, g.rrhs[r]) && t in s(a.states[p].items, g.rrhs[r])
  {
    hide InClosure, Contribution, Spreads;
    RulesOfGoto(g, a, p, r);
    SpreadsAt(g, a, s, p);
    RuleStart(g, r);
    var x :| InClosure(g, a.states[p].items, x) && SymAt(g, x) == g.rlhs[r] && t in Contribution(g, x, s(a.states[p].items, x));
    assert CallsFor(g, x, r);
    assert LocalClosed(g, a.states[p].items, Part(s, a.states[p].items));
  }

  /** The includes relation. */
  lemma FollowIncluded(g: Grammar, a: Automaton, m: GotoMap, nullable: seq<bool>, s: Assignment, k: nat, e: nat, t: nat)
    requires IsLR0(g, a) && GotoMapOK(g, a, m) && NullTable(g, nullable) && Spreads(g, s) && k < |m.to| && e < |m.to|
    requires Included(g, a, m, nullable, k, e) && FollowOn(g, a, m, s, k, t)
    ensures FollowOn(g, a, m, s, e, t)
  {
    MapSize(g, a, m);
    hide InClosure, GotoMapOK, Spreads, FollowAfter, Contribution;
    var p, v := TransitionOf(g, a, m, k);
    var p': nat, v' :| IsTransition(g, a, m, k, p', v') && FollowAfter(g, a, s, p', v', t);
    var r, d: nat :| RuleOf(g, a, m, k, r) && d < |g.Rhs(r)| && IncludedAt(g, a, m, nullable, k, r, d, e);
    FollowIsLookahead(g, a, s, p, r, t);
    FollowAtPlace(g, a, m, nullable, s, p, r, d, t);
    TransitionOn(g, a, m, Run(a, p, g.Rhs(r)[..d]), g.Rhs(r)[d]);
  }

  lemma FollowAtPlace(g: Grammar, a: Automaton, m: GotoMap, nullable: seq<bool>, s: Assignment, p: nat, r: nat, d: nat, t: nat)
    requires IsLR0(g, a) && NullTable(g, nullable) && Spreads(g, s) && p < |a.states| && 2 < r < g.nrules && d < |g.Rhs(r)|
    requires InClosure(g, a.states[p].items, g.rrhs[r]) && t in s(a.states[p].items, g.rrhs[r]) && RestNullable(nullable, g.Rhs(r), d)
    ensures CanRun(a, p, g.Rhs(r)[..d]) && Run(a, p, g.Rhs(r)[..d]) < |a.states|
    ensures HasGoto(a, Run(a, p, g.Rhs(r)[..d]), g.Rhs(r)[d])
    ensures FollowAfter(g, a, s, Run(a, p, g.Rhs(r)[..d]), g.Rhs(r)[d], t)
  {
    hide InClosure, Spreads, EmptyAt;
    AlongRule(g, a, s, p, r, d);
    var u, x := Run(a, p, g.Rhs(r)[..d]), g.rrhs[r] + d;
    OneAlong(g, a, s, u, x, r, d);
    RestEmpty(g, nullable, r, d);
    g.GetRule(r);
    assert SymAt(g, x) == g.Rhs(r)[d];
    assert t in Contribution(g, x, s(a.states[u].items, x));
  }

  lemma RestEmpty(g: Grammar, nullable: seq<bool>, r: nat, d: nat)
    requires g.WellFormed() && NullTable(g, nullable) && 2 <= r < g.nrules && d < |g.Rhs(r)| && RestNullable(nullable, g.Rhs(r), d)
    ensures EmptyAt(g, g.rrhs[r] + d + 1)
  {
    g.GetRule(r);
    EndStays(g, r);
    hide Derives;
    forall i | g.rrhs[r] + d + 1 <= i < EndOf(g, r) ensures Vanishes(g, SymAt(g, i)) {
      assert SymAt(g, i) == g.Rhs(r)[i - g.rrhs[r]];
    }
    assert Passes(g, g.rrhs[r] + d + 1, EndOf(g, r));
  }

  /** The lookback relation. */
  lemma FollowReduced(g: Grammar, a: Automaton, m: GotoMap, t: Reductions, s: Assignment, q: nat, j: nat, k: nat, tok: nat)
    requires IsLR0(g, a) && GotoMapOK(g, a, m) && Spreads(g, s) && k < |m.to| && j < |t.ruleno| && NumberOf(t, q, j)
    requires LooksBack(g, a, m, q, t.ruleno[j], k) && FollowOn(g, a, m, s, k, tok)
    ensures ReduceOn(g, a, t, s, j, tok)
  {
    hide InClosure, GotoMapOK, Spreads, FollowAfter, IsLR0, Contribution, CanRun, Grammar.WellFormed, Grammar.Rhs;
    LR0Grammar(g, a);
    MapSize(g, a, m);
    var r := t.ruleno[j];
    var p, v := TransitionOf(g, a, m, k);
    var p': nat, v' :| IsTransition(g, a, m, k, p', v') && FollowAfter(g, a, s, p', v', tok);
    FollowIsLookahead(g, a, s, p, r, tok);
    AlongRule(g, a, s, p, r, |g.Rhs(r)|);
    assert g.Rhs(r)[..|g.Rhs(r)|] == g.Rhs(r);
    EndStays(g, r);
  }

  /** Every way of spreading lookaheads gives a solution of byacc's inclusions. */
  lemma SpreadSolves(g: Grammar, a: Automaton, m: GotoMap, nullable: seq<bool>, t: Reductions, s: Assignment)
    requires IsLR0(g, a) && GotoMapOK(g, a, m) && NullTable(g, nullable) && ReductionsNumbered(a, t) && Spreads(g, s)
    ensures LookaheadSolution(g, a, m, nullable, t, ReadSets(g, a, m), FollowSets(g, a, m, s), ReduceSets(g, a, t, s))
  {
    hide ReadOn, FollowOn, ReduceOn, ReadsToken, Reads, Included, LooksBack, NumberOf, StatesOK, Spreads;
    MapSize(g, a, m);
    hide GotoMapOK;
    forall k, x: nat | 0 <= k < |m.to| && ReadsToken(g, a, m, k, x) ensures x in ReadSets(g, a, m)[k] {
      TokenRead(g, a, m, k, x);
    }
    forall k, e: nat | 0 <= k < |m.to| && e < |m.to| && Reads(g, a, m, nullable, k, e)
      ensures ReadSets(g, a, m)[e] <= ReadSets(g, a, m)[k]
    {
      forall x | x in ReadSets(g, a, m)[e] ensures x in ReadSets(g, a, m)[k] {
        NullableRead(g, a, m, nullable, k, e, x);
      }
    }
    forall k | 0 <= k < |m.to| ensures ReadSets(g, a, m)[k] <= FollowSets(g, a, m, s)[k] {
      forall x | x in ReadSets(g, a, m)[k] ensures x in FollowSets(g, a, m, s)[k] {
        ReadFollows(g, a, m, s, k, x);
      }
    }
    forall k, e: nat | 0 <= k < |m.to| && e < |m.to| && Included(g, a, m, nullable, k, e)
      ensures FollowSets(g, a, m, s)[k] <= FollowSets(g, a, m, s)[e]
    {
      forall x | x in FollowSets(g, a, m, s)[k] ensures x in FollowSets(g, a, m, s)[e] {
        FollowIncluded(g, a, m, nullable, s, k, e, x);
      }
    }
    forall j, q: nat, k | 0 <= j < |t.ruleno| && 0 <= k < |m.to| && NumberOf(t, q, j) && LooksBack(g, a, m, q, t.ruleno[j], k)
      ensures FollowSets(g, a, m, s)[k] <= ReduceSets(g, a, t, s)[j]
    {
      forall x | x in FollowSets(g, a, m, s)[k] ensures x in ReduceSets(g, a, t, s)[j] {
        FollowReduced(g, a, m, t, s, q, j, k, x);
      }
    }
  }

  lemma MapSize(g: Grammar, a: Automaton, m: GotoMap)
    requires g.WellFormed() && GotoMapOK(g, a, m)
    ensures |m.from| == |m.to|
  {
  }

  lemma ReadFollows(g: Grammar, a: Automaton, m: GotoMap, s: Assignment, k: nat, t: nat)
    requires g.WellFormed() && ReadOn(g, a, m, k, t)
    ensures FollowOn(g, a, m, s, k, t)
  {
    hide InClosure, FirstAt;
    var p: nat, v :| IsTransition(g, a, m, k, p, v) && ReadAfter(g, a, p, v, t);
    var x :| InClosure(g, a.states[p].items, x) && SymAt(g, x) == v && FirstAt(g, x + 1, t);
    assert t in Contribution(g, x, s(a.states[p].items, x));
    assert FollowAfter(g, a, s, p, v, t);
  }

  // ---------------------------------------------------------------------
  // From a solution of byacc's inclusions to spread lookaheads: what is read
  // ---------------------------------------------------------------------

  /** `t` is read after passing the nullable nonterminal `c` from state `s`. */
  ghost predicate ReadsVia(g: Grammar, a: Automaton, read: seq<set<nat>>, s: nat, c: int, t: nat)
    requires g.WellFormed()
  {
    g.start <= c < g.nsyms && Vanishes(g, c) && HasGoto(a, s, c) && GotoIndex(g, a, s, c) < |read| && t in read[GotoIndex(g, a, s, c)]
  }

  /** Token `t`, if it is not the end marker, can be read in state `s`. */
  ghost predicate Readable(g: Grammar, a: Automaton, read: seq<set<nat>>, s: nat, t: nat)
    requires g.WellFormed()
  {
    t == 0 || (t < g.start && HasGoto(a, s, t)) || exists c :: ReadsVia(g, a, read, s, c, t)
  }

  /** `read` is closed as the first two inclusions say. */
  ghost predicate ReadsClosed(g: Grammar, a: Automaton, m: GotoMap, nullable: seq<bool>, read: seq<set<nat>>)
    requires g.WellFormed() && |nullable| == g.nsyms
  {
    |read| == |m.to| == |m.from| &&
    (forall k, t: nat :: 0 <= k < |m.to| && ReadsToken(g, a, m, k, t) ==> t in read[k]) &&
    forall k, e: nat :: 0 <= k < |m.to| && e < |m.to| && Reads(g, a, m, nullable, k, e) ==> read[e] <= read[k]
  }

  lemma ReadableInto(g: Grammar, a: Automaton, m: GotoMap, nullable: seq<bool>, read: seq<set<nat>>, k: nat, t: nat)
    requires IsLR0(g, a) && NullTable(g, nullable) && ReadsClosed(g, a, m, nullable, read) && k < |m.to|
    requires t > 0 && Readable(g, a, read, m.to[k], t)
    ensures t in read[k]
  {
    hide Derives, StatesOK;
    if 0 < t < g.start && HasGoto(a, m.to[k], t) {
      assert ReadsToken(g, a, m, k, t);
    } else {
      var c :| ReadsVia(g, a, read, m.to[k], c, t);
      assert ReadsOver(g, a, m, nullable, k, c);
      assert Reads(g, a, m, nullable, k, GotoIndex(g, a, m.to[k], c));
    }
  }

  /** What can be read behind a nullable nonterminal can be read before it. */
  lemma ReadableOver(g: Grammar, a: Automaton, m: GotoMap, nullable: seq<bool>, read: seq<set<nat>>, s: nat, c: int, t: nat)
    requires IsLR0(g, a) && GotoMapOK(g, a, m) && NullTable(g, nullable) && ReadsClosed(g, a, m, nullable, read)
    requires s < |a.states| && g.start <= c < g.nsyms && HasGoto(a, s, c) && Vanishes(g, c) && Readable(g, a, read, Goto(a, s, c), t)
    ensures Readable(g, a, read, s, t)
  {
    TransitionOn(g, a, m, s, c);
    hide Derives, StatesOK, GotoMapOK, ReadsClosed, Readable, NullTable;
    var k := GotoIndex(g, a, s, c);
    if t > 0 {
      ReadableInto(g, a, m, nullable, read, k, t);
      ClosedSize(g, a, m, nullable, read);
      assert ReadsVia(g, a, read, s, c, t);
    }
    ReadableBy(g, a, read, s, c, t);
  }

  lemma ClosedSize(g: Grammar, a: Automaton, m: GotoMap, nullable: seq<bool>, read: seq<set<nat>>)
    requires g.WellFormed() && |nullable| == g.nsyms && ReadsClosed(g, a, m, nullable, read)
    ensures |read| == |m.to| == |m.from|
  {
  }

  lemma ReadableBy(g: Grammar, a: Automaton, read: seq<set<nat>>, s: nat, c: int, t: nat)
    requires g.WellFormed()
    ensures t == 0 || ReadsVia(g, a, read, s, c, t) ==> Readable(g, a, read, s, t)
  {
  }

  /** Tokens that can be read in every state that can move over `x`. */
  ghost predicate Everywhere(g: Grammar, a: Automaton, read: seq<set<nat>>, x: int, t: nat)
    requires g.WellFormed()
  {
    forall s: nat :: s < |a.states| && HasGoto(a, s, x) ==> Readable(g, a, read, s, t)
  }

  ghost function ReadSetsOf(g: Grammar, a: Automaton, read: seq<set<nat>>): (p: seq<set<nat>>)
    requires g.WellFormed()
    ensures |p| == g.nsyms && forall x, t: nat :: 0 <= x < g.nsyms ==> (t in p[x] <==> t < g.start && Everywhere(g, a, read, x, t))
  {
    seq(g.nsyms, x requires 0 <= x => set t: nat | t < g.start && Everywhere(g, a, read, x, t))
  }

  /** Along a rule: what the symbol at place `i` supplies can be read at every place
      before it, back to the start. */
  lemma {:induction false} RuleReadable(g: Grammar, a: Automaton, m: GotoMap, nullable: seq<bool>, read: seq<set<nat>>,
                                        s: nat, r: nat, d: nat, i: nat, t: nat)
    requires IsLR0(g, a) && GotoMapOK(g, a, m) && NullTable(g, nullable) && ReadsClosed(g, a, m, nullable, read)
    requires s < |a.states| && 2 < r < g.nrules && InClosure(g, a.states[s].items, g.rrhs[r]) && t < g.start
    requires d <= i < |g.Rhs(r)| && Supplies(g, ReadSetsOf(g, a, read), g.Rhs(r), i, t)
    ensures CanRun(a, s, g.Rhs(r)[..d]) && Run(a, s, g.Rhs(r)[..d]) < |a.states|
    ensures Readable(g, a, read, Run(a, s, g.Rhs(r)[..d]), t)
    decreases i - d
  {
    hide GotoMapOK, NullTable, ReadsClosed, InClosure, Vanishes, IsLR0, Readable, Supplies, Knows, ReadSetsOf, CanRun, Run, HasGoto;
    LR0Grammar(g, a);
    var w := g.Rhs(r);
    SuppliesParts(g, ReadSetsOf(g, a, read), w, i, t, d);
    FollowRule(g, a, s, r, d);
    var u := Run(a, s, w[..d]);
    g.GetRule(r);
    assert g.ritem[g.rrhs[r] + d] == w[d];
    ItemGivesGoto(g, a, u, g.rrhs[r] + d);
    if d == i {
      HereReadable(g, a, read, u, w[d], t);
    } else {
      RuleReadable(g, a, m, nullable, read, s, r, d + 1, i, t);
      RunStep(a, s, w[..d], w[d]);
      assert w[..d + 1] == w[..d] + [w[d]];
      if w[d] < g.start {
        TokenStays(g, w[d]);
      }
      ReadableOver(g, a, m, nullable, read, u, w[d], t);
    }
  }

  lemma SuppliesParts(g: Grammar, p: seq<set<nat>>, w: seq<int>, i: nat, t: nat, d: nat)
    requires g.WellFormed() && Supplies(g, p, w, i, t) && d <= i
    ensures i < |w| && Knows(g, p, w[i], t) && (d < i ==> Vanishes(g, w[d]))
  {
  }

  lemma HereReadable(g: Grammar, a: Automaton, read: seq<set<nat>>, u: nat, x: int, t: nat)
    requires g.WellFormed() && u < |a.states| && 0 <= x < g.nsyms && HasGoto(a, u, x) && t < g.start && Knows(g, ReadSetsOf(g, a, read), x, t)
    ensures Readable(g, a, read, u, t)
  {
    if x >= g.start {
      assert Everywhere(g, a, read, x, t);
    }
  }

  lemma ReadSetsClosed(g: Grammar, a: Automaton, m: GotoMap, nullable: seq<bool>, read: seq<set<nat>>)
    requires IsLR0(g, a) && GotoMapOK(g, a, m) && NullTable(g, nullable) && ReadsClosed(g, a, m, nullable, read)
    ensures FirstClosed(g, ReadSetsOf(g, a, read))
  {
    hide GotoMapOK, NullTable, ReadsClosed, InClosure, Vanishes, StatesOK, Readable, Supplies;
    var p := ReadSetsOf(g, a, read);
    forall r, i: nat, t: nat | 2 <= r < g.nrules && g.start <= g.rlhs[r] < g.nsyms && t < g.start && Supplies(g, p, g.Rhs(r), i, t)
      ensures t in p[g.rlhs[r]]
    {
      forall s: nat | s < |a.states| && HasGoto(a, s, g.rlhs[r]) ensures Readable(g, a, read, s, t) {
        RulesOfGoto(g, a, s, r);
        SuppliesInside(g, p, g.Rhs(r), i, t);
        RuleReadable(g, a, m, nullable, read, s, r, 0, i, t);
        assert g.Rhs(r)[..0] == [];
      }
      assert Everywhere(g, a, read, g.rlhs[r], t);
    }
  }

  lemma SuppliesInside(g: Grammar, p: seq<set<nat>>, w: seq<int>, i: nat, t: nat)
    requires g.WellFormed() && Supplies(g, p, w, i, t)
    ensures i < |w|
  {
  }

  /** What can follow at an item of a state can be read in it. */
  lemma {:induction false} FirstReadable(g: Grammar, a: Automaton, m: GotoMap, nullable: seq<bool>, read: seq<set<nat>>,
                                         s: nat, y: int, z: int, t: nat)
    requires IsLR0(g, a) && GotoMapOK(g, a, m) && NullTable(g, nullable) && ReadsClosed(g, a, m, nullable, read)
    requires s < |a.states| && IsItem(g, y) && InClosure(g, a.states[s].items, y) && Passes(g, y, z) && Begins(g, [SymAt(g, z)], t)
    requires 0 < t < g.start
    ensures Readable(g, a, read, s, t)
    decreases z - y
  {
    hide GotoMapOK, NullTable, ReadsClosed, InClosure, Vanishes, StatesOK, Readable, Begins, ReadSetsOf;
    if y == z {
      SymbolReadable(g, a, m, nullable, read, s, y, t);
    } else {
      assert Vanishes(g, SymAt(g, y));
      if SymAt(g, y) < g.start {
        TokenStays(g, SymAt(g, y));
      }
      VarRange(g, y);
      ItemGivesGoto(g, a, s, y);
      var c := g.ritem[y];
      ItemAfter(g, a, s, y);
      assert Passes(g, y + 1, z);
      FirstReadable(g, a, m, nullable, read, Goto(a, s, c), y + 1, z, t);
      ReadableOver(g, a, m, nullable, read, s, c, t);
    }
  }

  lemma ItemAfter(g: Grammar, a: Automaton, s: nat, y: int)
    requires IsLR0(g, a) && s < |a.states| && IsItem(g, y) && InClosure(g, a.states[s].items, y) && g.ritem[y] > 0
    ensures IsItem(g, y + 1) && HasGoto(a, s, g.ritem[y]) && InClosure(g, a.states[Goto(a, s, g.ritem[y])].items, y + 1)
  {
    ItemGivesGoto(g, a, s, y);
    NextItem(g, y);
  }

  lemma SymbolReadable(g: Grammar, a: Automaton, m: GotoMap, nullable: seq<bool>, read: seq<set<nat>>, s: nat, y: int, t: nat)
    requires IsLR0(g, a) && GotoMapOK(g, a, m) && NullTable(g, nullable) && ReadsClosed(g, a, m, nullable, read)
    requires s < |a.states| && IsItem(g, y) && InClosure(g, a.states[s].items, y) && Begins(g, [SymAt(g, y)], t) && 0 < t < g.start
    ensures Readable(g, a, read, s, t)
  {
    ReadSetsClosed(g, a, m, nullable, read);
    hide GotoMapOK, NullTable, ReadsClosed, InClosure, StatesOK, Begins, FirstClosed;
    var x := SymAt(g, y);
    if x < g.start {
      TokenBegins(g, x, t);
      ItemGivesGoto(g, a, s, y);
    } else {
      VarRange(g, y);
      ItemGivesGoto(g, a, s, y);
      ClosedHasFirsts(g, ReadSetsOf(g, a, read), x, t);
      assert Everywhere(g, a, read, x, t);
    }
  }

  // ---------------------------------------------------------------------
  // The end marker
  // ---------------------------------------------------------------------

  /** All first tokens, except that only `$accept` keeps the end marker. */
  ghost function WithoutEnd(g: Grammar): (p: seq<set<nat>>)
    requires g.WellFormed()
    ensures |p| == g.nsyms
    ensures forall x, t: nat :: 0 <= x < g.nsyms ==> (t in p[x] <==> t in FirstOf(g, x) && (x == g.start || t > 0))
  {
    seq(g.nsyms, x requires 0 <= x => set t | t in FirstOf(g, x) && (x == g.start || t > 0))
  }

  lemma WithoutEndClosed(g: Grammar)
    requires g.WellFormed()
    ensures FirstClosed(g, WithoutEnd(g))
  {
    hide FirstOf, Vanishing;
    FirstSetsClosed(g);
    var p := WithoutEnd(g);
    forall r, i: nat, t: nat | 2 <= r < g.nrules && g.start <= g.rlhs[r] < g.nsyms && t < g.start && Supplies(g, p, g.Rhs(r), i, t)
      ensures t in p[g.rlhs[r]]
    {
      g.GetRule(r);
      assert Supplies(g, FirstSets(g), g.Rhs(r), i, t);
      assert t in FirstSets(g)[g.rlhs[r]];
    }
  }

  /** Nothing but `$accept` begins with the end marker. */
  lemma NoEndFirst(g: Grammar, v: int)
    requires g.WellFormed() && g.start < v < g.nsyms
    ensures !Begins(g, [v], 0)
  {
    WithoutEndClosed(g);
    if Begins(g, [v], 0) {
      ClosedHasFirsts(g, WithoutEnd(g), v, 0);
    }
  }

  /** The end marker follows the goal in rule 2 only. */
  lemma EndFollowsGoal(g: Grammar, x: int)
    requires g.WellFormed() && IsItem(g, x) && g.ritem[x] >= 0 && FirstAt(g, x + 1, 0)
    ensures x == 1
  {
    hide Vanishes, Begins;
    var z :| Passes(g, x + 1, z) && Begins(g, [SymAt(g, z)], 0);
    if SymAt(g, z) < g.start {
      TokenBegins(g, SymAt(g, z), 0);
      var r := ItemExists(g, z, g.nrules);
      ItemSymbol(g, z, r);
    } else {
      VarRange(g, z);
      NoEndFirst(g, SymAt(g, z));
    }
  }

  /** The first item of `$accept` is in state 0 only. */
  lemma StartInFirst(g: Grammar, a: Automaton, q: nat)
    requires IsLR0(g, a) && q < |a.states| && InClosure(g, a.states[q].items, 1)
    ensures q == 0
  {
    hide InClosure;
    StateFacts(g, a, q);
    var k := a.states[q].items;
    if 1 !in k {
      var y, r := ClosureCalledFor(g, k, 1);
      if r > 2 {
        RulesApart(g, 2, r);
      }
      VarRange(g, y);
    } else if q > 0 {
      LaterKernel(g, a, q);
    }
  }

  lemma LaterKernel(g: Grammar, a: Automaton, q: nat)
    requires IsLR0(g, a) && 0 < q < |a.states|
    ensures forall y :: y in a.states[q].items ==> y > 1
  {
    hide InClosure;
    StateFacts(g, a, q);
    var p :| 0 <= p < |a.shifts| && p < q && q in a.shifts[p];
    var i :| 0 <= i < |a.shifts[p]| && a.shifts[p][i] == q;
    GotoIs(g, a, p, i);
    GotoOK(g, a, p, a.states[q].symbol);
    forall y | y in a.states[q].items ensures y > 1 {
      assert MovedOver(g, a.states[p].items, a.states[q].symbol, y);
    }
  }

  /** What follows a nonterminal in an item of state `q` is read after its transition. */
  lemma FollowingRead(g: Grammar, a: Automaton, m: GotoMap, nullable: seq<bool>, read: seq<set<nat>>, q: nat, x: int, t: nat)
    requires IsLR0(g, a) && GotoMapOK(g, a, m) && NullTable(g, nullable) && ReadsClosed(g, a, m, nullable, read)
    requires q < |a.states| && InClosure(g, a.states[q].items, x) && IsItem(g, x) && g.start < SymAt(g, x) < g.nsyms && FirstAt(g, x + 1, t)
    ensures HasGoto(a, q, SymAt(g, x)) && GotoIndex(g, a, q, SymAt(g, x)) < |read| && t in read[GotoIndex(g, a, q, SymAt(g, x))]
  {
    var v := SymAt(g, x);
    ItemAfter(g, a, q, x);
    TransitionOn(g, a, m, q, v);
    ClosedSize(g, a, m, nullable, read);
    var k := GotoIndex(g, a, q, v);
    if t == 0 {
      EndFollowsGoal(g, x);
      StartInFirst(g, a, q);
      FirstGoto(g, a, m);
      assert ReadsToken(g, a, m, k, 0);
    } else {
      hide GotoMapOK, NullTable, ReadsClosed, InClosure, StatesOK, Begins, Vanishes;
      var z :| Passes(g, x + 1, z) && Begins(g, [SymAt(g, z)], t);
      BeginsToken(g, [SymAt(g, z)], t);
      FirstReadable(g, a, m, nullable, read, m.to[k], x + 1, z, t);
      ReadableInto(g, a, m, nullable, read, k, t);
    }
  }

  lemma BeginsToken(g: Grammar, w: seq<int>, t: int)
    requires g.WellFormed() && Begins(g, w, t)
    ensures 0 <= t < g.start
  {
  }

  // ---------------------------------------------------------------------
  // From a solution of byacc's inclusions to spread lookaheads
  // ---------------------------------------------------------------------

  /** State `q` is reached over the first `d` symbols of rule `r` from the source of
      transition `k` on the left side of the rule, and `t` follows that transition. */
  ghost predicate OnWay(g: Grammar, a: Automaton, m: GotoMap, follow: seq<set<nat>>, q: nat, r: nat, d: nat, k: nat, t: nat)
    requires g.WellFormed()
  {
    2 < r < g.nrules && d <= |g.Rhs(r)| && k < |m.from| == |m.to| == |follow| && RuleOf(g, a, m, k, r) &&
    m.from[k] < |a.states| && HasGoto(a, m.from[k], g.rlhs[r]) &&
    CanRun(a, m.from[k], g.Rhs(r)[..d]) && Run(a, m.from[k], g.Rhs(r)[..d]) == q && t in follow[k]
  }

  ghost predicate Passing(g: Grammar, a: Automaton, m: GotoMap, follow: seq<set<nat>>, q: nat, x: int, t: nat)
    requires g.WellFormed()
  {
    exists r: nat, d: nat, k: nat :: OnWay(g, a, m, follow, q, r, d, k, t) && ItemAt(g, r, d) == x
  }

  ghost function ItemAt(g: Grammar, r: nat, d: nat): int {
    if r < |g.rrhs| then g.rrhs[r] + d else -1
  }

  ghost predicate PassingIn(g: Grammar, a: Automaton, m: GotoMap, follow: seq<set<nat>>, k: seq<int>, x: int, t: nat)
    requires g.WellFormed()
  {
    exists q: nat :: q < |a.states| && a.states[q].items == k && Passing(g, a, m, follow, q, x, t)
  }

  /** The lookaheads that a solution gives to the items. */
  ghost function Followed(g: Grammar, a: Automaton, m: GotoMap, follow: seq<set<nat>>): (s: Assignment)
    requires g.WellFormed()
    ensures forall k, x, t: nat :: t in s(k, x) <==> t < g.start && PassingIn(g, a, m, follow, k, x, t)
  {
    (k: seq<int>, x: int) requires g.WellFormed() => set t: nat | t < g.start && PassingIn(g, a, m, follow, k, x, t)
  }

  /** The third and fourth inclusions. */
  ghost predicate FollowsClosed(g: Grammar, a: Automaton, m: GotoMap, nullable: seq<bool>, read: seq<set<nat>>, follow: seq<set<nat>>)
    requires g.WellFormed() && |nullable| == g.nsyms
  {
    |read| == |follow| == |m.to| == |m.from| && (forall k :: 0 <= k < |m.to| ==> read[k] <= follow[k]) &&
    forall k, e: nat :: 0 <= k < |m.to| && e < |m.to| && Included(g, a, m, nullable, k, e) ==> follow[k] <= follow[e]
  }

  /** Every kernel of the canonical collection is that of a state. */
  lemma {:induction false} KernelState(g: Grammar, a: Automaton, k: seq<int>, n: nat) returns (q: nat)
    requires IsLR0(g, a) && CanonicalIn(g, k, n)
    ensures q < |a.states| && a.states[q].items == k
    decreases n
  {
    if n == 0 {
      q := 0;
      StateFacts(g, a, 0);
    } else {
      var p: seq<int>, x: int :| CanonicalIn(g, p, n - 1) && x > 0 && GotoKernel(g, p, x, k);
      var s := KernelState(g, a, p, n - 1);
      hide StatesOK, InClosure, HasGoto, CanonicalIn;
      assert k[0] in k;
      assert MovedOver(g, p, x, k[0]);
      ItemGivesGoto(g, a, s, k[0] - 1);
      GotoOK(g, a, s, x);
      q := Goto(a, s, x);
      GotoUnique(g, p, x, a.states[q].items, k);
    }
  }

  /** At the start of a rule called for in state `q`. */
  lemma WayStarts(g: Grammar, a: Automaton, m: GotoMap, follow: seq<set<nat>>, q: nat, r: nat, t: nat)
    requires IsLR0(g, a) && GotoMapOK(g, a, m) && |follow| == |m.to| && q < |a.states| && 2 < r < g.nrules && HasGoto(a, q, g.rlhs[r])
    requires g.start <= g.rlhs[r] < g.nsyms
    requires GotoIndex(g, a, q, g.rlhs[r]) < |follow| && t in follow[GotoIndex(g, a, q, g.rlhs[r])] && t < g.start
    ensures t in Followed(g, a, m, follow)(a.states[q].items, g.rrhs[r])
  {
    TransitionOn(g, a, m, q, g.rlhs[r]);
    hide StatesOK, GotoMapOK, Followed;
    assert g.Rhs(r)[..0] == [];
    assert OnWay(g, a, m, follow, q, r, 0, GotoIndex(g, a, q, g.rlhs[r]), t);
    assert ItemAt(g, r, 0) == g.rrhs[r];
    assert PassingIn(g, a, m, follow, a.states[q].items, g.rrhs[r], t);
  }

  /** A place in a rule where the rest can be empty. */
  lemma EmptyRest(g: Grammar, nullable: seq<bool>, r: nat, d: nat)
    requires g.WellFormed() && NullTable(g, nullable) && 2 <= r < g.nrules && d < |g.Rhs(r)| && EmptyAt(g, g.rrhs[r] + d + 1)
    ensures RestNullable(nullable, g.Rhs(r), d)
  {
    g.GetRule(r);
    EndStays(g, r);
    hide Derives;
    var z :| Passes(g, g.rrhs[r] + d + 1, z) && SymAt(g, z) < 0;
    assert z <= EndOf(g, r);
    forall i | 0 <= i < |g.Rhs(r)| && d < i ensures 0 <= g.Rhs(r)[i] < |nullable| && nullable[g.Rhs(r)[i]] {
      assert SymAt(g, g.rrhs[r] + i) == g.Rhs(r)[i];
      assert Vanishes(g, SymAt(g, g.rrhs[r] + i));
    }
  }

  /** Within closures. */
  lemma FollowedLocal(g: Grammar, a: Automaton, m: GotoMap, nullable: seq<bool>, read: seq<set<nat>>, follow: seq<set<nat>>,
                      k: seq<int>, x: int, r: nat, t: nat)
    requires IsLR0(g, a) && GotoMapOK(g, a, m) && NullTable(g, nullable) && ReadsClosed(g, a, m, nullable, read)
    requires FollowsClosed(g, a, m, nullable, read, follow) && Canonical(g, k) && InClosure(g, k, x) && CallsFor(g, x, r)
    requires t in Contribution(g, x, Followed(g, a, m, follow)(k, x))
    ensures t in Followed(g, a, m, follow)(k, g.rrhs[r])
  {
    NullSize(g, nullable);
    hide StatesOK, GotoMapOK, NullTable, ReadsClosed, FollowsClosed, InClosure, Followed, EmptyAt, FirstAt, PassingIn;
    var v := SymAt(g, x);
    ClosureItem(g, k, x);
    if FirstAt(g, x + 1, t) {
      var n: nat :| CanonicalIn(g, k, n);
      var q := KernelState(g, a, k, n);
      FollowingRead(g, a, m, nullable, read, q, x, t);
      TransitionOn(g, a, m, q, v);
      FollowsRead(g, a, m, nullable, read, follow, GotoIndex(g, a, q, v));
      FirstToken(g, x + 1, t);
      WayStarts(g, a, m, follow, q, r, t);
    } else {
      assert PassingIn(g, a, m, follow, k, x, t);
      FollowedEmpty(g, a, m, nullable, read, follow, k, x, r, t);
    }
  }

  lemma FirstToken(g: Grammar, y: int, t: int)
    requires g.WellFormed() && FirstAt(g, y, t)
    ensures 0 <= t < g.start
  {
  }

  lemma ClosureItem(g: Grammar, k: seq<int>, x: int)
    requires g.WellFormed() && Canonical(g, k) && InClosure(g, k, x)
    ensures IsItem(g, x) && SymAt(g, x) == g.ritem[x]
    ensures SymAt(g, x) >= g.start ==> g.start < SymAt(g, x) < g.nsyms
    ensures forall r :: CallsFor(g, x, r) ==> r > 2
  {
    CanonicalKernel(g, k);
    if x !in k {
      var i, r :| i in k && StartsIn(g, SymAt(g, i), r) && x == g.rrhs[r];
      RuleStart(g, r);
    }
    if SymAt(g, x) >= g.start {
      VarRange(g, x);
    }
  }

  lemma FollowsRead(g: Grammar, a: Automaton, m: GotoMap, nullable: seq<bool>, read: seq<set<nat>>, follow: seq<set<nat>>, k: nat)
    requires g.WellFormed() && |nullable| == g.nsyms && FollowsClosed(g, a, m, nullable, read, follow)
    ensures |read| == |follow| == |m.to| == |m.from| && (k < |m.to| ==> read[k] <= follow[k])
  {
  }

  lemma FollowedEmpty(g: Grammar, a: Automaton, m: GotoMap, nullable: seq<bool>, read: seq<set<nat>>, follow: seq<set<nat>>,
                      k: seq<int>, x: int, r: nat, t: nat)
    requires IsLR0(g, a) && GotoMapOK(g, a, m) && NullTable(g, nullable) && FollowsClosed(g, a, m, nullable, read, follow) && |nullable| == g.nsyms
    requires Canonical(g, k) && InClosure(g, k, x) && CallsFor(g, x, r) && EmptyAt(g, x + 1) && t < g.start
    requires PassingIn(g, a, m, follow, k, x, t)
    ensures t in Followed(g, a, m, follow)(k, g.rrhs[r])
  {
    ClosureItem(g, k, x);
    hide StatesOK, GotoMapOK, NullTable, FollowsClosed, InClosure, Followed, EmptyAt, OnWay, Canonical;
    FollowsRead(g, a, m, nullable, read, follow, 0);
    var q: nat :| q < |a.states| && a.states[q].items == k && Passing(g, a, m, follow, q, x, t);
    var r0: nat, d: nat, k0: nat :| OnWay(g, a, m, follow, q, r0, d, k0, t) && ItemAt(g, r0, d) == x;
    ItemAfter(g, a, q, x);
    var e := GotoIndex(g, a, q, SymAt(g, x));
    TransitionOn(g, a, m, q, SymAt(g, x));
    WayIncluded(g, a, m, nullable, follow, q, x, r0, d, k0, t);
    FollowsIncluded(g, a, m, nullable, read, follow, k0, e);
    WayStarts(g, a, m, follow, q, r, t);
  }

  lemma WayIncluded(g: Grammar, a: Automaton, m: GotoMap, nullable: seq<bool>, follow: seq<set<nat>>, q: nat, x: int,
                    r: nat, d: nat, k: nat, t: nat)
    requires g.WellFormed() && NullTable(g, nullable) && OnWay(g, a, m, follow, q, r, d, k, t) && ItemAt(g, r, d) == x
    requires g.start < SymAt(g, x) < g.nsyms && EmptyAt(g, x + 1) && HasGoto(a, q, SymAt(g, x))
    ensures k < |m.from| == |m.to| == |follow| && t in follow[k] && Included(g, a, m, nullable, k, GotoIndex(g, a, q, SymAt(g, x)))
  {
    WayFacts(g, a, m, follow, q, r, d, k, t);
    PlaceSymbol(g, r, d);
    EmptyRest(g, nullable, r, d);
    hide NullTable, EmptyAt, OnWay, RestNullable;
    assert IncludedAt(g, a, m, nullable, k, r, d, GotoIndex(g, a, q, SymAt(g, x)));
  }

  lemma FollowsIncluded(g: Grammar, a: Automaton, m: GotoMap, nullable: seq<bool>, read: seq<set<nat>>, follow: seq<set<nat>>, k: nat, e: nat)
    requires g.WellFormed() && |nullable| == g.nsyms && FollowsClosed(g, a, m, nullable, read, follow)
    requires k < |m.to| && e < |m.to| && k < |m.from| && Included(g, a, m, nullable, k, e)
    ensures follow[k] <= follow[e]
  {
  }

  lemma PlaceSymbol(g: Grammar, r: nat, d: nat)
    requires g.WellFormed() && 2 <= r < g.nrules && d <= |g.Rhs(r)|
    ensures ItemAt(g, r, d) == g.rrhs[r] + d && IsItem(g, g.rrhs[r] + d)
    ensures d < |g.Rhs(r)| ==> SymAt(g, g.rrhs[r] + d) == g.Rhs(r)[d]
    ensures d == |g.Rhs(r)| ==> SymAt(g, g.rrhs[r] + d) < 0
  {
    g.GetRule(r);
  }

  /** Along transitions. */
  lemma FollowedMoves(g: Grammar, a: Automaton, m: GotoMap, follow: seq<set<nat>>, k: seq<int>, x: int, k': seq<int>, t: nat)
    requires IsLR0(g, a) && Canonical(g, k) && Moves(g, k, x, k') && t in Followed(g, a, m, follow)(k, x)
    ensures t in Followed(g, a, m, follow)(k', x + 1)
  {
    hide StatesOK, InClosure, Followed, OnWay;
    ClosureItem(g, k, x);
    assert PassingIn(g, a, m, follow, k, x, t);
    var q: nat :| q < |a.states| && a.states[q].items == k && Passing(g, a, m, follow, q, x, t);
    var r: nat, d: nat, k0: nat :| OnWay(g, a, m, follow, q, r, d, k0, t) && ItemAt(g, r, d) == x;
    WayFacts(g, a, m, follow, q, r, d, k0, t);
    PlaceSymbol(g, r, d);
    var c := SymAt(g, x);
    ItemAfter(g, a, q, x);
    GotoOK(g, a, q, c);
    GotoUnique(g, k, c, a.states[Goto(a, q, c)].items, k');
    WayGoesOn(g, a, m, follow, q, r, d, k0, t);
    assert ItemAt(g, r, d + 1) == x + 1;
    assert Passing(g, a, m, follow, Goto(a, q, c), x + 1, t);
    assert PassingIn(g, a, m, follow, k', x + 1, t);
  }

  lemma WayFacts(g: Grammar, a: Automaton, m: GotoMap, follow: seq<set<nat>>, q: nat, r: nat, d: nat, k: nat, t: nat)
    requires g.WellFormed() && OnWay(g, a, m, follow, q, r, d, k, t)
    ensures 2 < r < g.nrules && d <= |g.Rhs(r)| && k < |m.from| == |m.to| == |follow| && RuleOf(g, a, m, k, r)
    ensures CanRun(a, m.from[k], g.Rhs(r)[..d]) && Run(a, m.from[k], g.Rhs(r)[..d]) == q && t in follow[k]
  {
  }

  lemma NullSize(g: Grammar, nullable: seq<bool>)
    requires g.WellFormed() && NullTable(g, nullable)
    ensures |nullable| == g.nsyms
  {
  }

  lemma WayGoesOn(g: Grammar, a: Automaton, m: GotoMap, follow: seq<set<nat>>, q: nat, r: nat, d: nat, k: nat, t: nat)
    requires g.WellFormed() && OnWay(g, a, m, follow, q, r, d, k, t) && d < |g.Rhs(r)| && HasGoto(a, q, g.Rhs(r)[d])
    ensures OnWay(g, a, m, follow, Goto(a, q, g.Rhs(r)[d]), r, d + 1, k, t)
  {
    var w := g.Rhs(r);
    RunStep(a, m.from[k], w[..d], w[d]);
    assert w[..d + 1] == w[..d] + [w[d]];
  }

  /** Every solution of byacc's inclusions gives a way of spreading lookaheads. */
  lemma SolutionSpreads(g: Grammar, a: Automaton, m: GotoMap, nullable: seq<bool>, read: seq<set<nat>>, follow: seq<set<nat>>)
    requires IsLR0(g, a) && GotoMapOK(g, a, m) && NullTable(g, nullable) && ReadsClosed(g, a, m, nullable, read)
    requires FollowsClosed(g, a, m, nullable, read, follow)
    ensures Spreads(g, Followed(g, a, m, follow))
  {
    hide StatesOK, GotoMapOK, NullTable, ReadsClosed, FollowsClosed, InClosure, Followed, Canonical, Moves, Contribution;
    var s := Followed(g, a, m, follow);
    forall k | Canonical(g, k) ensures SpreadsFrom(g, s, k) {
      forall x, r | InClosure(g, k, x) && CallsFor(g, x, r) ensures Contribution(g, x, Part(s, k)(x)) <= Part(s, k)(g.rrhs[r]) {
        forall t | t in Contribution(g, x, s(k, x)) ensures t in s(k, g.rrhs[r]) {
          FollowedLocal(g, a, m, nullable, read, follow, k, x, r, t);
        }
      }
      forall x, k' | Moves(g, k, x, k') ensures s(k, x) <= s(k', x + 1) {
        forall t | t in s(k, x) ensures t in s(k', x + 1) {
          FollowedMoves(g, a, m, follow, k, x, k', t);
        }
      }
    }
  }

  // ---------------------------------------------------------------------
  // The theorem
  // ---------------------------------------------------------------------

  /** The two parts of a solution. */
  lemma SolutionParts(g: Grammar, a: Automaton, m: GotoMap, nullable: seq<bool>, t: Reductions,
                      read: seq<set<nat>>, follow: seq<set<nat>>, la: seq<set<nat>>)
    requires g.WellFormed() && |m.from| == |m.to| && |nullable| == g.nsyms && LookaheadSolution(g, a, m, nullable, t, read, follow, la)
    ensures ReadsClosed(g, a, m, nullable, read) && FollowsClosed(g, a, m, nullable, read, follow) && |la| == |t.ruleno|
    ensures forall j, q: nat, k :: 0 <= j < |la| && 0 <= k < |m.to| && NumberOf(t, q, j) && LooksBack(g, a, m, q, t.ruleno[j], k) ==>
      k < |follow| && follow[k] <= la[j]
  {
  }

  /** A forced lookahead of a complete item is in the row of its reduction. */
  lemma ForcedIsReduced(g: Grammar, a: Automaton, m: GotoMap, nullable: seq<bool>, t: Reductions, la: seq<set<nat>>,
                        q: nat, j: nat, tok: nat)
    requires IsLR0(g, a) && CoresOK(g, a.states) && GotoMapOK(g, a, m) && NullTable(g, nullable) && ReductionsNumbered(a, t)
    requires |m.from| == |m.to| && |nullable| == g.nsyms && LeastLookaheads(g, a, m, nullable, t, la)
    requires NumberOf(t, q, j) && q < |a.states| && j < |la| && j < |t.ruleno|
    requires 2 <= t.ruleno[j] < g.nrules && Forced(g, a.states[q].items, EndOf(g, t.ruleno[j]), tok)
    ensures tok in la[j]
  {
    hide StatesOK, GotoMapOK, NullTable, Followed, Spreads, ReadsClosed, FollowsClosed, LooksBack, NumberOf, CoresOK;
    var read, follow :| LookaheadSolution(g, a, m, nullable, t, read, follow, la);
    SolutionParts(g, a, m, nullable, t, read, follow, la);
    SolutionSpreads(g, a, m, nullable, read, follow);
    var r := t.ruleno[j];
    assert tok in Followed(g, a, m, follow)(a.states[q].items, EndOf(g, r));
    var p: nat :| p < |a.states| && a.states[p].items == a.states[q].items && Passing(g, a, m, follow, p, EndOf(g, r), tok);
    SameState(g, a, p, q);
    var r': nat, d: nat, k: nat :| OnWay(g, a, m, follow, p, r', d, k, tok) && ItemAt(g, r', d) == EndOf(g, r);
    OneEnd(g, r, r', d);
    WayLooksBack(g, a, m, follow, q, r, k, tok);
  }

  lemma SameState(g: Grammar, a: Automaton, p: nat, q: nat)
    requires g.WellFormed() && CoresOK(g, a.states) && p < |a.states| && q < |a.states| && a.states[p].items == a.states[q].items
    ensures p == q
  {
  }

  /** Only the end of rule `r` is the end of rule `r`. */
  lemma OneEnd(g: Grammar, r: nat, r': nat, d: nat)
    requires g.WellFormed() && 2 <= r < g.nrules && 2 <= r' < g.nrules && d <= |g.Rhs(r')| && ItemAt(g, r', d) == EndOf(g, r)
    ensures r' == r && d == |g.Rhs(r)|
  {
    EndStays(g, r);
    PlaceSymbol(g, r', d);
    g.GetRule(r);
    g.GetRule(r');
    assert g.ritem[EndOf(g, r)] == 0 - r;
    if r' < r {
      RulesApart(g, r', r);
    } else if r < r' {
      RulesApart(g, r, r');
    }
  }

  lemma WayLooksBack(g: Grammar, a: Automaton, m: GotoMap, follow: seq<set<nat>>, q: nat, r: nat, k: nat, t: nat)
    requires g.WellFormed() && 2 <= r < g.nrules && OnWay(g, a, m, follow, q, r, |g.Rhs(r)|, k, t)
    ensures LooksBack(g, a, m, q, r, k) && k < |m.to| == |follow| && t in follow[k]
  {
    assert g.Rhs(r)[..|g.Rhs(r)|] == g.Rhs(r);
  }

  /** The row of a reduction holds forced lookaheads only. */
  lemma ReducedIsForced(g: Grammar, a: Automaton, m: GotoMap, nullable: seq<bool>, t: Reductions, la: seq<set<nat>>,
                        q: nat, j: nat, tok: nat)
    requires IsLR0(g, a) && GotoMapOK(g, a, m) && NullTable(g, nullable) && ReductionsNumbered(a, t)
    requires |m.from| == |m.to| && |nullable| == g.nsyms && LeastLookaheads(g, a, m, nullable, t, la)
    requires NumberOf(t, q, j) && q < |a.states| && j < |la| && j < |t.ruleno|
    requires tok in la[j]
    ensures Forced(g, a.states[q].items, EndOf(g, t.ruleno[j]), tok)
  {
    hide StatesOK, GotoMapOK, NullTable, Spreads, LookaheadSolution;
    forall s: Assignment | Spreads(g, s) ensures tok in s(a.states[q].items, EndOf(g, t.ruleno[j])) {
      SpreadSolves(g, a, m, nullable, t, s);
      assert la[j] <= ReduceSets(g, a, t, s)[j];
      assert ReduceOn(g, a, t, s, j, tok);
      var p: nat :| NumberOf(t, p, j) && p < |a.states| && tok in s(a.states[p].items, EndOf(g, t.ruleno[j]));
      NumberUnique(g, a, t, q, j, p, j);
    }
  }

  /** byacc's lookahead sets are exactly the forced ones: the row of the reduction by rule
      `r` in state `q` is the lookahead set of the complete item of `r`. */
  lemma ReductionIsForced(g: Grammar, a: Automaton, m: GotoMap, nullable: seq<bool>, t: Reductions, la: seq<set<nat>>,
                          q: nat, j: nat, tok: nat)
    requires IsLR0(g, a) && CoresOK(g, a.states) && GotoMapOK(g, a, m) && NullTable(g, nullable) && ReductionsNumbered(a, t)
    requires LeastLookaheads(g, a, m, nullable, t, la) && |la| == |t.ruleno|
    requires NumberOf(t, q, j) && q < |a.states| && j < |la|
    ensures 2 <= t.ruleno[j] < g.nrules && t.ruleno[j] in a.reductions[q]
    ensures tok in la[j] <==> Forced(g, a.states[q].items, EndOf(g, t.ruleno[j]), tok)
  {
    MapSize(g, a, m);
    NullSize(g, nullable);
    Mkpar.RuleOfNumber(g, a, t, q, j);
    hide StatesOK, GotoMapOK, NullTable, Forced, LeastLookaheads, ReductionsNumbered, CoresOK;
    if tok in la[j] {
      ReducedIsForced(g, a, m, nullable, t, la, q, j, tok);
    }
    if Forced(g, a.states[q].items, EndOf(g, t.ruleno[j]), tok) {
      ForcedIsReduced(g, a, m, nullable, t, la, q, j, tok);
    }
  }
}
