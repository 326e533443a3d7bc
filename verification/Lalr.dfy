/** byacc/lalr.c: the LALR(1) lookahead sets.  Sets of tokens are rows of bits; the two
    relations over nonterminal transitions are successor lists handed to digraph. */
module Lalr {
  import opened Bits
  import opened Graph
  import opened Grammars
  import opened Closures
  import opened LR0
  import opened Automata
  import opened GotoMaps
  import opened Digraphs
  import opened Firsts

  // ---------------------------------------------------------------------
  // The inclusions that define the lookahead sets
  // ---------------------------------------------------------------------

  /** `lookaheads[q]..` are the numbers of the reductions of state `q`; `ruleno` gives
      their rules. */
  datatype Reductions = Reductions(lookaheads: seq<nat>, ruleno: seq<nat>)

  ghost predicate ReductionsNumbered(a: Automaton, t: Reductions)
  {
    |t.lookaheads| == |a.reductions| + 1 && t.lookaheads[0] == 0 && t.lookaheads[|a.reductions|] == |t.ruleno| &&
    forall q: nat :: q < |a.reductions| ==> NumberedState(a, t.lookaheads, t.ruleno, q)
  }

  /** The rules of state `q` have consecutive numbers. */
  ghost predicate NumberedState(a: Automaton, lookaheads: seq<nat>, ruleno: seq<nat>, q: nat)
  {
    q < |a.reductions| && q + 1 < |lookaheads| &&
    lookaheads[q + 1] == lookaheads[q] + |a.reductions[q]| && lookaheads[q + 1] <= |ruleno| &&
    ruleno[lookaheads[q]..lookaheads[q + 1]] == a.reductions[q]
  }

  /** Token `t` can be shifted right after transition `k`; the end marker follows the
      transition on the goal, which has number 0. */
  ghost predicate ReadsToken(g: Grammar, a: Automaton, m: GotoMap, k: nat, t: nat)
    requires k < |m.to|
  {
    (0 < t < g.start && HasGoto(a, m.to[k], t)) || (k == 0 && t == 0)
  }

  /** A nullable nonterminal can be passed right after transition `k`, by transition `e`. */
  ghost predicate Reads(g: Grammar, a: Automaton, m: GotoMap, nullable: seq<bool>, k: nat, e: nat)
    requires k < |m.to| && |nullable| == g.nsyms
  {
    exists x :: g.start <= x < g.nsyms && ReadsOver(g, a, m, nullable, k, x) && e == GotoIndex(g, a, m.to[k], x)
  }

  ghost predicate ReadsOver(g: Grammar, a: Automaton, m: GotoMap, nullable: seq<bool>, k: nat, x: int)
    requires k < |m.to| && |nullable| == g.nsyms && g.start <= x < g.nsyms
  {
    HasGoto(a, m.to[k], x) && nullable[x]
  }

  /** The symbols after place `d` of the right side `w` are all nullable. */
  ghost predicate RestNullable(nullable: seq<bool>, w: seq<int>, d: int)
  {
    forall i :: 0 <= i < |w| && d < i ==> 0 <= w[i] < |nullable| && nullable[w[i]]
  }

  /** Transition `e` is taken at place `d` while following rule `r` from the source of
      transition `k` on the rule's left side, and only nullable symbols come after it. */
  ghost predicate IncludedAt(g: Grammar, a: Automaton, m: GotoMap, nullable: seq<bool>, k: nat, r: nat, d: nat, e: nat)
    requires g.WellFormed() && k < |m.from| && 2 <= r < g.nrules && d < |g.Rhs(r)|
  {
    var w := g.Rhs(r);
    g.IsVar(w[d]) && RestNullable(nullable, w, d) && CanRun(a, m.from[k], w[..d]) && w[d] < g.nsyms &&
    e == GotoIndex(g, a, Run(a, m.from[k], w[..d]), w[d])
  }

  ghost predicate RuleOf(g: Grammar, a: Automaton, m: GotoMap, k: nat, r: nat)
    requires k < |m.to| && |g.rlhs| == g.nrules
  {
    2 <= r < g.nrules && m.to[k] < |a.states| && g.rlhs[r] == a.states[m.to[k]].symbol
  }

  ghost predicate Included(g: Grammar, a: Automaton, m: GotoMap, nullable: seq<bool>, k: nat, e: nat)
    requires g.WellFormed() && k < |m.from| == |m.to|
  {
    exists r, d: nat :: RuleOf(g, a, m, k, r) && d < |g.Rhs(r)| && IncludedAt(g, a, m, nullable, k, r, d, e)
  }

  /** Reducing by rule `r` in state `q` can go back to the source of transition `k` and
      take that transition. */
  ghost predicate LooksBack(g: Grammar, a: Automaton, m: GotoMap, q: nat, r: nat, k: nat)
    requires g.WellFormed() && k < |m.from| == |m.to|
  {
    RuleOf(g, a, m, k, r) && CanRun(a, m.from[k], g.Rhs(r)) && Run(a, m.from[k], g.Rhs(r)) == q
  }

  /** `read`, `follow` (by transition) and `la` (by reduction) satisfy the inclusions
      that define the LALR(1) lookahead sets. */
  ghost predicate LookaheadSolution(g: Grammar, a: Automaton, m: GotoMap, nullable: seq<bool>, t: Reductions,
                                    read: seq<set<nat>>, follow: seq<set<nat>>, la: seq<set<nat>>)
    requires g.WellFormed() && |m.from| == |m.to| && |nullable| == g.nsyms
  {
    |read| == |follow| == |m.to| && |la| == |t.ruleno| && |t.lookaheads| == |a.reductions| + 1 &&
    (forall k, s: nat :: 0 <= k < |m.to| && ReadsToken(g, a, m, k, s) ==> s in read[k]) &&
    (forall k, e: nat :: 0 <= k < |m.to| && e < |m.to| && Reads(g, a, m, nullable, k, e) ==> read[e] <= read[k]) &&
    (forall k :: 0 <= k < |m.to| ==> read[k] <= follow[k]) &&
    (forall k, e: nat :: 0 <= k < |m.to| && e < |m.to| && Included(g, a, m, nullable, k, e) ==> follow[k] <= follow[e]) &&
    (forall j, q: nat, k :: 0 <= j < |la| && 0 <= k < |m.to| && NumberOf(t, q, j) && LooksBack(g, a, m, q, t.ruleno[j], k) ==>
       follow[k] <= la[j])
  }

  /** Reduction number `j` belongs to state `q`. */
  ghost predicate NumberOf(t: Reductions, q: nat, j: nat) {
    q + 1 < |t.lookaheads| && t.lookaheads[q] <= j < t.lookaheads[q + 1]
  }

  // ---------------------------------------------------------------------
  // initialize_LA
  // ---------------------------------------------------------------------

  method InitializeLA(g: Grammar, a: Automaton) returns (t: Reductions)
    requires IsLR0(g, a)
    ensures ReductionsNumbered(a, t)
  {
    var lookaheads: seq<nat> := [0];
    var ruleno: seq<nat> := [];
    for i := 0 to |a.reductions|
      invariant |lookaheads| == i + 1 && lookaheads[0] == 0 && lookaheads[i] == |ruleno|
      invariant forall q: nat :: q < i ==> NumberedState(a, lookaheads, ruleno, q)
    {
      ghost var l', r' := lookaheads + [|ruleno| + |a.reductions[i]|], ruleno + a.reductions[i];
      forall q: nat | q < i + 1 ensures NumberedState(a, l', r', q) {
        NumberedStep(a, lookaheads, ruleno, i, q);
      }
      ruleno := ruleno + a.reductions[i];
      lookaheads := lookaheads + [|ruleno|];
    }
    t := Reductions(lookaheads, ruleno);
  }

  lemma NumberedStep(a: Automaton, lookaheads: seq<nat>, ruleno: seq<nat>, n: nat, q: nat)
    requires q <= n < |a.reductions| && |lookaheads| == n + 1 && lookaheads[n] == |ruleno|
    requires q < n ==> NumberedState(a, lookaheads, ruleno, q)
    ensures NumberedState(a, lookaheads + [|ruleno| + |a.reductions[n]|], ruleno + a.reductions[n], q)
  {
    var l', r' := lookaheads + [|ruleno| + |a.reductions[n]|], ruleno + a.reductions[n];
    if q < n {
      assert r'[l'[q]..l'[q + 1]] == ruleno[lookaheads[q]..lookaheads[q + 1]];
    }
  }

  // ---------------------------------------------------------------------
  // initialize_F
  // ---------------------------------------------------------------------

  /** `s` holds the tokens that state `q` shifts, before number `n` of its shifts. */
  ghost predicate TokensBefore(g: Grammar, a: Automaton, q: nat, n: nat, s: set<nat>)
  {
    forall t: nat :: t in s <==> 0 < t < g.start && ShiftBefore(a, q, n, t)
  }

  /** Symbol `x` is that of one of the first `n` shifts. */
  ghost predicate ShiftBefore(a: Automaton, q: nat, n: nat, x: int) {
    exists i :: 0 <= i < n && SymbolOf(a, q, i) == x
  }

  lemma ShiftBeforeAll(g: Grammar, a: Automaton, q: nat, x: int)
    requires IsLR0(g, a) && q < |a.states| && x > 0
    ensures ShiftBefore(a, q, |a.shifts[q]|, x) <==> HasGoto(a, q, x)
  {
    if HasGoto(a, q, x) {
      var j: nat :| j < |a.shifts[q]| && a.shifts[q][j] < |a.states| && a.states[a.shifts[q][j]].symbol == x;
      assert SymbolOf(a, q, j) == x;
    }
    if ShiftBefore(a, q, |a.shifts[q]|, x) {
      var i :| 0 <= i < |a.shifts[q]| && SymbolOf(a, q, i) == x;
      SymbolInRange(g, a, q, i);
    }
  }

  /** `l` lists the transitions from `q` on nullable nonterminals, before number `n` of
      its shifts. */
  ghost predicate EdgesBefore(g: Grammar, a: Automaton, nullable: seq<bool>, q: nat, n: nat, l: seq<nat>)
    requires |nullable| == g.nsyms
  {
    (forall e :: e in l ==> exists x :: NullableShift(g, a, nullable, q, n, x) && e == GotoIndex(g, a, q, x)) &&
    (forall x :: NullableShift(g, a, nullable, q, n, x) ==> GotoIndex(g, a, q, x) in l)
  }

  ghost predicate NullableShift(g: Grammar, a: Automaton, nullable: seq<bool>, q: nat, n: nat, x: int)
    requires |nullable| == g.nsyms
  {
    g.start <= x < g.nsyms && nullable[x] && ShiftBefore(a, q, n, x)
  }

  ghost predicate TokensOnly(g: Grammar, a: Automaton, q: nat, n: nat) {
    forall x :: ShiftBefore(a, q, n, x) ==> x < g.start
  }

  /** The first loop over the shifts of the target state: tokens, up to the first
      nonterminal. */
  method ReadTokens(g: Grammar, a: Automaton, F: array<bv32>, n: nat, w: nat, i: nat, q: nat) returns (j: nat, ghost row: set<nat>)
    requires IsLR0(g, a) && q < |a.states| && Matrix(F[..], n, w) && i < n && g.start <= 32 * w
    requires Rows(F[..], n, w)[i] == {}
    modifies F
    ensures Matrix(F[..], n, w) && Rows(F[..], n, w) == old(Rows(F[..], n, w))[i := row]
    ensures j <= |a.shifts[q]| && TokensBefore(g, a, q, |a.shifts[q]|, row)
    ensures j < |a.shifts[q]| ==> SymbolOf(a, q, j) >= g.start
    ensures TokensOnly(g, a, q, j)
  {
    ghost var before := Rows(F[..], n, w);
    row := {};
    j := 0;
    while j < |a.shifts[q]|
      invariant 0 <= j <= |a.shifts[q]| && Matrix(F[..], n, w)
      invariant Rows(F[..], n, w) == before[i := row]
      invariant TokensBefore(g, a, q, j, row)
      invariant TokensOnly(g, a, q, j)
    {
      SymbolInRange(g, a, q, j);
      var symbol := SymbolOf(a, q, j);
      if g.IsVar(symbol) {
        break;
      }
      SetBit(F, n, w, i, symbol);
      TokensBeforeStep(g, a, q, j, row);
      row := row + {symbol};
      j := j + 1;
    }
    NoTokensAfter(g, a, q, j, row);
  }

  lemma TokensBeforeStep(g: Grammar, a: Automaton, q: nat, n: nat, s: set<nat>)
    requires TokensBefore(g, a, q, n, s) && 0 < SymbolOf(a, q, n) < g.start && TokensOnly(g, a, q, n)
    ensures TokensBefore(g, a, q, n + 1, s + {SymbolOf(a, q, n)}) && TokensOnly(g, a, q, n + 1)
  {
    var n' := n + 1;
    forall x ensures ShiftBefore(a, q, n', x) <==> ShiftBefore(a, q, n, x) || x == SymbolOf(a, q, n) {
      ShiftBeforeStep(a, q, n, x);
    }
    assert TokensOnly(g, a, q, n');
  }

  lemma ShiftBeforeStep(a: Automaton, q: nat, n: nat, x: int)
    ensures ShiftBefore(a, q, n + 1, x) <==> ShiftBefore(a, q, n, x) || x == SymbolOf(a, q, n)
  {
  }

  /** Shifts are sorted, so no token comes after the first nonterminal. */
  lemma NoTokensAfter(g: Grammar, a: Automaton, q: nat, j: nat, s: set<nat>)
    requires IsLR0(g, a) && q < |a.states| && j <= |a.shifts[q]| && TokensBefore(g, a, q, j, s)
    requires j < |a.shifts[q]| ==> SymbolOf(a, q, j) >= g.start
    ensures TokensBefore(g, a, q, |a.shifts[q]|, s)
  {
    forall t: nat | 0 < t < g.start ensures ShiftBefore(a, q, |a.shifts[q]|, t) <==> ShiftBefore(a, q, j, t) {
      if ShiftBefore(a, q, |a.shifts[q]|, t) {
        var i: nat :| i < |a.shifts[q]| && SymbolOf(a, q, i) == t;
        if j < i { ShiftsAscend(g, a, q, j, i); }
      }
    }
  }

  /** The second loop: transitions on nullable nonterminals. */
  method ReadEdges(g: Grammar, a: Automaton, m: GotoMap, nullable: array<bool>, q: nat, j0: nat) returns (edge: seq<nat>)
    requires IsLR0(g, a) && q < |a.states| && j0 <= |a.shifts[q]| && GotoMapOK(g, a, m) && nullable.Length == g.nsyms
    requires TokensOnly(g, a, q, j0)
    requires j0 < |a.shifts[q]| ==> SymbolOf(a, q, j0) >= g.start
    ensures EdgesBefore(g, a, nullable[..], q, |a.shifts[q]|, edge)
    ensures forall e :: e in edge ==> e < |m.from|
  {
    edge := [];
    var j := j0;
    while j < |a.shifts[q]|
      invariant j0 <= j <= |a.shifts[q]|
      invariant EdgesBefore(g, a, nullable[..], q, j, edge)
      invariant forall e :: e in edge ==> e < |m.from|
    {
      SymbolInRange(g, a, q, j);
      if j0 < j { ShiftsAscend(g, a, q, j0, j); }
      var symbol := SymbolOf(a, q, j);
      EdgesBeforeStep(g, a, nullable[..], q, j, edge);
      if nullable[symbol] {
        var e := MapGoto(g, a, m, q, symbol);
        edge := edge + [e];
      }
      j := j + 1;
    }
  }

  lemma EdgesBeforeStep(g: Grammar, a: Automaton, nullable: seq<bool>, q: nat, n: nat, l: seq<nat>)
    requires |nullable| == g.nsyms && EdgesBefore(g, a, nullable, q, n, l) && g.start <= SymbolOf(a, q, n) < g.nsyms
    ensures EdgesBefore(g, a, nullable, q, n + 1,
      if nullable[SymbolOf(a, q, n)] then l + [GotoIndex(g, a, q, SymbolOf(a, q, n))] else l)
  {
    forall x ensures NullableShift(g, a, nullable, q, n + 1, x) <==>
      NullableShift(g, a, nullable, q, n, x) || (x == SymbolOf(a, q, n) && nullable[x])
    {
      ShiftBeforeStep(a, q, n, x);
    }
  }

  // ---------------------------------------------------------------------
  // The direct reads and the reads relation
  // ---------------------------------------------------------------------

  ghost predicate DirectReads(g: Grammar, a: Automaton, m: GotoMap, k: nat, s: set<nat>)
    requires k < |m.to|
  {
    forall t: nat :: t in s <==> ReadsToken(g, a, m, k, t)
  }

  ghost predicate ReadsList(g: Grammar, a: Automaton, m: GotoMap, nullable: seq<bool>, k: nat, l: seq<nat>)
    requires k < |m.to| && |nullable| == g.nsyms
  {
    forall e: nat :: e in l <==> Reads(g, a, m, nullable, k, e)
  }

  lemma RowAfterLoops(g: Grammar, a: Automaton, m: GotoMap, k: nat, row: set<nat>)
    requires IsLR0(g, a) && k < |m.to| && m.to[k] < |a.states| && TokensBefore(g, a, m.to[k], |a.shifts[m.to[k]]|, row)
    ensures DirectReads(g, a, m, k, if k == 0 then row + {0} else row)
  {
    forall t: nat | 0 < t < g.start ensures ShiftBefore(a, m.to[k], |a.shifts[m.to[k]]|, t) <==> HasGoto(a, m.to[k], t) {
      ShiftBeforeAll(g, a, m.to[k], t);
    }
  }

  lemma EdgesAfterLoops(g: Grammar, a: Automaton, m: GotoMap, nullable: seq<bool>, k: nat, l: seq<nat>)
    requires IsLR0(g, a) && k < |m.to| && m.to[k] < |a.states| && |nullable| == g.nsyms
    requires EdgesBefore(g, a, nullable, m.to[k], |a.shifts[m.to[k]]|, l)
    ensures ReadsList(g, a, m, nullable, k, l)
  {
    var q := m.to[k];
    forall x | g.start <= x < g.nsyms
      ensures NullableShift(g, a, nullable, q, |a.shifts[q]|, x) <==> ReadsOver(g, a, m, nullable, k, x)
    {
      ShiftBeforeAll(g, a, q, x);
    }
    forall e: nat ensures e in l <==> Reads(g, a, m, nullable, k, e) {
      if e in l {
        var x :| NullableShift(g, a, nullable, q, |a.shifts[q]|, x) && e == GotoIndex(g, a, q, x);
        assert ReadsOver(g, a, m, nullable, k, x);
      }
      if Reads(g, a, m, nullable, k, e) {
        var x :| g.start <= x < g.nsyms && ReadsOver(g, a, m, nullable, k, x) && e == GotoIndex(g, a, m.to[k], x);
        assert NullableShift(g, a, nullable, q, |a.shifts[q]|, x);
      }
    }
  }

  ghost predicate TokenRow(g: Grammar, a: Automaton, q: nat, row: set<nat>) {
    q < |a.states| && q < |a.shifts| && TokensBefore(g, a, q, |a.shifts[q]|, row)
  }

  /** The rows before digraph runs, except for the end marker set last. */
  ghost predicate TokenRows(g: Grammar, a: Automaton, m: GotoMap, rows: seq<set<nat>>, n: nat)
    requires |rows| == |m.to|
  {
    (forall k :: 0 <= k < n && k < |m.to| ==> TokenRow(g, a, m.to[k], rows[k])) &&
    (forall k :: n <= k < |m.to| ==> rows[k] == {})
  }

  ghost predicate ReadsLists(g: Grammar, a: Automaton, m: GotoMap, nullable: seq<bool>, lists: Lists)
    requires |nullable| == g.nsyms && |lists| <= |m.to|
  {
    forall k :: 0 <= k < |lists| ==> ReadsList(g, a, m, nullable, k, lists[k])
  }

  /** initialize_F up to the call of digraph: direct reads and the reads relation. */
  method CollectReads(g: Grammar, a: Automaton, m: GotoMap, nullable: array<bool>, F: array<bv32>) returns (readsOf: Lists)
    requires IsLR0(g, a) && GotoMapOK(g, a, m) && nullable.Length == g.nsyms && (F as object) != (nullable as object)
    requires Matrix(F[..], |m.to|, WordSize(g.start)) && Rows(F[..], |m.to|, WordSize(g.start)) == seq(|m.to|, i => {})
    modifies F
    ensures Matrix(F[..], |m.to|, WordSize(g.start)) && TokenRows(g, a, m, Rows(F[..], |m.to|, WordSize(g.start)), |m.to|)
    ensures |readsOf| == |m.to| && ValidLists(readsOf) && ReadsLists(g, a, m, nullable[..], readsOf)
  {
    hide ReadsList, Matrix, StatesOK, CoresOK;
    var n, w := |m.to|, WordSize(g.start);
    readsOf := [];
    for i := 0 to n
      invariant |readsOf| == i && Matrix(F[..], n, w) && TokenRows(g, a, m, Rows(F[..], n, w), i)
      invariant nullable[..] == old(nullable[..]) && ReadsLists(g, a, m, nullable[..], readsOf)
      invariant forall k, e :: 0 <= k < i && 0 <= e < |readsOf[k]| ==> readsOf[k][e] < n
    {
      ghost var p, x := GotoOfIndex(g, a, m, i);
      GotoOK(g, a, p, x);
      var j, row := ReadTokens(g, a, F, n, w, i, m.to[i]);
      var edge := ReadEdges(g, a, m, nullable, m.to[i], j);
      EdgesAfterLoops(g, a, m, nullable[..], i, edge);
      forall e | 0 <= e < |edge| ensures edge[e] < n {
        assert edge[e] in edge;
      }
      readsOf := readsOf + [edge];
    }
  }

  /** The rows after the end marker has been set for transition 0. */
  lemma RowsAreDirectReads(g: Grammar, a: Automaton, m: GotoMap, rows: seq<set<nat>>, k: nat)
    requires IsLR0(g, a) && |rows| == |m.to| && TokenRows(g, a, m, rows, |m.to|) && k < |m.to|
    ensures DirectReads(g, a, m, k, if k == 0 then rows[k] + {0} else rows[k])
  {
    assert TokenRow(g, a, m.to[k], rows[k]);
    RowAfterLoops(g, a, m, k, rows[k]);
  }

  /** Transition 0 is the one from state 0 on the goal. */
  lemma FirstGoto(g: Grammar, a: Automaton, m: GotoMap)
    requires IsLR0(g, a) && GotoMapOK(g, a, m)
    ensures HasGoto(a, 0, g.Goal()) && GotoIndex(g, a, 0, g.Goal()) == 0 && 0 < |m.to|
    ensures m.from[0] == 0 && m.to[0] == Goto(a, 0, g.Goal())
  {
    StateFacts(g, a, 0);
    assert InClosure(g, a.states[0].items, 1);
    ItemGivesGoto(g, a, 0, 1);
    NoGotoOnAccept(g, a, |a.states|);
    assert Start(g, a, 1) == Start(g, a, 0) + Count(a, g.start, |a.states|);
    GotoIndexInjective(g, a, 0, g.Goal(), 0, g.Goal());
    assert Recorded(g, a, m.from, m.to, 0, g.Goal());
  }

  lemma {:induction false} NoGotoOnAccept(g: Grammar, a: Automaton, q: nat)
    requires IsLR0(g, a) && q <= |a.states|
    ensures Count(a, g.start, q) == 0
  {
    if q > 0 {
      NoGotoOnAccept(g, a, q - 1);
      if HasGoto(a, q - 1, g.start) {
        GotoOK(g, a, q - 1, g.start);
      }
    }
  }

  /** The rows that digraph starts from, and those of its result. */
  ghost predicate ReadsResult(g: Grammar, a: Automaton, m: GotoMap, nullable: seq<bool>, dr: seq<set<nat>>, readsOf: Lists, read: seq<set<nat>>)
    requires |nullable| == g.nsyms
  {
    |dr| == |readsOf| == |m.to| == |read| && ValidLists(readsOf) && ReadsLists(g, a, m, nullable, readsOf) &&
    (forall k :: 0 <= k < |m.to| ==> DirectReads(g, a, m, k, dr[k])) && read == FullRows(readsOf, dr)
  }

  /** initialize_F */
  method InitializeF(g: Grammar, a: Automaton, m: GotoMap, nullable: array<bool>)
    returns (F: array<bv32>, ghost dr: seq<set<nat>>, ghost readsOf: Lists)
    requires IsLR0(g, a) && GotoMapOK(g, a, m) && nullable.Length == g.nsyms
    ensures fresh(F) && Matrix(F[..], |m.to|, WordSize(g.start))
    ensures ReadsResult(g, a, m, nullable[..], dr, readsOf, Rows(F[..], |m.to|, WordSize(g.start)))
  {
    var n, w := |m.to|, WordSize(g.start);
    F := NewMatrix(n, w);
    var lists := CollectReads(g, a, m, nullable, F);
    readsOf := lists;
    FirstGoto(g, a, m);
    ghost var rows := Rows(F[..], n, w);
    SetBit(F, n, w, 0, 0);
    dr := Rows(F[..], n, w);
    forall k | 0 <= k < n ensures DirectReads(g, a, m, k, dr[k]) {
      RowsAreDirectReads(g, a, m, rows, k);
    }
    var d := new Digraph(lists, w, F);
    d.Run(dr);
    assert Rows(F[..], n, w) == FullRows(lists, dr);
  }

  // ---------------------------------------------------------------------
  // transpose
  // ---------------------------------------------------------------------

  /** `t[k]` lists the vertices that have `k` in their lists. */
  ghost predicate Transposed(r: Lists, t: Lists) {
    |t| == |r| && ValidLists(t) &&
    forall i: nat, k: nat :: i < |r| && k < |r| ==> (i in t[k] <==> k in r[i])
  }

  ghost predicate TransposedUpto(r: Lists, t: seq<seq<nat>>, n: nat)
    requires n <= |r|
  {
    |t| == |r| && (forall k, e :: 0 <= k < |t| && 0 <= e < |t[k]| ==> t[k][e] < |r|) &&
    forall i: nat, k: nat :: i < |r| && k < |r| ==> (i in t[k] <==> i < n && k in r[i])
  }

  method Transpose(r: Lists) returns (t: Lists)
    requires ValidLists(r)
    ensures Transposed(r, t)
  {
    var newR := new seq<nat>[|r|](_ => []);
    for i := 0 to |r|
      invariant TransposedUpto(r, newR[..], i)
    {
      ghost var before := newR[..];
      AppendToAll(newR, r[i], i, |r|);
    }
    t := newR[..];
  }

  /** Append `i` to every list named in `l`. */
  method AppendToAll(newR: array<seq<nat>>, l: seq<nat>, i: nat, n: nat)
    requires newR.Length == n && i < n && (forall s :: 0 <= s < |l| ==> l[s] < n)
    requires forall k, e :: 0 <= k < n && 0 <= e < |newR[k]| ==> newR[k][e] < n
    modifies newR
    ensures forall k, e :: 0 <= k < n && 0 <= e < |newR[k]| ==> newR[k][e] < n
    ensures forall v, k :: 0 <= k < n ==> (v in newR[k] <==> v in old(newR[k]) || (v == i && k in l))
  {
    for s := 0 to |l|
      invariant forall k, e :: 0 <= k < n && 0 <= e < |newR[k]| ==> newR[k][e] < n
      invariant forall v, k :: 0 <= k < n ==> (v in newR[k] <==> v in old(newR[k]) || (v == i && k in l[..s]))
    {
      ghost var before := newR[l[s]];
      newR[l[s]] := newR[l[s]] + [i];
      assert forall v :: v in newR[l[s]] <==> v in before || v == i;
      assert l[..s + 1] == l[..s] + [l[s]];
    }
    assert l[..|l|] == l;
  }

  // ---------------------------------------------------------------------
  // build_relations
  // ---------------------------------------------------------------------

  /** The linear search for the shift on symbol `x`. */
  method FindShift(g: Grammar, a: Automaton, q: nat, x: int) returns (t: nat)
    requires IsLR0(g, a) && q < |a.states| && HasGoto(a, q, x)
    ensures t == Goto(a, q, x) && t < |a.states|
  {
    t := q;
    var j := 0;
    while j < |a.shifts[q]|
      invariant 0 <= j <= |a.shifts[q]|
      invariant forall i :: 0 <= i < j ==> SymbolOf(a, q, i) != x
    {
      SymbolInRange(g, a, q, j);
      t := a.shifts[q][j];
      if a.states[t].symbol == x {
        return t;
      }
      j := j + 1;
    }
    NotAmongShifts(g, a, q, x);
  }

  lemma NotAmongShifts(g: Grammar, a: Automaton, q: nat, x: int)
    requires IsLR0(g, a) && q < |a.states| && forall i :: 0 <= i < |a.shifts[q]| ==> SymbolOf(a, q, i) != x
    ensures !HasGoto(a, q, x)
  {
    if HasGoto(a, q, x) {
      var i: nat :| i < |a.shifts[q]| && a.shifts[q][i] < |a.states| && a.states[a.shifts[q][i]].symbol == x;
      SymbolInRange(g, a, q, i);
    }
  }

  /** `states[d]` is the state reached from `p` over the first `d` symbols of rule `r`. */
  ghost predicate PathOf(g: Grammar, a: Automaton, p: nat, r: nat, states: seq<nat>)
    requires g.WellFormed() && 2 <= r < g.nrules
  {
    |states| <= |g.Rhs(r)| + 1 &&
    forall d: nat :: d < |states| ==> OnPath(g, a, p, r, d, states[d])
  }

  ghost predicate OnPath(g: Grammar, a: Automaton, p: nat, r: nat, d: nat, q: nat)
    requires g.WellFormed() && 2 <= r < g.nrules && d <= |g.Rhs(r)|
  {
    q < |a.states| && CanRun(a, p, g.Rhs(r)[..d]) && Run(a, p, g.Rhs(r)[..d]) == q
  }

  lemma PathStep(g: Grammar, a: Automaton, p: nat, r: nat, d: nat, q: nat)
    requires IsLR0(g, a) && p < |a.states| && 2 <= r < g.nrules && HasGoto(a, p, g.rlhs[r])
    requires d < |g.Rhs(r)| && OnPath(g, a, p, r, d, q)
    ensures HasGoto(a, q, g.Rhs(r)[d]) && OnPath(g, a, p, r, d + 1, Goto(a, q, g.Rhs(r)[d]))
  {
    RulesOfGoto(g, a, p, r);
    FollowRule(g, a, p, r, d + 1);
    var w := g.Rhs(r);
    assert w[..d + 1][..d] == w[..d];
  }

  lemma PathMore(g: Grammar, a: Automaton, p: nat, r: nat, states: seq<nat>)
    requires IsLR0(g, a) && p < |a.states| && 2 <= r < g.nrules && HasGoto(a, p, g.rlhs[r])
    requires 0 < |states| <= |g.Rhs(r)| && PathOf(g, a, p, r, states)
    ensures var d, q := |states| - 1, states[|states| - 1];
      q < |a.states| && HasGoto(a, q, g.Rhs(r)[d]) && PathOf(g, a, p, r, states + [Goto(a, q, g.Rhs(r)[d])])
  {
    hide IsLR0, OnPath, HasGoto, Goto;
    LR0Grammar(g, a);
    var d, q := |states| - 1, states[|states| - 1];
    assert OnPath(g, a, p, r, d, q);
    OnPathIn(g, a, p, r, d, q);
    PathStep(g, a, p, r, d, q);
  }

  lemma OnPathIn(g: Grammar, a: Automaton, p: nat, r: nat, d: nat, q: nat)
    requires g.WellFormed() && 2 <= r < g.nrules && d <= |g.Rhs(r)| && OnPath(g, a, p, r, d, q)
    ensures q < |a.states|
  {
  }

  lemma PathStart(g: Grammar, a: Automaton, p: nat, r: nat)
    requires g.WellFormed() && 2 <= r < g.nrules && p < |a.states|
    ensures PathOf(g, a, p, r, [p])
  {
    assert g.Rhs(r)[..0] == [];
    assert OnPath(g, a, p, r, 0, p);
  }

  lemma LR0Grammar(g: Grammar, a: Automaton)
    requires IsLR0(g, a)
    ensures g.WellFormed() && |g.rrhs| == g.nrules + 1
  {
  }

  /** The loop that follows the symbols of a rule, remembering the states. */
  method WalkRule(g: Grammar, a: Automaton, p: nat, r: nat) returns (states: seq<nat>, rp: int)
    requires IsLR0(g, a) && p < |a.states| && 2 <= r < g.nrules && HasGoto(a, p, g.rlhs[r])
    ensures |states| == |g.Rhs(r)| + 1 && PathOf(g, a, p, r, states)
    ensures rp == g.rrhs[r] + |g.Rhs(r)|
  {
    hide IsLR0, Grammar.WellFormed, Grammar.Rhs, PathOf, HasGoto, Goto;
    LR0Grammar(g, a);
    states := [p];
    PathStart(g, a, p, r);
    rp := g.rrhs[r];
    var stateno := p;
    RuleEnd(g, r, 0);
    while g.ritem[rp] >= 0
      invariant g.rrhs[r] <= rp <= g.rrhs[r] + |g.Rhs(r)| && rp < |g.ritem| && (g.ritem[rp] >= 0 <==> rp - g.rrhs[r] < |g.Rhs(r)|)
      invariant |states| == rp - g.rrhs[r] + 1
      invariant PathOf(g, a, p, r, states) && stateno == states[|states| - 1]
      decreases g.rrhs[r] + |g.Rhs(r)| - rp
    {
      ghost var d := rp - g.rrhs[r];
      RuleEnd(g, r, d);
      PathMore(g, a, p, r, states);
      stateno := FindShift(g, a, stateno, g.ritem[rp]);
      states := states + [stateno];
      RuleEnd(g, r, d + 1);
      rp := rp + 1;
    }
  }

  lemma TokenNotNullable(g: Grammar, nullable: seq<bool>, x: int)
    requires g.WellFormed() && NullTable(g, nullable) && 0 <= x < g.start
    ensures x < g.nsyms && !nullable[x]
  {
    TokenStays(g, x);
  }

  /** Place `d` of rule `r` gives edges that have been collected from place `low` on. */
  ghost predicate EdgesFrom(g: Grammar, a: Automaton, m: GotoMap, nullable: seq<bool>, k: nat, r: nat, low: int, edge: seq<nat>)
    requires g.WellFormed() && k < |m.from| && 2 <= r < g.nrules
  {
    (forall e :: e in edge ==> exists d: nat :: low <= d < |g.Rhs(r)| && IncludedAt(g, a, m, nullable, k, r, d, e)) &&
    (forall d: nat, e: nat :: low <= d < |g.Rhs(r)| && IncludedAt(g, a, m, nullable, k, r, d, e) ==> e in edge)
  }

  /** The backward loop of build_relations over the right side of rule `r`. */
  method EdgesOfRule(g: Grammar, a: Automaton, m: GotoMap, nullable: array<bool>, k: nat, r: nat, states: seq<nat>, rp0: int)
    returns (edge: seq<nat>)
    requires IsLR0(g, a) && GotoMapOK(g, a, m) && nullable.Length == g.nsyms && NullTable(g, nullable[..])
    requires k < |m.from| && 2 <= r < g.nrules && m.from[k] < |a.states| && HasGoto(a, m.from[k], g.rlhs[r])
    requires |states| == |g.Rhs(r)| + 1 && PathOf(g, a, m.from[k], r, states) && rp0 == g.rrhs[r] + |g.Rhs(r)|
    ensures EdgesFrom(g, a, m, nullable[..], k, r, 0, edge)
    ensures forall e :: e in edge ==> e < |m.from|
  {
    g.GetRule(r);
    edge := [];
    var rp, length := rp0, |states| - 1;
    var done := false;
    while !done
      invariant 0 <= length <= |g.Rhs(r)| && (!done ==> rp == g.rrhs[r] + length)
      invariant EdgesFrom(g, a, m, nullable[..], k, r, if done then 0 else length, edge)
      invariant !done ==> RestNullable(nullable[..], g.Rhs(r), length - 1)
      invariant forall e :: e in edge ==> e < |m.from|
      decreases length, !done
    {
      done, rp, length, edge := EdgeAt(g, a, m, nullable, k, r, states, rp, length, edge);
    }
  }

  method EdgeAt(g: Grammar, a: Automaton, m: GotoMap, nullable: array<bool>, k: nat, r: nat, states: seq<nat>, rp0: int,
                length0: nat, edge0: seq<nat>)
    returns (done: bool, rp: int, length: nat, edge: seq<nat>)
    requires IsLR0(g, a) && GotoMapOK(g, a, m) && nullable.Length == g.nsyms && NullTable(g, nullable[..])
    requires k < |m.from| && 2 <= r < g.nrules && m.from[k] < |a.states| && HasGoto(a, m.from[k], g.rlhs[r])
    requires |states| == |g.Rhs(r)| + 1 && PathOf(g, a, m.from[k], r, states)
    requires length0 <= |g.Rhs(r)| && rp0 == g.rrhs[r] + length0
    requires EdgesFrom(g, a, m, nullable[..], k, r, length0, edge0) && RestNullable(nullable[..], g.Rhs(r), length0 - 1)
    requires forall e :: e in edge0 ==> e < |m.from|
    ensures length <= length0 && (done || length < length0) && (!done ==> rp == g.rrhs[r] + length)
    ensures EdgesFrom(g, a, m, nullable[..], k, r, if done then 0 else length, edge)
    ensures !done ==> RestNullable(nullable[..], g.Rhs(r), length - 1)
    ensures forall e :: e in edge ==> e < |m.from|
  {
    g.GetRule(r);
    rp := rp0 - 1;
    BeforeRule(g, r);
    if g.IsVar(g.ritem[rp]) {
      length := length0 - 1;
      done, edge := VarEdgeAt(g, a, m, nullable, k, r, states, length, edge0);
    } else {
      done, length, edge := true, length0, edge0;
      if length > 0 {
        ItemAt(g, r, length - 1);
        TokenNotNullable(g, nullable[..], g.ritem[rp]);
        NothingBefore(g, a, m, nullable[..], k, r, length - 1, edge);
      }
    }
  }

  /** The case of a nonterminal at place `d`. */
  method VarEdgeAt(g: Grammar, a: Automaton, m: GotoMap, nullable: array<bool>, k: nat, r: nat, states: seq<nat>, d: nat, edge0: seq<nat>)
    returns (done: bool, edge: seq<nat>)
    requires IsLR0(g, a) && GotoMapOK(g, a, m) && nullable.Length == g.nsyms
    requires k < |m.from| && 2 <= r < g.nrules && m.from[k] < |a.states| && HasGoto(a, m.from[k], g.rlhs[r])
    requires |states| == |g.Rhs(r)| + 1 && PathOf(g, a, m.from[k], r, states)
    requires d < |g.Rhs(r)| && g.IsVar(SymAt(g, g.rrhs[r] + d))
    requires EdgesFrom(g, a, m, nullable[..], k, r, d + 1, edge0) && RestNullable(nullable[..], g.Rhs(r), d)
    requires forall e :: e in edge0 ==> e < |m.from|
    ensures EdgesFrom(g, a, m, nullable[..], k, r, if done then 0 else d, edge)
    ensures !done ==> RestNullable(nullable[..], g.Rhs(r), d - 1)
    ensures forall e :: e in edge ==> e < |m.from|
  {
    var e := PathEdge(g, a, m, nullable[..], k, r, states, d);
    edge := edge0 + [e];
    EdgesStep(g, a, m, nullable[..], k, r, d, edge0, e);
    done := !(nullable[SymAt(g, g.rrhs[r] + d)] && d > 0);
    if !nullable[SymAt(g, g.rrhs[r] + d)] {
      NothingBefore(g, a, m, nullable[..], k, r, d, edge);
    }
  }

  /** The transition taken at place `d` of the path. */
  method PathEdge(g: Grammar, a: Automaton, m: GotoMap, ghost nullable: seq<bool>, k: nat, r: nat, states: seq<nat>, d: nat)
    returns (e: nat)
    requires IsLR0(g, a) && GotoMapOK(g, a, m)
    requires k < |m.from| && 2 <= r < g.nrules && m.from[k] < |a.states| && HasGoto(a, m.from[k], g.rlhs[r])
    requires |states| == |g.Rhs(r)| + 1 && PathOf(g, a, m.from[k], r, states)
    requires d < |g.Rhs(r)| && g.IsVar(SymAt(g, g.rrhs[r] + d)) && RestNullable(nullable, g.Rhs(r), d)
    ensures e < |m.from| && IncludedAt(g, a, m, nullable, k, r, d, e)
    ensures SymAt(g, g.rrhs[r] + d) == g.Rhs(r)[d] < g.nsyms
  {
    g.GetRule(r);
    var symbol := SymAt(g, g.rrhs[r] + d);
    assert symbol == g.Rhs(r)[d];
    var stateno := states[d];
    assert OnPath(g, a, m.from[k], r, d, stateno);
    PathStep(g, a, m.from[k], r, d, stateno);
    GotoOK(g, a, stateno, symbol);
    e := MapGoto(g, a, m, stateno, symbol);
  }

  /** Before the first symbol of a rule stands an end mark, not a nonterminal. */
  lemma ItemAt(g: Grammar, r: nat, d: nat)
    requires g.WellFormed() && 2 <= r < g.nrules && d < |g.Rhs(r)|
    ensures 0 <= g.rrhs[r] + d < |g.ritem| && g.ritem[g.rrhs[r] + d] == g.Rhs(r)[d] && 0 <= g.Rhs(r)[d] < g.nsyms
  {
    g.GetRule(r);
  }

  lemma BeforeRule(g: Grammar, r: nat)
    requires g.WellFormed() && 2 <= r < g.nrules
    ensures 0 <= g.rrhs[r] - 1 < |g.ritem| && g.ritem[g.rrhs[r] - 1] < 0
  {
    g.GetRule(r);
    if r > 2 { g.GetRule(r - 1); }
  }

  lemma EdgesStep(g: Grammar, a: Automaton, m: GotoMap, nullable: seq<bool>, k: nat, r: nat, d: nat, edge: seq<nat>, e: nat)
    requires g.WellFormed() && k < |m.from| && 2 <= r < g.nrules && d < |g.Rhs(r)|
    requires EdgesFrom(g, a, m, nullable, k, r, d + 1, edge)
    requires IncludedAt(g, a, m, nullable, k, r, d, e)
    ensures EdgesFrom(g, a, m, nullable, k, r, d, edge + [e])
  {
    forall f | f in edge + [e] ensures exists c: nat :: d <= c < |g.Rhs(r)| && IncludedAt(g, a, m, nullable, k, r, c, f) {
      if f in edge {
        var c: nat :| d + 1 <= c < |g.Rhs(r)| && IncludedAt(g, a, m, nullable, k, r, c, f);
      }
    }
    forall c: nat, f: nat | d <= c < |g.Rhs(r)| && IncludedAt(g, a, m, nullable, k, r, c, f) ensures f in edge + [e] {
    }
  }

  /** Places before a symbol that is not nullable give no edges. */
  lemma NothingBefore(g: Grammar, a: Automaton, m: GotoMap, nullable: seq<bool>, k: nat, r: nat, d: nat, edge: seq<nat>)
    requires g.WellFormed() && k < |m.from| && 2 <= r < g.nrules && d < |g.Rhs(r)|
    requires 0 <= g.Rhs(r)[d] < |nullable| && !nullable[g.Rhs(r)[d]]
    requires EdgesFrom(g, a, m, nullable, k, r, d, edge) || (!g.IsVar(g.Rhs(r)[d]) && EdgesFrom(g, a, m, nullable, k, r, d + 1, edge))
    ensures EdgesFrom(g, a, m, nullable, k, r, 0, edge)
  {
    forall c: nat, e: nat | c < |g.Rhs(r)| && IncludedAt(g, a, m, nullable, k, r, c, e) ensures e in edge {
    }
    forall e | e in edge ensures exists c: nat :: c < |g.Rhs(r)| && IncludedAt(g, a, m, nullable, k, r, c, e) {
      var c: nat :| d <= c < |g.Rhs(r)| && IncludedAt(g, a, m, nullable, k, r, c, e);
    }
  }

  /** Two reductions of one number, or of one state and rule, are the same. */
  lemma {:induction false} BlocksApart(a: Automaton, t: Reductions, q: nat, p: nat)
    requires ReductionsNumbered(a, t) && q < p <= |a.reductions|
    ensures t.lookaheads[q + 1] <= t.lookaheads[p]
    decreases p
  {
    if q < p - 1 {
      BlocksApart(a, t, q, p - 1);
      assert NumberedState(a, t.lookaheads, t.ruleno, p - 1);
    }
  }

  lemma NumberUnique(g: Grammar, a: Automaton, t: Reductions, q: nat, j: nat, q': nat, j': nat)
    requires IsLR0(g, a) && ReductionsNumbered(a, t) && NumberOf(t, q, j) && NumberOf(t, q', j')
    ensures j < |t.ruleno| && j' < |t.ruleno|
    ensures j == j' ==> q == q'
    ensures q == q' && t.ruleno[j] == t.ruleno[j'] ==> j == j'
  {
    assert NumberedState(a, t.lookaheads, t.ruleno, q) && NumberedState(a, t.lookaheads, t.ruleno, q');
    if q < q' {
      BlocksApart(a, t, q, q');
    } else if q' < q {
      BlocksApart(a, t, q', q);
    } else {
      StateFacts(g, a, q);
      var l := t.lookaheads[q];
      var b := t.ruleno[l..t.lookaheads[q + 1]];
      assert b[j - l] == t.ruleno[j] && b[j' - l] == t.ruleno[j'];
    }
  }

  /** `l` lists transitions to look back to: those below `n`, and `n` itself for the
      rules in `done`. */
  ghost predicate LookbackList(g: Grammar, a: Automaton, m: GotoMap, q: nat, r: nat, n: nat, done: seq<nat>, l: seq<nat>)
    requires g.WellFormed() && |m.from| == |m.to|
  {
    forall k: nat :: k in l <==> k < |m.from| && LooksBack(g, a, m, q, r, k) && (k < n || (k == n && r in done))
  }

  ghost predicate Lookbacks(g: Grammar, a: Automaton, m: GotoMap, t: Reductions, n: nat, done: seq<nat>, lb: seq<seq<nat>>)
    requires g.WellFormed() && |m.from| == |m.to|
  {
    |lb| == |t.ruleno| &&
    forall j: nat, q: nat :: NumberOf(t, q, j) && j < |lb| ==> LookbackList(g, a, m, q, t.ruleno[j], n, done, lb[j])
  }

  /** add_lookback_edge */
  method AddLookbackEdge(g: Grammar, a: Automaton, m: GotoMap, t: Reductions, lookback: array<seq<nat>>, stateno: nat, ruleno: nat,
                         gotono: nat, ghost done: seq<nat>)
    requires IsLR0(g, a) && |m.from| == |m.to| && ReductionsNumbered(a, t) && stateno < |a.reductions| && gotono < |m.from|
    requires ruleno in a.reductions[stateno] && LooksBack(g, a, m, stateno, ruleno, gotono)
    requires Lookbacks(g, a, m, t, gotono, done, lookback[..])
    modifies lookback
    ensures Lookbacks(g, a, m, t, gotono, done + [ruleno], lookback[..])
  {
    assert NumberedState(a, t.lookaheads, t.ruleno, stateno);
    var i, k := t.lookaheads[stateno], t.lookaheads[stateno + 1];
    var found := false;
    while !found && i < k
      invariant t.lookaheads[stateno] <= i <= k
      invariant found ==> i < k && t.ruleno[i] == ruleno
      invariant !found ==> forall j :: t.lookaheads[stateno] <= j < i ==> t.ruleno[j] != ruleno
      decreases k - i, !found
    {
      if t.ruleno[i] == ruleno {
        found := true;
      } else {
        i := i + 1;
      }
    }
    RuleHasNumber(a, t, stateno, ruleno);
    assert found && NumberOf(t, stateno, i);
    ghost var before := lookback[..];
    lookback[i] := [gotono] + lookback[i];
    forall j: nat, q: nat | NumberOf(t, q, j) && j < |before|
      ensures LookbackList(g, a, m, q, t.ruleno[j], gotono, done + [ruleno], lookback[j])
    {
      LookbackStep(g, a, m, t, before, stateno, ruleno, gotono, done, i, q, j);
    }
  }

  lemma RuleHasNumber(a: Automaton, t: Reductions, q: nat, r: nat)
    requires q < |a.reductions| && NumberedState(a, t.lookaheads, t.ruleno, q) && r in a.reductions[q]
    ensures exists j :: t.lookaheads[q] <= j < t.lookaheads[q + 1] && t.ruleno[j] == r
  {
    var l := t.lookaheads[q];
    var e :| 0 <= e < |a.reductions[q]| && a.reductions[q][e] == r;
    assert t.ruleno[l..t.lookaheads[q + 1]][e] == t.ruleno[l + e];
  }

  lemma LookbackStep(g: Grammar, a: Automaton, m: GotoMap, t: Reductions, lb: seq<seq<nat>>, stateno: nat, ruleno: nat,
                     gotono: nat, done: seq<nat>, i: nat, q: nat, j: nat)
    requires IsLR0(g, a) && |m.from| == |m.to| && ReductionsNumbered(a, t) && gotono < |m.from|
    requires LooksBack(g, a, m, stateno, ruleno, gotono) && Lookbacks(g, a, m, t, gotono, done, lb)
    requires NumberOf(t, stateno, i) && i < |lb| && t.ruleno[i] == ruleno && NumberOf(t, q, j) && j < |lb|
    ensures LookbackList(g, a, m, q, t.ruleno[j], gotono, done + [ruleno], if j == i then [gotono] + lb[i] else lb[j])
  {
    NumberUnique(g, a, t, stateno, i, q, j);
    assert LookbackList(g, a, m, q, t.ruleno[j], gotono, done, lb[j]);
    if t.ruleno[j] == ruleno && LooksBack(g, a, m, q, ruleno, gotono) {
      assert q == stateno && j == i;
    }
  }

  /** The edges of transition `k` for the rules in `done`. */
  ghost predicate EdgesForRules(g: Grammar, a: Automaton, m: GotoMap, nullable: seq<bool>, k: nat, done: seq<nat>, edge: seq<nat>)
    requires g.WellFormed() && k < |m.from|
  {
    (forall r :: r in done ==> 2 <= r < g.nrules) &&
    (forall e :: e in edge ==> exists r :: r in done && RuleGives(g, a, m, nullable, k, r, e)) &&
    (forall r, e: nat :: r in done && RuleGives(g, a, m, nullable, k, r, e) ==> e in edge)
  }

  ghost predicate RuleGives(g: Grammar, a: Automaton, m: GotoMap, nullable: seq<bool>, k: nat, r: nat, e: nat)
    requires g.WellFormed() && k < |m.from|
  {
    2 <= r < g.nrules && exists d: nat :: d < |g.Rhs(r)| && IncludedAt(g, a, m, nullable, k, r, d, e)
  }

  lemma EdgesForRulesStep(g: Grammar, a: Automaton, m: GotoMap, nullable: seq<bool>, k: nat, done: seq<nat>, edge: seq<nat>,
                          r: nat, more: seq<nat>)
    requires g.WellFormed() && k < |m.from| && 2 <= r < g.nrules
    requires EdgesForRules(g, a, m, nullable, k, done, edge) && EdgesFrom(g, a, m, nullable, k, r, 0, more)
    ensures EdgesForRules(g, a, m, nullable, k, done + [r], edge + more)
  {
    forall e: nat ensures RuleGives(g, a, m, nullable, k, r, e) <==> e in more {
      if RuleGives(g, a, m, nullable, k, r, e) {
        var d: nat :| d < |g.Rhs(r)| && IncludedAt(g, a, m, nullable, k, r, d, e);
      }
    }
  }

  /** The body of the outer loop of build_relations for transition `i`. */
  method RelationsOf(g: Grammar, a: Automaton, m: GotoMap, nullable: array<bool>, derives: seq<seq<nat>>, t: Reductions,
                     lookback: array<seq<nat>>, i: nat)
    returns (edge: seq<nat>)
    requires IsLR0(g, a) && GotoMapOK(g, a, m) && nullable.Length == g.nsyms && NullTable(g, nullable[..])
    requires DerivesTable(g, derives) && ReductionsNumbered(a, t) && i < |m.from|
    requires (lookback as object) != (nullable as object) && Lookbacks(g, a, m, t, i, [], lookback[..])
    modifies lookback
    ensures Lookbacks(g, a, m, t, i + 1, [], lookback[..])
    ensures forall e: nat :: e in edge <==> Included(g, a, m, nullable[..], i, e)
    ensures forall e :: e in edge ==> e < |m.from|
  {
    ghost var p, x := GotoOfIndex(g, a, m, i);
    var state1 := m.from[i];
    var symbol1 := a.states[m.to[i]].symbol;
    edge := [];
    var rules := derives[symbol1];
    for c := 0 to |rules|
      invariant nullable[..] == old(nullable[..])
      invariant Lookbacks(g, a, m, t, i, rules[..c], lookback[..])
      invariant EdgesForRules(g, a, m, nullable[..], i, rules[..c], edge)
      invariant forall e :: e in edge ==> e < |m.from|
    {
      var r := rules[c];
      assert r in rules && rules[..c + 1] == rules[..c] + [r];
      RuleRange(g, derives, symbol1, r);
      var states, rp := WalkRule(g, a, state1, r);
      RuleLooksBack(g, a, m, i, r, states);
      AddLookbackEdge(g, a, m, t, lookback, states[|states| - 1], r, i, rules[..c]);
      var more := EdgesOfRule(g, a, m, nullable, i, r, states, rp);
      EdgesForRulesStep(g, a, m, nullable[..], i, rules[..c], edge, r, more);
      edge := edge + more;
    }
    assert rules[..|rules|] == rules;
    AllRulesDone(g, a, m, nullable[..], derives, t, lookback[..], i, edge);
  }

  lemma RuleLooksBack(g: Grammar, a: Automaton, m: GotoMap, i: nat, r: nat, states: seq<nat>)
    requires IsLR0(g, a) && i < |m.from| == |m.to| && RuleOf(g, a, m, i, r) && m.from[i] < |a.states| && HasGoto(a, m.from[i], g.rlhs[r])
    requires |states| == |g.Rhs(r)| + 1 && PathOf(g, a, m.from[i], r, states)
    ensures var q := states[|states| - 1];
      q < |a.reductions| && r in a.reductions[q] && LooksBack(g, a, m, q, r, i)
  {
    FollowToReduction(g, a, m.from[i], r);
    var w := g.Rhs(r);
    assert w[..|w|] == w;
    assert OnPath(g, a, m.from[i], r, |w|, states[|w|]);
  }

  lemma AllRulesDone(g: Grammar, a: Automaton, m: GotoMap, nullable: seq<bool>, derives: seq<seq<nat>>, t: Reductions,
                     lb: seq<seq<nat>>, i: nat, edge: seq<nat>)
    requires IsLR0(g, a) && i < |m.from| == |m.to| && DerivesTable(g, derives)
    requires m.to[i] < |a.states| && g.start <= a.states[m.to[i]].symbol < g.nsyms
    requires Lookbacks(g, a, m, t, i, derives[a.states[m.to[i]].symbol], lb)
    requires EdgesForRules(g, a, m, nullable, i, derives[a.states[m.to[i]].symbol], edge)
    ensures Lookbacks(g, a, m, t, i + 1, [], lb)
    ensures forall e: nat :: e in edge <==> Included(g, a, m, nullable, i, e)
  {
    var x := a.states[m.to[i]].symbol;
    forall r: nat ensures RuleOf(g, a, m, i, r) <==> r in derives[x] {
      if r in derives[x] { RuleRange(g, derives, x, r); }
    }
    forall j: nat, q: nat | NumberOf(t, q, j) && j < |lb| ensures LookbackList(g, a, m, q, t.ruleno[j], i + 1, [], lb[j]) {
      assert LookbackList(g, a, m, q, t.ruleno[j], i, derives[x], lb[j]);
    }
    forall e: nat ensures e in edge <==> Included(g, a, m, nullable, i, e) {
      if e in edge {
        var r :| r in derives[x] && RuleGives(g, a, m, nullable, i, r, e);
        var d: nat :| d < |g.Rhs(r)| && IncludedAt(g, a, m, nullable, i, r, d, e);
        assert RuleOf(g, a, m, i, r);
      }
      if Included(g, a, m, nullable, i, e) {
        var r, d: nat :| RuleOf(g, a, m, i, r) && d < |g.Rhs(r)| && IncludedAt(g, a, m, nullable, i, r, d, e);
        assert RuleGives(g, a, m, nullable, i, r, e);
      }
    }
  }

  /** `lists[k]` are the transitions included at `k`, before the transposition. */
  ghost predicate IncludesLists(g: Grammar, a: Automaton, m: GotoMap, nullable: seq<bool>, lists: Lists)
    requires g.WellFormed() && |m.from| == |m.to| && |lists| <= |m.from|
  {
    forall k :: 0 <= k < |lists| ==> IncludesList(g, a, m, nullable, k, lists[k])
  }

  ghost predicate IncludesList(g: Grammar, a: Automaton, m: GotoMap, nullable: seq<bool>, k: nat, l: seq<nat>)
    requires g.WellFormed() && k < |m.from| == |m.to|
  {
    forall e: nat :: e in l <==> Included(g, a, m, nullable, k, e)
  }

  /** build_relations: the lookback lists, and the transposed includes relation. */
  method BuildRelations(g: Grammar, a: Automaton, m: GotoMap, nullable: array<bool>, derives: seq<seq<nat>>, t: Reductions)
    returns (lookback: array<seq<nat>>, includes: Lists, ghost untransposed: Lists)
    requires IsLR0(g, a) && GotoMapOK(g, a, m) && nullable.Length == g.nsyms && NullTable(g, nullable[..])
    requires DerivesTable(g, derives) && ReductionsNumbered(a, t)
    ensures fresh(lookback) && Lookbacks(g, a, m, t, |m.from|, [], lookback[..])
    ensures |untransposed| == |m.from| && ValidLists(untransposed) && IncludesLists(g, a, m, nullable[..], untransposed)
    ensures Transposed(untransposed, includes)
  {
    lookback := new seq<nat>[|t.ruleno|](_ => []);
    var lists: Lists := [];
    for i := 0 to |m.from|
      invariant fresh(lookback) && nullable[..] == old(nullable[..])
      invariant |lists| == i && IncludesLists(g, a, m, nullable[..], lists)
      invariant forall k, e :: 0 <= k < i && 0 <= e < |lists[k]| ==> lists[k][e] < |m.from|
      invariant Lookbacks(g, a, m, t, i, [], lookback[..])
    {
      var edge := RelationsOf(g, a, m, nullable, derives, t, lookback, i);
      forall e | 0 <= e < |edge| ensures edge[e] < |m.from| {
        assert edge[e] in edge;
      }
      lists := lists + [edge];
    }
    untransposed := lists;
    includes := Transpose(lists);
  }

  // ---------------------------------------------------------------------
  // compute_FOLLOWS and compute_lookaheads
  // ---------------------------------------------------------------------

  /** Everything in the rows that `l` names. */
  ghost function UnionOf(rows: seq<set<nat>>, l: seq<nat>): (s: set<nat>)
    ensures forall k :: k in l && k < |rows| ==> rows[k] <= s
    ensures forall x :: x in s ==> exists k :: k in l && k < |rows| && x in rows[k]
  {
    set k, x | k in l && k < |rows| && x in rows[k] :: x
  }

  /** Or row `j` of one matrix into row `i` of another. */
  method OrRowFrom(LA: array<bv32>, n: nat, w: nat, i: nat, F: array<bv32>, nf: nat, j: nat)
    requires Matrix(LA[..], n, w) && Matrix(F[..], nf, w) && i < n && j < nf && LA != F
    modifies LA
    ensures Matrix(LA[..], n, w)
    ensures Rows(LA[..], n, w) == old(Rows(LA[..], n, w))[i := old(Rows(LA[..], n, w))[i] + Rows(F[..], nf, w)[j]]
  {
    RowStartMonotone(i, n, w);
    RowStartMonotone(j, nf, w);
    var s, t := RowStart(i, w), RowStart(j, w);
    ghost var before := LA[..];
    ghost var f := F[..];
    OrInto(LA, s, F, t, w);
    MembersOfOr(before[s..s + w], f[t..t + w], LA[..][s..s + w]);
    RowsAfterWrite(before, LA[..], n, w, i);
  }

  /** The loop over one lookback list. */
  method OrLookbacks(LA: array<bv32>, n: nat, w: nat, i: nat, F: array<bv32>, nf: nat, l: seq<nat>)
    requires Matrix(LA[..], n, w) && Matrix(F[..], nf, w) && i < n && LA != F
    requires (forall k :: k in l ==> k < nf) && Rows(LA[..], n, w)[i] == {}
    modifies LA
    ensures Matrix(LA[..], n, w)
    ensures Rows(LA[..], n, w) == old(Rows(LA[..], n, w))[i := UnionOf(Rows(F[..], nf, w), l)]
  {
    ghost var before, f := Rows(LA[..], n, w), Rows(F[..], nf, w);
    assert UnionOf(f, l[..0]) == {};
    assert before[i := {}] == before;
    for sp := 0 to |l|
      invariant Matrix(LA[..], n, w) && F[..] == old(F[..])
      invariant Rows(LA[..], n, w) == before[i := UnionOf(f, l[..sp])]
    {
      assert l[sp] in l && l[..sp + 1] == l[..sp] + [l[sp]];
      assert UnionOf(f, l[..sp + 1]) == UnionOf(f, l[..sp]) + f[l[sp]];
      OrRowFrom(LA, n, w, i, F, nf, l[sp]);
    }
    assert l[..|l|] == l;
  }

  /** compute_lookaheads, with the zeroed rows that initialize_LA allocates. */
  method ComputeLookaheads(LA: array<bv32>, w: nat, F: array<bv32>, nf: nat, lookback: seq<seq<nat>>)
    requires Matrix(LA[..], |lookback|, w) && Matrix(F[..], nf, w) && LA != F
    requires forall j, k :: 0 <= j < |lookback| && k in lookback[j] ==> k < nf
    requires Rows(LA[..], |lookback|, w) == seq(|lookback|, i => {})
    modifies LA
    ensures Matrix(LA[..], |lookback|, w)
    ensures forall j :: 0 <= j < |lookback| ==> Rows(LA[..], |lookback|, w)[j] == UnionOf(Rows(F[..], nf, w), lookback[j])
  {
    var n := |lookback|;
    for i := 0 to n
      invariant Matrix(LA[..], n, w) && F[..] == old(F[..])
      invariant forall j :: 0 <= j < i ==> Rows(LA[..], n, w)[j] == UnionOf(Rows(F[..], nf, w), lookback[j])
      invariant forall j :: i <= j < n ==> Rows(LA[..], n, w)[j] == {}
    {
      OrLookbacks(LA, n, w, i, F, nf, lookback[i]);
    }
  }

  // ---------------------------------------------------------------------
  // The result is the least solution
  // ---------------------------------------------------------------------

  /** What the steps of lalr() have computed. */
  ghost predicate LalrSteps(g: Grammar, a: Automaton, m: GotoMap, nullable: seq<bool>, t: Reductions, dr: seq<set<nat>>,
                            readsOf: Lists, read: seq<set<nat>>, untransposed: Lists, includes: Lists, follow: seq<set<nat>>,
                            lookback: seq<seq<nat>>, la: seq<set<nat>>)
    requires g.WellFormed() && |m.from| == |m.to| && |nullable| == g.nsyms
  {
    ReadsResult(g, a, m, nullable, dr, readsOf, read) &&
    |untransposed| == |m.from| && IncludesLists(g, a, m, nullable, untransposed) && Transposed(untransposed, includes) &&
    follow == FullRows(includes, read) &&
    Lookbacks(g, a, m, t, |m.from|, [], lookback) && |la| == |lookback| == |t.ruleno| && |t.lookaheads| == |a.reductions| + 1 &&
    forall j :: 0 <= j < |la| ==> la[j] == UnionOf(follow, lookback[j])
  }

  lemma StepsGiveReads(g: Grammar, a: Automaton, m: GotoMap, nullable: seq<bool>, dr: seq<set<nat>>, readsOf: Lists, read: seq<set<nat>>)
    requires |nullable| == g.nsyms && ReadsResult(g, a, m, nullable, dr, readsOf, read)
    ensures forall k, s: nat :: 0 <= k < |m.to| && ReadsToken(g, a, m, k, s) ==> s in read[k]
    ensures forall k, e: nat :: 0 <= k < |m.to| && e < |m.to| && Reads(g, a, m, nullable, k, e) ==> read[e] <= read[k]
  {
    FullIsSolution(readsOf, dr);
    forall k, s: nat | 0 <= k < |m.to| && ReadsToken(g, a, m, k, s) ensures s in read[k] {
      assert DirectReads(g, a, m, k, dr[k]);
    }
    forall k, e: nat | 0 <= k < |m.to| && e < |m.to| && Reads(g, a, m, nullable, k, e) ensures read[e] <= read[k] {
      assert ReadsList(g, a, m, nullable, k, readsOf[k]);
      var i :| 0 <= i < |readsOf[k]| && readsOf[k][i] == e;
    }
  }

  lemma StepsGiveFollows(g: Grammar, a: Automaton, m: GotoMap, nullable: seq<bool>, read: seq<set<nat>>,
                         untransposed: Lists, includes: Lists, follow: seq<set<nat>>)
    requires g.WellFormed() && |m.from| == |m.to| == |read| == |untransposed|
    requires IncludesLists(g, a, m, nullable, untransposed) && Transposed(untransposed, includes)
    requires follow == FullRows(includes, read)
    ensures forall k :: 0 <= k < |m.to| ==> read[k] <= follow[k]
    ensures forall k, e: nat :: 0 <= k < |m.to| && e < |m.to| && Included(g, a, m, nullable, k, e) ==> follow[k] <= follow[e]
  {
    FullIsSolution(includes, read);
    forall k, e: nat | 0 <= k < |m.to| && e < |m.to| && Included(g, a, m, nullable, k, e) ensures follow[k] <= follow[e] {
      assert IncludesList(g, a, m, nullable, k, untransposed[k]);
      assert k in includes[e];
      var i :| 0 <= i < |includes[e]| && includes[e][i] == k;
    }
  }

  lemma StepsSolve(g: Grammar, a: Automaton, m: GotoMap, nullable: seq<bool>, t: Reductions, dr: seq<set<nat>>,
                   readsOf: Lists, read: seq<set<nat>>, untransposed: Lists, includes: Lists, follow: seq<set<nat>>,
                   lookback: seq<seq<nat>>, la: seq<set<nat>>)
    requires g.WellFormed() && |m.from| == |m.to| && |nullable| == g.nsyms
    requires LalrSteps(g, a, m, nullable, t, dr, readsOf, read, untransposed, includes, follow, lookback, la)
    ensures LookaheadSolution(g, a, m, nullable, t, read, follow, la)
  {
    StepsGiveReads(g, a, m, nullable, dr, readsOf, read);
    StepsGiveFollows(g, a, m, nullable, read, untransposed, includes, follow);
    forall j, q: nat, k | 0 <= j < |la| && 0 <= k < |m.to| && NumberOf(t, q, j) && LooksBack(g, a, m, q, t.ruleno[j], k)
      ensures follow[k] <= la[j]
    {
      assert LookbackList(g, a, m, q, t.ruleno[j], |m.from|, [], lookback[j]);
    }
  }

  lemma ReadsLeast(g: Grammar, a: Automaton, m: GotoMap, nullable: seq<bool>, dr: seq<set<nat>>, readsOf: Lists,
                   read: seq<set<nat>>, read': seq<set<nat>>, k: nat)
    requires |nullable| == g.nsyms && ReadsResult(g, a, m, nullable, dr, readsOf, read) && |read'| == |m.to| && k < |m.to|
    requires forall k, s: nat :: 0 <= k < |m.to| && ReadsToken(g, a, m, k, s) ==> s in read'[k]
    requires forall k, e: nat :: 0 <= k < |m.to| && e < |m.to| && Reads(g, a, m, nullable, k, e) ==> read'[e] <= read'[k]
    ensures read[k] <= read'[k]
  {
    forall i | 0 <= i < |m.to| ensures dr[i] <= read'[i] {
      assert DirectReads(g, a, m, i, dr[i]);
    }
    forall i, c | 0 <= i < |readsOf| && 0 <= c < |readsOf[i]| ensures read'[readsOf[i][c]] <= read'[i] {
      assert ReadsList(g, a, m, nullable, i, readsOf[i]);
      assert readsOf[i][c] in readsOf[i];
    }
    FullIsLeast(readsOf, dr, read', k);
  }

  lemma FollowsLeast(g: Grammar, a: Automaton, m: GotoMap, nullable: seq<bool>, read: seq<set<nat>>,
                     untransposed: Lists, includes: Lists, follow: seq<set<nat>>, follow': seq<set<nat>>, k: nat)
    requires g.WellFormed() && |m.from| == |m.to| == |read| == |untransposed| == |follow'| && k < |m.to|
    requires IncludesLists(g, a, m, nullable, untransposed) && Transposed(untransposed, includes)
    requires follow == FullRows(includes, read)
    requires forall k :: 0 <= k < |m.to| ==> read[k] <= follow'[k]
    requires forall k, e: nat :: 0 <= k < |m.to| && e < |m.to| && Included(g, a, m, nullable, k, e) ==> follow'[k] <= follow'[e]
    ensures follow[k] <= follow'[k]
  {
    forall i, c | 0 <= i < |includes| && 0 <= c < |includes[i]| ensures follow'[includes[i][c]] <= follow'[i] {
      var p := includes[i][c];
      assert p in includes[i];
      assert IncludesList(g, a, m, nullable, p, untransposed[p]);
    }
    FullIsLeast(includes, read, follow', k);
  }

  lemma StepsAreLeast(g: Grammar, a: Automaton, m: GotoMap, nullable: seq<bool>, t: Reductions, dr: seq<set<nat>>,
                      readsOf: Lists, read: seq<set<nat>>, untransposed: Lists, includes: Lists, follow: seq<set<nat>>,
                      lookback: seq<seq<nat>>, la: seq<set<nat>>,
                      read': seq<set<nat>>, follow': seq<set<nat>>, la': seq<set<nat>>, j: nat)
    requires g.WellFormed() && |m.from| == |m.to| && |nullable| == g.nsyms && ReductionsNumbered(a, t)
    requires LalrSteps(g, a, m, nullable, t, dr, readsOf, read, untransposed, includes, follow, lookback, la)
    requires LookaheadSolution(g, a, m, nullable, t, read', follow', la') && j < |la|
    ensures la[j] <= la'[j]
  {
    hide LookaheadSolution, ReadsResult, IncludesLists, Transposed, Lookbacks;
    FollowsBelow(g, a, m, nullable, t, dr, readsOf, read, untransposed, includes, follow, read', follow', la');
    var q := StateOfNumber(a, t, |a.reductions|, j);
    LookbackOf(g, a, m, t, lookback, q, j);
    forall x | x in la[j] ensures x in la'[j] {
      var k :| k in lookback[j] && k < |follow| && x in follow[k];
      BackInto(g, a, m, nullable, t, read', follow', la', q, j, k);
    }
  }

  lemma LookbackOf(g: Grammar, a: Automaton, m: GotoMap, t: Reductions, lookback: seq<seq<nat>>, q: nat, j: nat)
    requires g.WellFormed() && |m.from| == |m.to| && Lookbacks(g, a, m, t, |m.from|, [], lookback) && NumberOf(t, q, j) && j < |lookback|
    ensures forall k: nat :: k in lookback[j] ==> k < |m.from| && LooksBack(g, a, m, q, t.ruleno[j], k)
  {
    assert LookbackList(g, a, m, q, t.ruleno[j], |m.from|, [], lookback[j]);
  }

  lemma FollowsBelow(g: Grammar, a: Automaton, m: GotoMap, nullable: seq<bool>, t: Reductions, dr: seq<set<nat>>,
                     readsOf: Lists, read: seq<set<nat>>, untransposed: Lists, includes: Lists, follow: seq<set<nat>>,
                     read': seq<set<nat>>, follow': seq<set<nat>>, la': seq<set<nat>>)
    requires g.WellFormed() && |m.from| == |m.to| == |untransposed| && |nullable| == g.nsyms
    requires ReadsResult(g, a, m, nullable, dr, readsOf, read)
    requires IncludesLists(g, a, m, nullable, untransposed) && Transposed(untransposed, includes) && follow == FullRows(includes, read)
    requires LookaheadSolution(g, a, m, nullable, t, read', follow', la')
    ensures |follow| == |m.to| == |follow'| && |la'| == |t.ruleno|
    ensures forall k :: 0 <= k < |m.to| ==> follow[k] <= follow'[k]
  {
    hide ReadsToken, Reads, Included, IncludesLists;
    forall k | 0 <= k < |m.to| ensures read[k] <= follow'[k] {
      ReadsLeast(g, a, m, nullable, dr, readsOf, read, read', k);
    }
    forall k | 0 <= k < |m.to| ensures follow[k] <= follow'[k] {
      FollowsLeast(g, a, m, nullable, read, untransposed, includes, follow, follow', k);
    }
  }

  lemma BackInto(g: Grammar, a: Automaton, m: GotoMap, nullable: seq<bool>, t: Reductions, read': seq<set<nat>>, follow': seq<set<nat>>,
                 la': seq<set<nat>>, q: nat, j: nat, k: nat)
    requires g.WellFormed() && |m.from| == |m.to| && |nullable| == g.nsyms && LookaheadSolution(g, a, m, nullable, t, read', follow', la')
    requires j < |la'| && k < |m.to| && NumberOf(t, q, j) && LooksBack(g, a, m, q, t.ruleno[j], k)
    ensures k < |follow'| && follow'[k] <= la'[j]
  {
  }

  /** Every reduction number belongs to a state. */
  lemma {:induction false} StateOfNumber(a: Automaton, t: Reductions, n: nat, j: nat) returns (q: nat)
    requires ReductionsNumbered(a, t) && n <= |a.reductions| && j < t.lookaheads[n]
    ensures NumberOf(t, q, j) && q < n
  {
    assert NumberedState(a, t.lookaheads, t.ruleno, n - 1);
    if j < t.lookaheads[n - 1] {
      q := StateOfNumber(a, t, n - 1, j);
    } else {
      q := n - 1;
    }
  }

  /** No solution of the inclusions has smaller lookahead sets than `la`. */
  ghost predicate LeastLookaheads(g: Grammar, a: Automaton, m: GotoMap, nullable: seq<bool>, t: Reductions, la: seq<set<nat>>)
    requires g.WellFormed() && |m.from| == |m.to| && |nullable| == g.nsyms
  {
    (exists read, follow :: LookaheadSolution(g, a, m, nullable, t, read, follow, la)) &&
    forall read', follow', la' :: LookaheadSolution(g, a, m, nullable, t, read', follow', la') ==>
      forall j :: 0 <= j < |la| ==> la[j] <= la'[j]
  }

  /** lalr(): the lookahead rows are the least solution of the defining inclusions. */
  method Lookaheads(g: Grammar, a: Automaton, nullable: array<bool>, derives: seq<seq<nat>>)
    returns (m: GotoMap, t: Reductions, LA: array<bv32>, w: nat)
    requires IsLR0(g, a) && nullable.Length == g.nsyms && NullTable(g, nullable[..]) && DerivesTable(g, derives)
    ensures GotoMapOK(g, a, m) && ReductionsNumbered(a, t) && w == WordSize(g.start)
    ensures fresh(LA) && Matrix(LA[..], |t.ruleno|, w)
    ensures LeastLookaheads(g, a, m, nullable[..], t, Rows(LA[..], |t.ruleno|, w))
  {
    w := WordSize(g.start);
    t := InitializeLA(g, a);
    m := SetGotoMap(g, a);
    ghost var nt := nullable[..];
    var F, dr, readsOf := InitializeF(g, a, m, nullable);
    ghost var read := Rows(F[..], |m.to|, w);
    var lookback, includes, untransposed := BuildRelations(g, a, m, nullable, derives, t);
    var lb := lookback[..];
    ComputeFollows(includes, w, F, read);
    ghost var follow := Rows(F[..], |m.to|, w);
    LA := NewMatrix(|t.ruleno|, w);
    LookbackBounds(g, a, m, t, lb);
    ComputeLookaheads(LA, w, F, |m.to|, lb);
    ghost var la := Rows(LA[..], |t.ruleno|, w);
    StepsSolve(g, a, m, nt, t, dr, readsOf, read, untransposed, includes, follow, lb, la);
    forall read', follow', la', j | LookaheadSolution(g, a, m, nt, t, read', follow', la') && 0 <= j < |la| ensures la[j] <= la'[j] {
      StepsAreLeast(g, a, m, nt, t, dr, readsOf, read, untransposed, includes, follow, lb, la, read', follow', la', j);
    }
  }

  /** compute_FOLLOWS */
  method ComputeFollows(includes: Lists, w: nat, F: array<bv32>, ghost read: seq<set<nat>>)
    requires ValidLists(includes) && Matrix(F[..], |includes|, w) && read == Rows(F[..], |includes|, w)
    modifies F
    ensures Matrix(F[..], |includes|, w) && Rows(F[..], |includes|, w) == FullRows(includes, read)
  {
    var d := new Digraph(includes, w, F);
    d.Run(read);
    assert Rows(F[..], |includes|, w) == FullRows(includes, read);
  }

  lemma LookbackBounds(g: Grammar, a: Automaton, m: GotoMap, t: Reductions, lb: seq<seq<nat>>)
    requires g.WellFormed() && |m.from| == |m.to| && ReductionsNumbered(a, t) && Lookbacks(g, a, m, t, |m.from|, [], lb)
    ensures forall j, k :: 0 <= j < |lb| && k in lb[j] ==> k < |m.to|
  {
    forall j, k | 0 <= j < |lb| && k in lb[j] ensures k < |m.to| {
      var q := StateOfNumber(a, t, |a.reductions|, j);
      assert LookbackList(g, a, m, q, t.ruleno[j], |m.from|, [], lb[j]);
    }
  }
}
