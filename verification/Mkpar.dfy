/** byacc/mkpar.c: the action list of every state, and the resolution of conflicts. */
module Mkpar {
  import opened Bits
  import opened Grammars
  import opened LR0
  import opened Automata
  import opened GotoMaps
  import opened Lalr

  datatype Assoc = Undeclared | LeftAssoc | RightAssoc | NonAssoc

  datatype Action = Action(symbol: int, number: nat, shift: bool, prec: int, assoc: Assoc, suppressed: nat)

  /** Precedences and associativities of the symbols and of the rules; precedence 0
      means none was declared. */
  datatype Precedence = Precedence(symbolPrec: seq<int>, symbolAssoc: seq<Assoc>, rulePrec: seq<int>, ruleAssoc: seq<Assoc>)

  ghost predicate PrecedenceFor(g: Grammar, pr: Precedence) {
    |pr.symbolPrec| == |pr.symbolAssoc| == g.nsyms && |pr.rulePrec| == |pr.ruleAssoc| == g.nrules
  }

  // ---------------------------------------------------------------------
  // The order of an action list
  // ---------------------------------------------------------------------

  /** By token, then shift before reduce, then by rule number. */
  predicate Before(x: Action, y: Action) {
    x.symbol < y.symbol ||
    (x.symbol == y.symbol && ((x.shift && !y.shift) || (x.shift == y.shift && x.number < y.number)))
  }

  ghost predicate Ordered(row: seq<Action>) {
    forall i, j :: 0 <= i < j < |row| ==> Before(row[i], row[j])
  }

  function ShiftOn(pr: Precedence, t: nat, target: nat): Action
    requires t < |pr.symbolPrec| == |pr.symbolAssoc|
  {
    Action(t, target, true, pr.symbolPrec[t], pr.symbolAssoc[t], 0)
  }

  function ReduceBy(pr: Precedence, r: nat, t: nat): Action
    requires r < |pr.rulePrec| == |pr.ruleAssoc|
  {
    Action(t, r, false, pr.rulePrec[r], pr.ruleAssoc[r], 0)
  }

  // ---------------------------------------------------------------------
  // get_shifts
  // ---------------------------------------------------------------------

  /** `x` is the shift of state `q` on one of its tokens, at place `n` or later. */
  ghost predicate ShiftFrom(g: Grammar, a: Automaton, pr: Precedence, q: nat, n: int, x: Action)
    requires PrecedenceFor(g, pr) && g.start <= g.nsyms && q < |a.shifts|
  {
    0 < x.symbol < g.start && x.number < |a.states| && x == ShiftOn(pr, x.symbol, x.number) &&
    exists i :: n <= i < |a.shifts[q]| && TargetAt(a, q, i, x)
  }

  ghost predicate TargetAt(a: Automaton, q: nat, i: int, x: Action)
    requires q < |a.shifts|
  {
    0 <= i < |a.shifts[q]| && a.shifts[q][i] == x.number && SymbolOf(a, q, i) == x.symbol
  }

  method GetShifts(g: Grammar, a: Automaton, pr: Precedence, q: nat) returns (actions: seq<Action>)
    requires IsLR0(g, a) && q < |a.states| && PrecedenceFor(g, pr)
    ensures Ordered(actions)
    ensures forall x :: x in actions <==> ShiftFrom(g, a, pr, q, 0, x)
  {
    actions := [];
    var i := |a.shifts[q]|;
    while i > 0
      invariant 0 <= i <= |a.shifts[q]| && Ordered(actions)
      invariant forall x :: x in actions <==> ShiftFrom(g, a, pr, q, i, x)
    {
      i := i - 1;
      var k := a.shifts[q][i];
      SymbolInRange(g, a, q, i);
      var symbol := SymbolOf(a, q, i);
      FirstShift(g, a, pr, q, i, actions);
      if symbol < g.start {
        actions := [ShiftOn(pr, symbol, k)] + actions;
      }
    }
  }

  lemma FirstShift(g: Grammar, a: Automaton, pr: Precedence, q: nat, i: nat, actions: seq<Action>)
    requires IsLR0(g, a) && q < |a.states| && PrecedenceFor(g, pr) && i < |a.shifts[q]| && Ordered(actions)
    requires forall x :: x in actions <==> ShiftFrom(g, a, pr, q, i + 1, x)
    ensures 0 < SymbolOf(a, q, i) < g.nsyms && a.shifts[q][i] < |a.states|
    ensures SymbolOf(a, q, i) < g.start ==>
      var l := [ShiftOn(pr, SymbolOf(a, q, i), a.shifts[q][i])] + actions;
      Ordered(l) && forall x :: x in l <==> ShiftFrom(g, a, pr, q, i, x)
    ensures SymbolOf(a, q, i) >= g.start ==> forall x :: x in actions <==> ShiftFrom(g, a, pr, q, i, x)
  {
    SymbolInRange(g, a, q, i);
    var s, n := SymbolOf(a, q, i), a.shifts[q][i];
    forall x ensures ShiftFrom(g, a, pr, q, i, x) <==>
        ShiftFrom(g, a, pr, q, i + 1, x) || (s < g.start && x == ShiftOn(pr, s, n)) {
      ShiftFromStep(g, a, pr, q, i, x);
    }
    if s < g.start {
      var y := ShiftOn(pr, s, n);
      forall c | 0 <= c < |actions| ensures Before(y, actions[c]) {
        assert actions[c] in actions;
        var j :| i + 1 <= j < |a.shifts[q]| && TargetAt(a, q, j, actions[c]);
        ShiftsAscend(g, a, q, i, j);
      }
    }
  }

  lemma ShiftFromStep(g: Grammar, a: Automaton, pr: Precedence, q: nat, i: nat, x: Action)
    requires IsLR0(g, a) && q < |a.states| && PrecedenceFor(g, pr) && i < |a.shifts[q]|
    requires 0 < SymbolOf(a, q, i) < g.nsyms && a.shifts[q][i] < |a.states|
    ensures ShiftFrom(g, a, pr, q, i, x) <==>
      ShiftFrom(g, a, pr, q, i + 1, x) ||
      (SymbolOf(a, q, i) < g.start && x == ShiftOn(pr, SymbolOf(a, q, i), a.shifts[q][i]))
  {
    if ShiftFrom(g, a, pr, q, i, x) {
      var j :| i <= j < |a.shifts[q]| && TargetAt(a, q, j, x);
    }
    if SymbolOf(a, q, i) < g.start && x == ShiftOn(pr, SymbolOf(a, q, i), a.shifts[q][i]) {
      assert TargetAt(a, q, i, x);
    }
  }

  // ---------------------------------------------------------------------
  // add_reduce and add_reductions
  // ---------------------------------------------------------------------

  /** Insert the reduction by `ruleno` on `symbol` in its place. */
  method AddReduce(pr: Precedence, actions: seq<Action>, ruleno: nat, symbol: nat) returns (r: seq<Action>)
    requires ruleno < |pr.rulePrec| == |pr.ruleAssoc| && Ordered(actions)
    requires forall x :: x in actions && !x.shift && x.symbol == symbol ==> x.number != ruleno
    ensures Ordered(r)
    ensures forall x :: x in r <==> x in actions || x == ReduceBy(pr, ruleno, symbol)
  {
    var temp := ReduceBy(pr, ruleno, symbol);
    var next := 0;
    while next < |actions| && actions[next].symbol < symbol
      invariant 0 <= next <= |actions|
      invariant forall i :: 0 <= i < next ==> Before(actions[i], temp)
    {
      next := next + 1;
    }
    while next < |actions| && actions[next].symbol == symbol && actions[next].shift
      invariant 0 <= next <= |actions|
      invariant forall i :: 0 <= i < next ==> Before(actions[i], temp)
      invariant next < |actions| ==> actions[next].symbol >= symbol
    {
      assert next + 1 < |actions| ==> Before(actions[next], actions[next + 1]);
      next := next + 1;
    }
    while next < |actions| && actions[next].symbol == symbol && !actions[next].shift && actions[next].number < ruleno
      invariant 0 <= next <= |actions|
      invariant forall i :: 0 <= i < next ==> Before(actions[i], temp)
      invariant next < |actions| ==> actions[next].symbol >= symbol && (actions[next].symbol == symbol ==> !actions[next].shift)
    {
      assert next + 1 < |actions| ==> Before(actions[next], actions[next + 1]);
      next := next + 1;
    }
    if next < |actions| {
      assert actions[next] in actions;
      assert Before(temp, actions[next]);
    }
    InsertOrdered(actions, next, temp);
    r := actions[..next] + [temp] + actions[next..];
  }

  lemma InsertOrdered(l: seq<Action>, k: nat, x: Action)
    requires Ordered(l) && k <= |l|
    requires forall i :: 0 <= i < k ==> Before(l[i], x)
    requires k < |l| ==> Before(x, l[k])
    ensures Ordered(l[..k] + [x] + l[k..])
    ensures forall y :: y in l[..k] + [x] + l[k..] <==> y in l || y == x
  {
    var m := l[..k] + [x] + l[k..];
    forall i, j | 0 <= i < j < |m| ensures Before(m[i], m[j]) {
      assert m[i] == if i < k then l[i] else if i == k then x else l[i - 1];
      assert m[j] == if j < k then l[j] else if j == k then x else l[j - 1];
    }
    assert l == l[..k] + l[k..];
  }

  /** `x` is a reduction of state `q` on one of the lookaheads of its reductions numbered
      below `n`; for number `n` only on tokens from `low` on. */
  ghost predicate ReduceUpto(pr: Precedence, t: Reductions, la: seq<set<nat>>, q: nat, n: int, low: int, x: Action)
    requires |pr.rulePrec| == |pr.ruleAssoc| && |la| == |t.ruleno|
  {
    exists j: nat :: ReduceAt(pr, t, la, q, j, x) && (j < n || (j == n && x.symbol >= low))
  }

  ghost predicate ReduceAt(pr: Precedence, t: Reductions, la: seq<set<nat>>, q: nat, j: nat, x: Action)
    requires |pr.rulePrec| == |pr.ruleAssoc| && |la| == |t.ruleno|
  {
    j < |la| && NumberOf(t, q, j) && x.symbol >= 0 && x.symbol in la[j] && t.ruleno[j] < |pr.rulePrec| &&
    x == ReduceBy(pr, t.ruleno[j], x.symbol)
  }

  /** What belongs into the action list of state `q`. */
  ghost predicate ActionOf(g: Grammar, a: Automaton, pr: Precedence, t: Reductions, la: seq<set<nat>>, q: nat, x: Action)
    requires PrecedenceFor(g, pr) && |la| == |t.ruleno|
  {
    (x.shift && 0 < x.symbol < g.start <= g.nsyms && HasGoto(a, q, x.symbol) && x == ShiftOn(pr, x.symbol, Goto(a, q, x.symbol))) ||
    (!x.shift && x.symbol < g.start && exists j: nat :: ReduceAt(pr, t, la, q, j, x))
  }

  ghost predicate Collected(g: Grammar, a: Automaton, pr: Precedence, t: Reductions, la: seq<set<nat>>, q: nat, n: int, low: int, actions: seq<Action>)
    requires PrecedenceFor(g, pr) && g.start <= g.nsyms && q < |a.shifts| && |la| == |t.ruleno|
  {
    forall x :: x in actions <==> ShiftFrom(g, a, pr, q, 0, x) || (x.symbol < g.start && ReduceUpto(pr, t, la, q, n, low, x))
  }

  method AddReductions(g: Grammar, a: Automaton, pr: Precedence, t: Reductions, LA: array<bv32>, q: nat, shifts: seq<Action>)
    returns (actions: seq<Action>)
    requires IsLR0(g, a) && q < |a.states| && PrecedenceFor(g, pr) && ReductionsNumbered(a, t)
    requires Matrix(LA[..], |t.ruleno|, WordSize(g.start)) && Ordered(shifts)
    requires forall x :: x in shifts <==> ShiftFrom(g, a, pr, q, 0, x)
    ensures Ordered(actions)
    ensures Collected(g, a, pr, t, Rows(LA[..], |t.ruleno|, WordSize(g.start)), q, t.lookaheads[q + 1], g.start, actions)
  {
    var nla, w := |t.ruleno|, WordSize(g.start);
    ghost var la := Rows(LA[..], nla, w);
    actions := shifts;
    assert NumberedState(a, t.lookaheads, t.ruleno, q);
    NothingYet(g, a, pr, t, la, q, t.lookaheads[q], actions);
    for i := t.lookaheads[q] to t.lookaheads[q + 1]
      invariant Ordered(actions) && Collected(g, a, pr, t, la, q, i, g.start, actions)
    {
      var ruleno := t.ruleno[i];
      RuleOfNumber(g, a, t, q, i);
      var j := g.start;
      while j > 0
        invariant 0 <= j <= g.start
        invariant Ordered(actions) && Collected(g, a, pr, t, la, q, i, j, actions)
      {
        j := j - 1;
        ghost var was := actions;
        var b := TestBit(LA, nla, w, i, j);
        if b {
          NotYet(g, a, pr, t, la, q, i, j, actions);
          actions := AddReduce(pr, actions, ruleno, j);
        }
        CollectedStep(g, a, pr, t, la, q, i, j, was, actions);
      }
      NextNumber(g, a, pr, t, la, q, i, actions);
    }
  }

  lemma RuleOfNumber(g: Grammar, a: Automaton, t: Reductions, q: nat, j: nat)
    requires IsLR0(g, a) && ReductionsNumbered(a, t) && q < |a.states| && NumberOf(t, q, j)
    ensures j < |t.ruleno| && t.ruleno[j] in a.reductions[q] && 2 <= t.ruleno[j] < g.nrules
  {
    assert NumberedState(a, t.lookaheads, t.ruleno, q);
    var l := t.lookaheads[q];
    assert t.ruleno[l..t.lookaheads[q + 1]][j - l] == t.ruleno[j];
    assert a.reductions[q][j - l] in a.reductions[q];
    StateFacts(g, a, q);
  }

  lemma NothingYet(g: Grammar, a: Automaton, pr: Precedence, t: Reductions, la: seq<set<nat>>, q: nat, n: nat, actions: seq<Action>)
    requires PrecedenceFor(g, pr) && g.start <= g.nsyms && q < |a.shifts| && |la| == |t.ruleno|
    requires q + 1 < |t.lookaheads| && t.lookaheads[q] == n
    requires forall x :: x in actions <==> ShiftFrom(g, a, pr, q, 0, x)
    ensures Collected(g, a, pr, t, la, q, n, g.start, actions)
  {
    forall x | ReduceUpto(pr, t, la, q, n, g.start, x) ensures x.symbol >= g.start {
    }
  }

  lemma NotYet(g: Grammar, a: Automaton, pr: Precedence, t: Reductions, la: seq<set<nat>>, q: nat, i: nat, j: nat, actions: seq<Action>)
    requires IsLR0(g, a) && PrecedenceFor(g, pr) && q < |a.states| && |la| == |t.ruleno| && ReductionsNumbered(a, t)
    requires NumberOf(t, q, i) && i < |t.ruleno| && Collected(g, a, pr, t, la, q, i, j + 1, actions)
    ensures forall x :: x in actions && !x.shift && x.symbol == j ==> x.number != t.ruleno[i]
  {
    forall x | x in actions && !x.shift && x.symbol == j ensures x.number != t.ruleno[i] {
      var c: nat :| ReduceAt(pr, t, la, q, c, x) && (c < i || (c == i && x.symbol >= j + 1));
      NumberUnique(g, a, t, q, i, q, c);
    }
  }

  lemma CollectedStep(g: Grammar, a: Automaton, pr: Precedence, t: Reductions, la: seq<set<nat>>, q: nat, i: nat, j: nat,
                      was: seq<Action>, actions: seq<Action>)
    requires PrecedenceFor(g, pr) && g.start <= g.nsyms && q < |a.shifts| && |la| == |t.ruleno| && i < |la| && NumberOf(t, q, i)
    requires t.ruleno[i] < |pr.rulePrec| && j < g.start && Collected(g, a, pr, t, la, q, i, j + 1, was)
    requires j !in la[i] ==> actions == was
    requires j in la[i] ==> forall x :: x in actions <==> x in was || x == ReduceBy(pr, t.ruleno[i], j)
    ensures Collected(g, a, pr, t, la, q, i, j, actions)
  {
    var j' := j + 1;
    forall x: Action ensures ReduceUpto(pr, t, la, q, i, j, x) <==>
        ReduceUpto(pr, t, la, q, i, j', x) || (j in la[i] && x == ReduceBy(pr, t.ruleno[i], j)) {
      if ReduceUpto(pr, t, la, q, i, j, x) {
        var c: nat :| ReduceAt(pr, t, la, q, c, x) && (c < i || (c == i && x.symbol >= j));
      }
      if j in la[i] && x == ReduceBy(pr, t.ruleno[i], j) {
        assert ReduceAt(pr, t, la, q, i, x);
      }
      if ReduceUpto(pr, t, la, q, i, j', x) {
        var c: nat :| ReduceAt(pr, t, la, q, c, x) && (c < i || (c == i && x.symbol >= j'));
      }
    }
  }

  lemma NextNumber(g: Grammar, a: Automaton, pr: Precedence, t: Reductions, la: seq<set<nat>>, q: nat, i: nat, actions: seq<Action>)
    requires PrecedenceFor(g, pr) && g.start <= g.nsyms && q < |a.shifts| && |la| == |t.ruleno|
    requires Collected(g, a, pr, t, la, q, i, 0, actions)
    ensures Collected(g, a, pr, t, la, q, i + 1, g.start, actions)
  {
    var i' := i + 1;
    forall x: Action | x.symbol < g.start
      ensures ReduceUpto(pr, t, la, q, i, 0, x) <==> ReduceUpto(pr, t, la, q, i', g.start, x)
    {
      if ReduceUpto(pr, t, la, q, i', g.start, x) {
        var c: nat :| ReduceAt(pr, t, la, q, c, x) && (c < i' || (c == i' && x.symbol >= g.start));
      }
      if ReduceUpto(pr, t, la, q, i, 0, x) {
        var c: nat :| ReduceAt(pr, t, la, q, c, x) && (c < i || (c == i && x.symbol >= 0));
      }
    }
  }

  /** The list is in order and has exactly the actions of the state. */
  ghost predicate IsActionRow(g: Grammar, a: Automaton, pr: Precedence, t: Reductions, la: seq<set<nat>>, q: nat, row: seq<Action>)
    requires PrecedenceFor(g, pr) && |la| == |t.ruleno|
  {
    Ordered(row) && forall x :: x in row <==> ActionOf(g, a, pr, t, la, q, x)
  }

  /** parse_actions */
  method ParseActions(g: Grammar, a: Automaton, pr: Precedence, t: Reductions, LA: array<bv32>, q: nat) returns (row: seq<Action>)
    requires IsLR0(g, a) && q < |a.states| && PrecedenceFor(g, pr) && ReductionsNumbered(a, t)
    requires Matrix(LA[..], |t.ruleno|, WordSize(g.start))
    ensures IsActionRow(g, a, pr, t, Rows(LA[..], |t.ruleno|, WordSize(g.start)), q, row)
  {
    row := GetShifts(g, a, pr, q);
    row := AddReductions(g, a, pr, t, LA, q, row);
    CollectedAll(g, a, pr, t, Rows(LA[..], |t.ruleno|, WordSize(g.start)), q, row);
  }

  lemma CollectedAll(g: Grammar, a: Automaton, pr: Precedence, t: Reductions, la: seq<set<nat>>, q: nat, row: seq<Action>)
    requires IsLR0(g, a) && q < |a.states| && PrecedenceFor(g, pr) && |la| == |t.ruleno| && q + 1 < |t.lookaheads|
    requires Collected(g, a, pr, t, la, q, t.lookaheads[q + 1], g.start, row)
    ensures forall x :: x in row <==> ActionOf(g, a, pr, t, la, q, x)
  {
    forall x: Action ensures x in row <==> ActionOf(g, a, pr, t, la, q, x) {
      if ShiftFrom(g, a, pr, q, 0, x) {
        var i :| 0 <= i < |a.shifts[q]| && TargetAt(a, q, i, x);
        GotoIs(g, a, q, i);
      }
      if x.shift && ActionOf(g, a, pr, t, la, q, x) {
        GotoOK(g, a, q, x.symbol);
        var i :| 0 <= i < |a.shifts[q]| && a.shifts[q][i] == Goto(a, q, x.symbol);
        SymbolInRange(g, a, q, i);
        assert TargetAt(a, q, i, x);
      }
      if ReduceUpto(pr, t, la, q, t.lookaheads[q + 1], g.start, x) {
        var c: nat :| ReduceAt(pr, t, la, q, c, x) && (c < t.lookaheads[q + 1] || (c == t.lookaheads[q + 1] && x.symbol >= g.start));
      }
    }
  }

  // ---------------------------------------------------------------------
  // Conflicts: which actions survive
  // ---------------------------------------------------------------------

  /** An action list where each token has at most one shift, before its reductions. */
  ghost predicate RowOK(row: seq<Action>) {
    (forall i, j :: 0 <= i < j < |row| ==> row[i].symbol <= row[j].symbol) &&
    (forall i, j :: 0 <= i < j < |row| && row[i].symbol == row[j].symbol ==> !row[j].shift) &&
    (forall i, j :: 0 <= i < j < |row| && row[i].symbol == row[j].symbol && !row[i].shift ==> row[i].number < row[j].number) &&
    (forall i :: 0 <= i < |row| ==> row[i].symbol >= 0 && row[i].suppressed == 0)
  }

  /** The first action on the same token. */
  function Head(row: seq<Action>, i: nat): (h: nat)
    requires i < |row|
    ensures h <= i && row[h].symbol == row[i].symbol
    ensures h > 0 ==> row[h - 1].symbol != row[h].symbol
  {
    if i == 0 || row[i - 1].symbol != row[i].symbol then i else Head(row, i - 1)
  }

  /** Precedence decides for reduction `r` against shift `s`. */
  predicate Beats(s: Action, r: Action) {
    s.prec > 0 && r.prec > 0 && (s.prec < r.prec || (s.prec == r.prec && s.assoc == LeftAssoc))
  }

  /** Precedence rules out both. */
  predicate Excludes(s: Action, r: Action) {
    s.prec > 0 && r.prec > 0 && s.prec == r.prec && s.assoc != LeftAssoc && s.assoc != RightAssoc
  }

  /** Some action after `h` and before `k` on the same token beats the shift at `h`. */
  ghost predicate Beaten(row: seq<Action>, h: nat, k: nat) {
    exists j :: h < j < k && j < |row| && row[j].symbol == row[h].symbol && Beats(row[h], row[j])
  }

  ghost predicate Excluded(row: seq<Action>, h: nat, k: nat) {
    exists j :: h < j < k && j < |row| && row[j].symbol == row[h].symbol && Excludes(row[h], row[j])
  }

  /** What becomes of an action: kept, dropped by precedence, or dropped as an
      unresolved conflict of one of the two kinds. */
  datatype Fate = Kept | Resolved | ShiftReduce | ReduceReduce

  /** The fate of the action at `i` when the list is known up to `k`.  The first action
      on a token gives way only to a reduction that beats or excludes it; a later
      one is kept only if it is the first to beat a shift. */
  ghost function FateOf(row: seq<Action>, final: bool, i: nat, k: nat): Fate
    requires i < |row|
  {
    var h := Head(row, i);
    var special := final && row[i].symbol == 0;
    if i == h then
      if row[h].shift && !special && (Beaten(row, h, k) || Excluded(row, h, k)) then Resolved else Kept
    else if special then ShiftReduce
    else if !row[h].shift || Beaten(row, h, i) then ReduceReduce
    else if row[h].prec <= 0 || row[i].prec <= 0 then ShiftReduce
    else if Beats(row[h], row[i]) then Kept
    else Resolved
  }

  /** The suppressed field: 0 kept, 1 conflict, 2 resolved by precedence. */
  function Code(f: Fate): nat {
    match f case Kept => 0 case Resolved => 2 case ShiftReduce => 1 case ReduceReduce => 1
  }

  ghost function Decided(row: seq<Action>, final: bool, i: nat, k: nat): Action
    requires i < |row|
  {
    row[i].(suppressed := Code(FateOf(row, final, i, k)))
  }

  /** How many of the first `k` actions meet fate `f`. */
  ghost function CountFate(row: seq<Action>, final: bool, f: Fate, k: nat): nat
    requires k <= |row|
  {
    if k == 0 then 0 else CountFate(row, final, f, k - 1) + (if FateOf(row, final, k - 1, k) == f then 1 else 0)
  }

  /** The list after remove_conflicts. */
  ghost predicate Resolves(row: seq<Action>, final: bool, out: seq<Action>) {
    |out| == |row| && forall i :: 0 <= i < |row| ==> out[i] == Decided(row, final, i, |row|)
  }

  /** The loop state of remove_conflicts after `k` actions: `pref` is the action that
      the next one on the same token is compared with. */
  ghost predicate LoopState(row: seq<Action>, final: bool, k: nat, out: seq<Action>, symbol: int, pref: nat) {
    |out| == |row| && k <= |row| &&
    (forall i :: 0 <= i < k ==> out[i] == Decided(row, final, i, k)) &&
    (forall i :: k <= i < |row| ==> out[i] == row[i]) &&
    (k == 0 ==> symbol == -1) &&
    (k > 0 ==> symbol == row[k - 1].symbol && PrefAt(row, final, k, pref))
  }

  ghost predicate PrefAt(row: seq<Action>, final: bool, k: nat, pref: nat)
    requires 0 < k <= |row|
  {
    var h := Head(row, k - 1);
    h <= pref < k && row[pref].symbol == row[h].symbol &&
    (pref > h ==> row[h].shift && Beats(row[h], row[pref]) && !row[pref].shift && !(final && row[h].symbol == 0)) &&
    (pref == h && row[h].shift && !(final && row[h].symbol == 0) ==> !Beaten(row, h, k))
  }

  /** One action more: what the branches of the loop body have to do. */
  ghost predicate StepTo(row: seq<Action>, final: bool, k: nat, out: seq<Action>, out': seq<Action>)
    requires k < |row|
  {
    |out'| == |out| == |row| &&
    (forall i :: 0 <= i < |row| && i != k && i != Head(row, k) ==> out'[i] == out[i]) &&
    out'[k] == Decided(row, final, k, k + 1) && out'[Head(row, k)] == Decided(row, final, Head(row, k), k + 1)
  }

  lemma FateStable(row: seq<Action>, final: bool, i: nat, k: nat)
    requires RowOK(row) && i < k < |row| && i != Head(row, k)
    ensures FateOf(row, final, i, k + 1) == FateOf(row, final, i, k)
  {
    var h := Head(row, i);
    if i == h && row[k].symbol == row[h].symbol {
      HeadsAgree(row, i, k);
      assert false;
    }
    assert i == h ==> row[k].symbol != row[h].symbol;
    assert i == h ==> (Beaten(row, h, k + 1) <==> Beaten(row, h, k));
    assert i == h ==> (Excluded(row, h, k + 1) <==> Excluded(row, h, k));
  }

  lemma {:induction false} HeadsAgree(row: seq<Action>, i: nat, k: nat)
    requires RowOK(row) && i <= k < |row| && row[i].symbol == row[k].symbol
    ensures Head(row, i) == Head(row, k) <= i
  {
    if i < k {
      assert row[i].symbol <= row[k - 1].symbol <= row[k].symbol;
      HeadsAgree(row, i, k - 1);
    }
  }

  lemma LoopStep(row: seq<Action>, final: bool, k: nat, out: seq<Action>, symbol: int, pref: nat, out': seq<Action>, pref': nat)
    requires RowOK(row) && k < |row| && LoopState(row, final, k, out, symbol, pref)
    requires StepTo(row, final, k, out, out') && PrefAt(row, final, k + 1, pref')
    ensures LoopState(row, final, k + 1, out', row[k].symbol, pref')
  {
    forall i | 0 <= i < k + 1 ensures out'[i] == Decided(row, final, i, k + 1) {
      if i != k && i != Head(row, k) {
        FateStable(row, final, i, k);
      }
    }
  }

  /** The fate of the next action on a token, decided by the loop's branches. */
  lemma NextFate(row: seq<Action>, final: bool, k: nat, pref: nat)
    requires RowOK(row) && 0 < k < |row| && PrefAt(row, final, k, pref) && row[k].symbol == row[k - 1].symbol
    ensures Head(row, k) == Head(row, k - 1) && FateOf(row, final, k, k + 1) ==
      if final && row[k].symbol == 0 then ShiftReduce
      else if !row[pref].shift then ReduceReduce
      else if row[pref].prec <= 0 || row[k].prec <= 0 then ShiftReduce
      else if Beats(row[pref], row[k]) then Kept
      else Resolved
    ensures row[pref].shift ==> pref == Head(row, k)
  {
    var h := Head(row, k);
    if pref > h {
      assert Beaten(row, h, k);
    }
  }

  /** How the fate of the first action changes when the next one is looked at. */
  lemma HeadFate(row: seq<Action>, final: bool, k: nat, pref: nat)
    requires RowOK(row) && 0 < k < |row| && PrefAt(row, final, k, pref) && row[k].symbol == row[k - 1].symbol
    ensures var h := Head(row, k);
      h < k && Head(row, h) == h && FateOf(row, final, h, k + 1) ==
        if row[pref].shift && !(final && row[k].symbol == 0) && (Beats(row[pref], row[k]) || Excludes(row[pref], row[k])) then Resolved
        else FateOf(row, final, h, k)
  {
    hide RowOK;
    var h := Head(row, k);
    HeadsAgree(row, h, k);
    NextFate(row, final, k, pref);
    if row[h].shift && !(final && row[k].symbol == 0) {
      assert Beaten(row, h, k + 1) <==> Beaten(row, h, k) || Beats(row[h], row[k]);
      assert Excluded(row, h, k + 1) <==> Excluded(row, h, k) || Excludes(row[h], row[k]);
      if pref > h {
        assert Beaten(row, h, k);
      }
    }
  }

  /** Which action the next one on the token will be compared with. */
  lemma NextPref(row: seq<Action>, final: bool, k: nat, pref: nat)
    requires RowOK(row) && 0 < k < |row| && PrefAt(row, final, k, pref) && row[k].symbol == row[k - 1].symbol
    ensures var beats := row[pref].shift && !(final && row[k].symbol == 0) && Beats(row[pref], row[k]);
      PrefAt(row, final, k + 1, if beats then k else pref)
  {
    var h := Head(row, k);
    NextFate(row, final, k, pref);
    if row[h].shift && !(final && row[k].symbol == 0) {
      assert Beaten(row, h, k + 1) <==> Beaten(row, h, k) || Beats(row[h], row[k]);
    }
  }

  /** The three together, as the branches of the loop need them. */
  lemma NextCases(row: seq<Action>, final: bool, k: nat, pref: nat)
    requires RowOK(row) && 0 < k < |row| && PrefAt(row, final, k, pref) && row[k].symbol == row[k - 1].symbol
    ensures pref < k && Head(row, k) < k && (row[pref].shift ==> pref == Head(row, k))
    ensures var s, r, h := row[pref], row[k], Head(row, k);
      var open := s.shift && !(final && r.symbol == 0);
      PrefAt(row, final, k + 1, if open && Beats(s, r) then k else pref) &&
      Decided(row, final, h, k + 1).suppressed == (if open && (Beats(s, r) || Excludes(s, r)) then 2 else Decided(row, final, h, k).suppressed) &&
      Decided(row, final, k, k + 1).suppressed ==
        (if !open || s.prec <= 0 || r.prec <= 0 then 1 else if Beats(s, r) then 0 else 2) &&
      (FateOf(row, final, k, k + 1) == ShiftReduce <==> (final && r.symbol == 0) || (open && (s.prec <= 0 || r.prec <= 0))) &&
      (FateOf(row, final, k, k + 1) == ReduceReduce <==> !s.shift && !(final && r.symbol == 0))
  {
    NextFate(row, final, k, pref);
    HeadFate(row, final, k, pref);
    NextPref(row, final, k, pref);
  }

  lemma FirstOfToken(row: seq<Action>, final: bool, k: nat)
    requires RowOK(row) && k < |row| && Head(row, k) == k
    ensures FateOf(row, final, k, k + 1) == Kept && PrefAt(row, final, k + 1, k)
  {
  }

  /** remove_conflicts for one state: the counts and the marked list. */
  method RemoveConflictsIn(row: seq<Action>, final: bool) returns (out: seq<Action>, SRcount: nat, RRcount: nat)
    requires RowOK(row)
    ensures Resolves(row, final, out)
    ensures SRcount == CountFate(row, final, ShiftReduce, |row|) && RRcount == CountFate(row, final, ReduceReduce, |row|)
  {
    hide FateOf, PrefAt, Decided;
    out := row;
    SRcount, RRcount := 0, 0;
    var symbol := -1;
    var pref := 0;
    var p := 0;
    while p < |row|
      invariant 0 <= p <= |row| && LoopState(row, final, p, out, symbol, pref)
      invariant Counted(row, final, p, SRcount, RRcount)
    {
      out, symbol, pref, SRcount, RRcount := ResolveNext(row, final, p, out, symbol, pref, SRcount, RRcount);
      p := p + 1;
    }
  }

  ghost predicate Counted(row: seq<Action>, final: bool, k: nat, sr: nat, rr: nat) {
    k <= |row| && sr == CountFate(row, final, ShiftReduce, k) && rr == CountFate(row, final, ReduceReduce, k)
  }

  /** The body of the loop over the actions of a state. */
  method ResolveNext(row: seq<Action>, final: bool, p: nat, before: seq<Action>, symbol: int, pref: nat, sr: nat, rr: nat)
    returns (out: seq<Action>, symbol': int, pref': nat, sr': nat, rr': nat)
    requires RowOK(row) && p < |row| && LoopState(row, final, p, before, symbol, pref) && Counted(row, final, p, sr, rr)
    ensures LoopState(row, final, p + 1, out, symbol', pref') && Counted(row, final, p + 1, sr', rr')
  {
    LoopFacts(row, final, p, before, symbol, pref);
    var s, r;
    out, pref', s, r := ResolveOne(row, final, p, before, symbol, pref);
    LoopStep(row, final, p, before, symbol, pref, out, pref');
    symbol', sr', rr' := row[p].symbol, sr + s, rr + r;
  }

  /** What the branches need to know. */
  ghost predicate BodyState(row: seq<Action>, final: bool, p: nat, out: seq<Action>, symbol: int, pref: nat)
    requires p < |row|
  {
    |out| == |row| && out[p] == row[p] && (p == 0 ==> symbol == -1) &&
    (p > 0 ==> symbol == row[p - 1].symbol && PrefAt(row, final, p, pref)) &&
    (p > 0 && row[p].symbol == symbol ==>
       Head(row, p) < p && out[pref].(suppressed := 0) == row[pref] &&
       out[Head(row, p)] == Decided(row, final, Head(row, p), p))
  }

  lemma LoopFacts(row: seq<Action>, final: bool, p: nat, out: seq<Action>, symbol: int, pref: nat)
    requires RowOK(row) && p < |row| && LoopState(row, final, p, out, symbol, pref)
    ensures BodyState(row, final, p, out, symbol, pref)
  {
    if p > 0 && row[p].symbol == symbol {
      assert Head(row, p) < p;
      assert out[pref] == Decided(row, final, pref, p);
    }
  }

  /** The branches of the loop body. */
  method ResolveOne(row: seq<Action>, final: bool, p: nat, before: seq<Action>, symbol: int, pref: nat)
    returns (out: seq<Action>, pref': nat, sr: nat, rr: nat)
    requires RowOK(row) && p < |row| && BodyState(row, final, p, before, symbol, pref)
    ensures StepTo(row, final, p, before, out) && PrefAt(row, final, p + 1, pref')
    ensures sr == (if FateOf(row, final, p, p + 1) == ShiftReduce then 1 else 0)
    ensures rr == (if FateOf(row, final, p, p + 1) == ReduceReduce then 1 else 0)
  {
    hide FateOf, PrefAt, Beaten, Excluded, RowOK;
    out, pref', sr, rr := before, pref, 0, 0;
    if row[p].symbol != symbol {
      RowSymbol(row, p);
      pref' := p;
      FirstOfToken(row, final, p);
    } else {
      RowSymbol(row, p);
      NextCases(row, final, p, pref);
      if final && symbol == 0 {
        sr := 1;
        out := out[p := out[p].(suppressed := 1)];
      } else if out[pref].shift {
        if out[pref].prec > 0 && out[p].prec > 0 {
          if out[pref].prec < out[p].prec {
            out := out[pref := out[pref].(suppressed := 2)];
            pref' := p;
          } else if out[pref].prec > out[p].prec {
            out := out[p := out[p].(suppressed := 2)];
          } else if out[pref].assoc == LeftAssoc {
            out := out[pref := out[pref].(suppressed := 2)];
            pref' := p;
          } else if out[pref].assoc == RightAssoc {
            out := out[p := out[p].(suppressed := 2)];
          } else {
            out := out[pref := out[pref].(suppressed := 2)];
            out := out[p := out[p].(suppressed := 2)];
          }
        } else {
          sr := 1;
          out := out[p := out[p].(suppressed := 1)];
        }
      } else {
        rr := 1;
        out := out[p := out[p].(suppressed := 1)];
      }
    }
  }

  lemma RowSymbol(row: seq<Action>, p: nat)
    requires RowOK(row) && p < |row|
    ensures row[p].symbol >= 0 && row[p].suppressed == 0
  {
  }

  // ---------------------------------------------------------------------
  // What the marks mean
  // ---------------------------------------------------------------------

  /** Each token keeps at most one action. */
  lemma AtMostOneKept(row: seq<Action>, final: bool, out: seq<Action>, i: nat, j: nat)
    requires RowOK(row) && Resolves(row, final, out) && i < j < |row| && row[i].symbol == row[j].symbol
    ensures out[i].suppressed != 0 || out[j].suppressed != 0
  {
    HeadsAgree(row, i, j);
    var h := Head(row, j);
    assert Beats(row[h], row[j]) ==> Beaten(row, h, |row|);
    assert i > h && Beats(row[h], row[i]) ==> Beaten(row, h, j);
  }

  /** The two counts together are the number of actions marked 1. */
  lemma {:induction false} CountsAddUp(row: seq<Action>, final: bool, out: seq<Action>, k: nat)
    requires RowOK(row) && Resolves(row, final, out) && k <= |row|
    ensures CountFate(row, final, ShiftReduce, k) + CountFate(row, final, ReduceReduce, k) == CountConflicts(out, k)
  {
    hide FateOf, RowOK;
    if k > 0 {
      CountsAddUp(row, final, out, k - 1);
      CodeSettled(row, final, k - 1);
    }
  }

  /** Whether an action is a conflict is settled when it is looked at. */
  lemma CodeSettled(row: seq<Action>, final: bool, i: nat)
    requires i < |row|
    ensures var f := FateOf(row, final, i, i + 1);
      (f == ShiftReduce || f == ReduceReduce) <==> Code(FateOf(row, final, i, |row|)) == 1
  {
  }

  ghost function CountConflicts(out: seq<Action>, k: nat): nat
    requires k <= |out|
  {
    if k == 0 then 0 else CountConflicts(out, k - 1) + (if out[k - 1].suppressed == 1 then 1 else 0)
  }

  /** Between reductions alone the lowest rule is kept and the others are conflicts. */
  lemma ReduceReduceKeepsLowest(row: seq<Action>, final: bool, out: seq<Action>, i: nat)
    requires RowOK(row) && Resolves(row, final, out) && i < |row| && !row[Head(row, i)].shift
    ensures out[i].suppressed == (if i == Head(row, i) then 0 else 1)
    ensures i != Head(row, i) ==> FateOf(row, final, i, |row|) == if final && row[i].symbol == 0 then ShiftReduce else ReduceReduce
    ensures forall j :: 0 <= j < |row| && row[j].symbol == row[i].symbol ==> row[Head(row, i)].number <= row[j].number
  {
    hide FateOf, RowOK;
    FateOfReduction(row, final, i);
    assert out[i] == Decided(row, final, i, |row|);
    forall j | 0 <= j < |row| && row[j].symbol == row[i].symbol ensures row[Head(row, i)].number <= row[j].number {
      if j < i { HeadsAgree(row, j, i); } else { HeadsAgree(row, i, j); }
      HeadIsLowest(row, j);
    }
  }

  lemma FateOfReduction(row: seq<Action>, final: bool, i: nat)
    requires i < |row| && !row[Head(row, i)].shift
    ensures Code(FateOf(row, final, i, |row|)) == (if i == Head(row, i) then 0 else 1)
    ensures i != Head(row, i) ==> FateOf(row, final, i, |row|) == if final && row[i].symbol == 0 then ShiftReduce else ReduceReduce
  {
  }

  lemma HeadIsLowest(row: seq<Action>, j: nat)
    requires RowOK(row) && j < |row| && !row[Head(row, j)].shift
    ensures row[Head(row, j)].number <= row[j].number
  {
    HeadsAgree(row, Head(row, j), j);
  }

  lemma ShiftIsHead(row: seq<Action>, i: nat)
    requires RowOK(row) && i < |row| && row[i].shift
    ensures Head(row, i) == i
  {
  }

  /** A shift alone with one reduction: the declared precedences decide as POSIX has
      it, and without them the shift is kept and a conflict counted. */
  lemma ShiftReduceRule(row: seq<Action>, final: bool, out: seq<Action>, i: nat)
    requires RowOK(row) && Resolves(row, final, out) && i + 1 < |row| && row[i].shift && row[i + 1].symbol == row[i].symbol
    requires (i + 2 < |row| ==> row[i + 2].symbol != row[i].symbol) && !(final && row[i].symbol == 0)
    ensures row[i].prec <= 0 || row[i + 1].prec <= 0 ==> FateOf(row, final, i + 1, |row|) == ShiftReduce
    ensures var s, r := row[i], row[i + 1];
      (out[i].suppressed, out[i + 1].suppressed) ==
        if s.prec <= 0 || r.prec <= 0 then (0, 1)
        else if s.prec < r.prec then (2, 0)
        else if s.prec > r.prec then (0, 2)
        else if s.assoc == LeftAssoc then (2, 0)
        else if s.assoc == RightAssoc then (0, 2)
        else (2, 2)
  {
    HeadsAgree(row, i, i + 1);
    ShiftIsHead(row, i);
    var k := |row|;
    forall j | i + 2 <= j < k ensures row[i].symbol < row[i + 2].symbol <= row[j].symbol {
    }
    assert Beaten(row, i, k) <==> Beats(row[i], row[i + 1]);
    assert Excluded(row, i, k) <==> Excludes(row[i], row[i + 1]);
  }

  /** A token with an action at all loses every action only when precedence excludes
      both the shift and a reduction, and no reduction beats the shift. */
  lemma TokenLosesAll(row: seq<Action>, final: bool, out: seq<Action>, h: nat)
    requires RowOK(row) && Resolves(row, final, out) && h < |row| && Head(row, h) == h
    ensures (forall i :: 0 <= i < |row| && row[i].symbol == row[h].symbol ==> out[i].suppressed != 0) <==>
      row[h].shift && !(final && row[h].symbol == 0) && Excluded(row, h, |row|) && !Beaten(row, h, |row|)
  {
    hide FateOf, RowOK, Beaten, Excluded, Head;
    var k := |row|;
    assert out[h] == Decided(row, final, h, k);
    HeadKept(row, final, h);
    if Beaten(row, h, k) {
      var m := SomeReductionKept(row, final, h);
      assert out[m] == Decided(row, final, m, k);
    }
    if row[h].shift && !(final && row[h].symbol == 0) && Excluded(row, h, k) && !Beaten(row, h, k) {
      forall i | 0 <= i < k && row[i].symbol == row[h].symbol ensures out[i].suppressed != 0 {
        NoneKept(row, final, h, i);
        assert out[i] == Decided(row, final, i, k);
      }
    }
  }

  /** When the first action on a token is kept. */
  lemma HeadKept(row: seq<Action>, final: bool, h: nat)
    requires h < |row| && Head(row, h) == h
    ensures FateOf(row, final, h, |row|) == Kept <==>
      !(row[h].shift && !(final && row[h].symbol == 0) && (Beaten(row, h, |row|) || Excluded(row, h, |row|)))
  {
  }

  lemma SomeReductionKept(row: seq<Action>, final: bool, h: nat) returns (m: nat)
    requires RowOK(row) && h < |row| && Head(row, h) == h && Beaten(row, h, |row|)
    ensures m < |row| && row[m].symbol == row[h].symbol && FateOf(row, final, m, |row|) == Kept
  {
    if row[h].shift && !(final && row[h].symbol == 0) {
      var j :| h < j < |row| && row[j].symbol == row[h].symbol && Beats(row[h], row[j]);
      m := FirstToBeat(row, h, j);
      HeadsAgree(row, h, m);
    } else {
      m := h;
    }
  }

  lemma NoneKept(row: seq<Action>, final: bool, h: nat, i: nat)
    requires RowOK(row) && h < |row| && Head(row, h) == h && i < |row| && row[i].symbol == row[h].symbol
    requires row[h].shift && !(final && row[h].symbol == 0) && Excluded(row, h, |row|) && !Beaten(row, h, |row|)
    ensures FateOf(row, final, i, |row|) != Kept
  {
    if i < h { HeadsAgree(row, i, h); } else { HeadsAgree(row, h, i); }
    assert h < i ==> !Beats(row[h], row[i]);
  }

  lemma {:induction false} FirstToBeat(row: seq<Action>, h: nat, j: nat) returns (m: nat)
    requires h < j < |row| && row[j].symbol == row[h].symbol && Beats(row[h], row[j])
    ensures h < m <= j && row[m].symbol == row[h].symbol && Beats(row[h], row[m]) && !Beaten(row, h, m)
    decreases j
  {
    if Beaten(row, h, j) {
      var i :| h < i < j && row[i].symbol == row[h].symbol && Beats(row[h], row[i]);
      m := FirstToBeat(row, h, i);
    } else {
      m := j;
    }
  }

  // ---------------------------------------------------------------------
  // All states
  // ---------------------------------------------------------------------

  lemma RowIsOK(g: Grammar, a: Automaton, pr: Precedence, t: Reductions, la: seq<set<nat>>, q: nat, row: seq<Action>)
    requires PrecedenceFor(g, pr) && |la| == |t.ruleno| && IsActionRow(g, a, pr, t, la, q, row)
    ensures RowOK(row)
  {
    forall i | 0 <= i < |row| ensures row[i].symbol >= 0 && row[i].suppressed == 0 {
      assert ActionOf(g, a, pr, t, la, q, row[i]);
    }
    forall i, j | 0 <= i < j < |row| && row[i].symbol == row[j].symbol ensures !row[j].shift {
      assert Before(row[i], row[j]);
      assert ActionOf(g, a, pr, t, la, q, row[i]) && ActionOf(g, a, pr, t, la, q, row[j]);
    }
    forall i, j | 0 <= i < j < |row|
      ensures row[i].symbol <= row[j].symbol
      ensures row[i].symbol == row[j].symbol && !row[i].shift ==> row[i].number < row[j].number
    {
      assert Before(row[i], row[j]);
    }
  }

  /** The row of state `q` as output.c finds it: the state's actions with their fates. */
  ghost predicate FinalRow(g: Grammar, a: Automaton, pr: Precedence, t: Reductions, la: seq<set<nat>>, final: nat, q: nat, out: seq<Action>)
    requires PrecedenceFor(g, pr) && |la| == |t.ruleno|
  {
    exists row :: IsActionRow(g, a, pr, t, la, q, row) && Resolves(row, q == final, out)
  }

  /** find_final_state: the state entered from state 0 on the goal. */
  method FindFinalState(g: Grammar, a: Automaton) returns (final: nat)
    requires IsLR0(g, a)
    ensures HasGoto(a, 0, g.Goal()) && final == Goto(a, 0, g.Goal())
  {
    StartShiftsGoal(g, a);
    final := 0;
    var goal := g.ritem[1];
    var i := |a.shifts[0]|;
    while i > 0
      invariant 0 <= i <= |a.shifts[0]|
      invariant forall j :: i <= j < |a.shifts[0]| ==> SymbolOf(a, 0, j) != goal
    {
      i := i - 1;
      final := a.shifts[0][i];
      SymbolInRange(g, a, 0, i);
      GotoIs(g, a, 0, i);
      if a.states[final].symbol == goal {
        return;
      }
    }
    NotAmongShifts(g, a, 0, goal);
  }

  lemma StartShiftsGoal(g: Grammar, a: Automaton)
    requires IsLR0(g, a)
    ensures HasGoto(a, 0, g.Goal())
  {
    StateFacts(g, a, 0);
    ItemGivesGoto(g, a, 0, 1);
  }

  /** The only reduction of a row that a state without shifts can always do: 0 if there
      is a live shift, two different live reductions, or none except on the
      `error` token. */
  method SoleReduction(row: seq<Action>) returns (ruleno: nat)
    requires forall x :: x in row && !x.shift ==> x.number > 0
    ensures ruleno > 0 <==> SoleRule(row, ruleno)
    ensures ruleno == 0 ==> forall r :: !SoleRule(row, r)
  {
    var count := 0;
    ruleno := 0;
    for p := 0 to |row|
      invariant forall i :: 0 <= i < p && row[i].suppressed == 0 ==> !row[i].shift && row[i].number == ruleno
      invariant count > 0 <==> exists i :: 0 <= i < p && row[i].suppressed == 0 && row[i].symbol != 1
      invariant count >= 0
      invariant ruleno > 0 <==> exists i :: 0 <= i < p && row[i].suppressed == 0
    {
      assert row[p] in row;
      if row[p].shift && row[p].suppressed == 0 {
        ruleno := 0;
        return;
      } else if !row[p].shift && row[p].suppressed == 0 {
        if ruleno > 0 && row[p].number != ruleno {
          ruleno := 0;
          return;
        }
        if row[p].symbol != 1 {
          count := count + 1;
        }
        ruleno := row[p].number;
      }
    }
    if count == 0 {
      ruleno := 0;
    }
  }

  /** Every live action is the reduction by `r`, and one of them is not on `error`. */
  ghost predicate SoleRule(row: seq<Action>, r: nat) {
    (forall i :: 0 <= i < |row| && row[i].suppressed == 0 ==> !row[i].shift && row[i].number == r) &&
    exists i :: 0 <= i < |row| && row[i].suppressed == 0 && row[i].symbol != 1
  }

  datatype ParserRows = ParserRows(rows: seq<seq<Action>>, defred: seq<nat>, final: nat)

  /** The result of make_parser. */
  ghost predicate IsParser(g: Grammar, a: Automaton, pr: Precedence, t: Reductions, la: seq<set<nat>>, p: ParserRows)
    requires PrecedenceFor(g, pr) && |la| == |t.ruleno|
  {
    |p.rows| == |p.defred| == |a.states| &&
    HasGoto(a, 0, g.Goal()) && p.final == Goto(a, 0, g.Goal()) &&
    (forall q: nat :: q < |p.rows| ==> FinalRow(g, a, pr, t, la, p.final, q, p.rows[q])) &&
    (forall q: nat :: q < |p.rows| ==> DefaultOK(p.rows[q], p.defred[q]))
  }

  /** The default reduction is the sole rule, and 0 when there is none. */
  ghost predicate DefaultOK(row: seq<Action>, r: nat) {
    (r > 0 <==> SoleRule(row, r)) && (r == 0 ==> forall s :: !SoleRule(row, s))
  }

  /** make_parser, with remove_conflicts and defreds; the totals count all states. */
  method MakeParser(g: Grammar, a: Automaton, pr: Precedence, t: Reductions, LA: array<bv32>)
    returns (p: ParserRows, SRtotal: nat, RRtotal: nat)
    requires IsLR0(g, a) && PrecedenceFor(g, pr) && ReductionsNumbered(a, t) && Matrix(LA[..], |t.ruleno|, WordSize(g.start))
    ensures IsParser(g, a, pr, t, Rows(LA[..], |t.ruleno|, WordSize(g.start)), p)
    ensures SRtotal + RRtotal == Conflicts(p.rows)
    ensures SRtotal == TotalFates(p.rows, p.final, ShiftReduce) && RRtotal == TotalFates(p.rows, p.final, ReduceReduce)
  {
    ghost var la := Rows(LA[..], |t.ruleno|, WordSize(g.start));
    var parser := AllActions(g, a, pr, t, LA);
    var final := FindFinalState(g, a);
    var rows;
    rows, SRtotal, RRtotal := RemoveConflicts(g, a, pr, t, la, final, parser);
    var defred := DefaultReductions(g, a, pr, t, la, final, rows);
    p := ParserRows(rows, defred, final);
  }

  /** The first loop of make_parser. */
  method AllActions(g: Grammar, a: Automaton, pr: Precedence, t: Reductions, LA: array<bv32>) returns (parser: seq<seq<Action>>)
    requires IsLR0(g, a) && PrecedenceFor(g, pr) && ReductionsNumbered(a, t) && Matrix(LA[..], |t.ruleno|, WordSize(g.start))
    ensures |parser| == |a.states|
    ensures forall q: nat :: q < |parser| ==> IsActionRow(g, a, pr, t, Rows(LA[..], |t.ruleno|, WordSize(g.start)), q, parser[q])
  {
    ghost var la := Rows(LA[..], |t.ruleno|, WordSize(g.start));
    parser := [];
    for i := 0 to |a.states|
      invariant |parser| == i && forall q: nat :: q < i ==> IsActionRow(g, a, pr, t, la, q, parser[q])
    {
      var row := ParseActions(g, a, pr, t, LA, i);
      parser := parser + [row];
    }
  }

  /** remove_conflicts */
  method RemoveConflicts(g: Grammar, a: Automaton, pr: Precedence, t: Reductions, ghost la: seq<set<nat>>, final: nat,
                         parser: seq<seq<Action>>)
    returns (rows: seq<seq<Action>>, SRtotal: nat, RRtotal: nat)
    requires PrecedenceFor(g, pr) && |la| == |t.ruleno| && |parser| == |a.states|
    requires forall q: nat :: q < |parser| ==> IsActionRow(g, a, pr, t, la, q, parser[q])
    ensures |rows| == |parser| && forall q: nat :: q < |rows| ==> FinalRow(g, a, pr, t, la, final, q, rows[q])
    ensures SRtotal + RRtotal == Conflicts(rows)
    ensures SRtotal == TotalFates(rows, final, ShiftReduce) && RRtotal == TotalFates(rows, final, ReduceReduce)
  {
    hide CountFate, FateOf, RowOK, Resolves, CountConflicts, IsActionRow;
    rows := [];
    SRtotal, RRtotal := 0, 0;
    for i := 0 to |a.states|
      invariant |rows| == i && forall q: nat :: q < i ==> FinalRow(g, a, pr, t, la, final, q, rows[q])
      invariant SRtotal + RRtotal == Conflicts(rows)
      invariant SRtotal == TotalFates(rows, final, ShiftReduce) && RRtotal == TotalFates(rows, final, ReduceReduce)
    {
      RowIsOK(g, a, pr, t, la, i, parser[i]);
      var out, SRcount, RRcount := RemoveConflictsIn(parser[i], i == final);
      FieldsKept(parser[i], i == final, out);
      CountsAddUp(parser[i], i == final, out, |out|);
      UnmarkedIs(parser[i], i == final, out);
      assert FinalRow(g, a, pr, t, la, final, i, out);
      SRtotal, RRtotal := SRtotal + SRcount, RRtotal + RRcount;
      assert (rows + [out])[..i] == rows;
      rows := rows + [out];
    }
  }

  /** defreds */
  method DefaultReductions(g: Grammar, a: Automaton, pr: Precedence, t: Reductions, ghost la: seq<set<nat>>, final: nat,
                           rows: seq<seq<Action>>)
    returns (defred: seq<nat>)
    requires IsLR0(g, a) && PrecedenceFor(g, pr) && |la| == |t.ruleno| && |rows| == |a.states| && ReductionsNumbered(a, t)
    requires forall q: nat :: q < |rows| ==> FinalRow(g, a, pr, t, la, final, q, rows[q])
    ensures |defred| == |rows| && forall q: nat :: q < |rows| ==> DefaultOK(rows[q], defred[q])
  {
    defred := [];
    for i := 0 to |a.states|
      invariant |defred| == i && forall q: nat :: q < i ==> DefaultOK(rows[q], defred[q])
    {
      LiveRules(g, a, pr, t, la, final, i, rows[i]);
      var r := SoleReduction(rows[i]);
      defred := defred + [r];
    }
  }

  /** A finished list without its marks: the list it came from. */
  ghost function Unmarked(out: seq<Action>): (row: seq<Action>)
    ensures |row| == |out|
  {
    seq(|out|, i requires 0 <= i < |out| => out[i].(suppressed := 0))
  }

  lemma UnmarkedIs(row: seq<Action>, final: bool, out: seq<Action>)
    requires RowOK(row) && Resolves(row, final, out)
    ensures Unmarked(out) == row
  {
    hide FateOf;
    forall i | 0 <= i < |row| ensures Unmarked(out)[i] == row[i] {
      assert out[i] == Decided(row, final, i, |row|);
    }
  }

  /** How many actions of all states have fate `f`. */
  ghost function TotalFates(rows: seq<seq<Action>>, final: nat, f: Fate): nat {
    if rows == [] then 0
    else
      var n := |rows| - 1;
      TotalFates(rows[..n], final, f) + CountFate(Unmarked(rows[n]), n == final, f, |rows[n]|)
  }

  ghost function Conflicts(rows: seq<seq<Action>>): nat {
    if rows == [] then 0
    else Conflicts(rows[..|rows| - 1]) + CountConflicts(rows[|rows| - 1], |rows[|rows| - 1]|)
  }

  /** The actions of a finished row: where they come from. */
  lemma LiveRules(g: Grammar, a: Automaton, pr: Precedence, t: Reductions, la: seq<set<nat>>, final: nat, q: nat, out: seq<Action>)
    requires IsLR0(g, a) && q < |a.states| && PrecedenceFor(g, pr) && |la| == |t.ruleno| && ReductionsNumbered(a, t)
    requires FinalRow(g, a, pr, t, la, final, q, out)
    ensures forall x :: x in out && !x.shift ==> x.number > 0 && x.number in a.reductions[q] && 0 <= x.symbol < g.start
    ensures forall x :: x in out && x.shift ==> 0 < x.symbol < g.start && HasGoto(a, q, x.symbol) && x.number == Goto(a, q, x.symbol)
  {
    var row :| IsActionRow(g, a, pr, t, la, q, row) && Resolves(row, q == final, out);
    forall x | x in out
      ensures !x.shift ==> x.number > 0 && x.number in a.reductions[q] && 0 <= x.symbol < g.start
      ensures x.shift ==> 0 < x.symbol < g.start && HasGoto(a, q, x.symbol) && x.number == Goto(a, q, x.symbol)
    {
      var i :| 0 <= i < |out| && out[i] == x;
      assert ActionOf(g, a, pr, t, la, q, row[i]);
      if !x.shift {
        var j: nat :| ReduceAt(pr, t, la, q, j, row[i]);
        RuleOfNumber(g, a, t, q, j);
      }
    }
  }

  // ---------------------------------------------------------------------
  // Grammars without conflicts
  // ---------------------------------------------------------------------

  /** No action of any state has been dropped. */
  ghost predicate NoneDropped(p: ParserRows) {
    forall q, i :: 0 <= q < |p.rows| && 0 <= i < |p.rows[q]| ==> p.rows[q][i].suppressed == 0
  }

  /** Nothing is dropped from a list exactly when no two of its actions are on the same
      token. */
  lemma NoneDroppedIff(row: seq<Action>, final: bool, out: seq<Action>)
    requires RowOK(row) && Resolves(row, final, out)
    ensures (forall i :: 0 <= i < |row| ==> out[i].suppressed == 0) <==>
      forall i, j :: 0 <= i < j < |row| ==> row[i].symbol != row[j].symbol
  {
    hide FateOf, RowOK;
    if forall i, j :: 0 <= i < j < |row| ==> row[i].symbol != row[j].symbol {
      forall i | 0 <= i < |row| ensures out[i].suppressed == 0 {
        SoleKept(row, final, i);
        assert out[i] == Decided(row, final, i, |row|);
      }
    }
    if forall i :: 0 <= i < |row| ==> out[i].suppressed == 0 {
      forall i, j | 0 <= i < j < |row| ensures row[i].symbol != row[j].symbol {
        if row[i].symbol == row[j].symbol {
          AtMostOneKept(row, final, out, i, j);
        }
      }
    }
  }

  lemma SoleKept(row: seq<Action>, final: bool, i: nat)
    requires i < |row| && forall i, j :: 0 <= i < j < |row| ==> row[i].symbol != row[j].symbol
    ensures FateOf(row, final, i, |row|) == Kept
  {
  }

  /** Without precedences nothing is dropped from a list exactly when no conflict is counted in it. */
  lemma NoConflictsInRow(row: seq<Action>, final: bool, out: seq<Action>)
    requires RowOK(row) && Resolves(row, final, out) && forall i :: 0 <= i < |row| ==> row[i].prec <= 0
    ensures CountConflicts(out, |row|) == 0 <==> forall i :: 0 <= i < |row| ==> out[i].suppressed == 0
  {
    forall i | 0 <= i < |row| ensures out[i].suppressed <= 1 {
      assert out[i] == Decided(row, final, i, |row|);
    }
    CountedAll(out, |out|);
  }

  lemma {:induction false} CountedAll(out: seq<Action>, k: nat)
    requires k <= |out| && forall i :: 0 <= i < |out| ==> out[i].suppressed <= 1
    ensures CountConflicts(out, k) == 0 <==> forall i :: 0 <= i < k ==> out[i].suppressed == 0
  {
    if k > 0 {
      CountedAll(out, k - 1);
    }
  }

  ghost predicate NoPrecedence(pr: Precedence) {
    (forall i :: 0 <= i < |pr.symbolPrec| ==> pr.symbolPrec[i] <= 0) && forall i :: 0 <= i < |pr.rulePrec| ==> pr.rulePrec[i] <= 0
  }

  /** Without precedences no action is dropped exactly when the totals that make_parser reports
      are 0. */
  lemma NoConflictsNoneDropped(g: Grammar, a: Automaton, pr: Precedence, t: Reductions, la: seq<set<nat>>, p: ParserRows)
    requires PrecedenceFor(g, pr) && |la| == |t.ruleno| && IsParser(g, a, pr, t, la, p) && NoPrecedence(pr)
    ensures Conflicts(p.rows) == 0 <==> NoneDropped(p)
  {
    hide NoPrecedence;
    forall q: nat | q < |p.rows|
      ensures CountConflicts(p.rows[q], |p.rows[q]|) == 0 <==> forall i :: 0 <= i < |p.rows[q]| ==> p.rows[q][i].suppressed == 0
    {
      assert FinalRow(g, a, pr, t, la, p.final, q, p.rows[q]);
      FinalRowConflicts(g, a, pr, t, la, p.final, q, p.rows[q]);
    }
    ConflictsInRows(p.rows);
  }

  lemma FinalRowConflicts(g: Grammar, a: Automaton, pr: Precedence, t: Reductions, la: seq<set<nat>>, final: nat, q: nat, out: seq<Action>)
    requires PrecedenceFor(g, pr) && |la| == |t.ruleno| && FinalRow(g, a, pr, t, la, final, q, out) && NoPrecedence(pr)
    ensures CountConflicts(out, |out|) == 0 <==> forall i :: 0 <= i < |out| ==> out[i].suppressed == 0
  {
    hide Resolves, RowOK;
    var row: seq<Action> :| IsActionRow(g, a, pr, t, la, q, row) && Resolves(row, q == final, out);
    RowIsOK(g, a, pr, t, la, q, row);
    forall i | 0 <= i < |row| ensures row[i].prec <= 0 {
      assert ActionOf(g, a, pr, t, la, q, row[i]);
    }
    NoConflictsInRow(row, q == final, out);
    ResolvedSize(row, q == final, out);
  }

  lemma ResolvedSize(row: seq<Action>, final: bool, out: seq<Action>)
    requires Resolves(row, final, out)
    ensures |out| == |row|
  {
  }

  lemma {:induction false} ConflictsInRows(rows: seq<seq<Action>>)
    ensures Conflicts(rows) == 0 <==> forall q: nat :: q < |rows| ==> CountConflicts(rows[q], |rows[q]|) == 0
  {
    hide CountConflicts;
    if rows != [] {
      ConflictsInRows(rows[..|rows| - 1]);
    }
  }

  // ---------------------------------------------------------------------
  // Conflicts in terms of the declarations
  // ---------------------------------------------------------------------

  /** In state `q` the reductions on `tok` are by rule `r` and no other. */
  ghost predicate OnlyReduction(t: Reductions, la: seq<set<nat>>, q: nat, r: nat, tok: nat)
    requires |la| == |t.ruleno|
  {
    (exists j: nat :: j < |la| && NumberOf(t, q, j) && t.ruleno[j] == r && tok in la[j]) &&
    forall j: nat :: j < |la| && NumberOf(t, q, j) && tok in la[j] ==> t.ruleno[j] == r
  }

  /** The actions at `i` and after it are the shift of `tok` and the reduction by `r`. */
  ghost predicate ShiftThenReduce(a: Automaton, q: nat, out: seq<Action>, i: nat, tok: nat, r: nat) {
    i + 1 < |out| && HasGoto(a, q, tok) &&
    out[i].shift && out[i].symbol == tok && out[i].number == Goto(a, q, tok) &&
    !out[i + 1].shift && out[i + 1].symbol == tok && out[i + 1].number == r
  }

  /** A token that state `q` can shift and that one rule can be reduced on: what the declarations
      of the token and of the rule make of the two actions. */
  lemma ConflictByPrecedence(g: Grammar, a: Automaton, pr: Precedence, t: Reductions, la: seq<set<nat>>, p: ParserRows,
                             q: nat, tok: nat, r: nat) returns (i: nat)
    requires IsLR0(g, a) && PrecedenceFor(g, pr) && |la| == |t.ruleno| && ReductionsNumbered(a, t) && IsParser(g, a, pr, t, la, p)
    requires q < |a.states| && 0 < tok < g.start && HasGoto(a, q, tok) && OnlyReduction(t, la, q, r, tok)
    ensures q < |p.rows| && r < |pr.rulePrec| && g.start <= |pr.symbolPrec| == |pr.symbolAssoc|
    ensures ShiftThenReduce(a, q, p.rows[q], i, tok, r)
    ensures forall k :: 0 <= k < |p.rows[q]| && p.rows[q][k].symbol == tok ==> k == i || k == i + 1
    ensures (p.rows[q][i].suppressed, p.rows[q][i + 1].suppressed) ==
      if pr.symbolPrec[tok] <= 0 || pr.rulePrec[r] <= 0 then (0, 1)
      else if pr.symbolPrec[tok] < pr.rulePrec[r] then (2, 0)
      else if pr.symbolPrec[tok] > pr.rulePrec[r] then (0, 2)
      else if pr.symbolAssoc[tok] == LeftAssoc then (2, 0)
      else if pr.symbolAssoc[tok] == RightAssoc then (0, 2)
      else (2, 2)
  {
    hide Resolves, RowOK, FateOf, IsLR0, Goto, HasGoto, Ordered;
    LR0Grammar(g, a);
    assert FinalRow(g, a, pr, t, la, p.final, q, p.rows[q]);
    var row: seq<Action> :| IsActionRow(g, a, pr, t, la, q, row) && Resolves(row, q == p.final, p.rows[q]);
    RowIsOK(g, a, pr, t, la, q, row);
    var j: nat :| j < |la| && NumberOf(t, q, j) && t.ruleno[j] == r && tok in la[j];
    RuleOfNumber(g, a, t, q, j);
    var x, y := ShiftOn(pr, tok, Goto(a, q, tok)), ReduceBy(pr, r, tok);
    assert ReduceAt(pr, t, la, q, j, y);
    assert ActionOf(g, a, pr, t, la, q, x) && ActionOf(g, a, pr, t, la, q, y);
    forall z | z in row && z.symbol == tok ensures z == x || z == y {
      assert ActionOf(g, a, pr, t, la, q, z);
    }
    i := PairInRow(row, x, y);
    ShiftReduceRule(row, q == p.final, p.rows[q], i);
    FieldsKept(row, q == p.final, p.rows[q]);
  }

  /** Two actions on a token that has no others are next to each other. */
  lemma PairInRow(row: seq<Action>, x: Action, y: Action) returns (i: nat)
    requires Ordered(row) && x in row && y in row && x.shift && !y.shift && x.symbol == y.symbol
    requires forall z :: z in row && z.symbol == x.symbol ==> z == x || z == y
    ensures i + 1 < |row| && row[i] == x && row[i + 1] == y
    ensures forall k :: 0 <= k < |row| && row[k].symbol == x.symbol ==> k == i || k == i + 1
  {
    hide Ordered, Before;
    i :| i < |row| && row[i] == x;
    var j: nat :| j < |row| && row[j] == y;
    InOrder(row, i, j);
    forall k | 0 <= k < |row| && row[k].symbol == x.symbol ensures k == i || k == j {
      InOrder(row, i, k);
      InOrder(row, j, k);
    }
    if i + 1 < |row| {
      InOrder(row, i, i + 1);
      InOrder(row, i + 1, j);
    }
  }

  /** Before decides about places, and a list says nothing twice. */
  lemma InOrder(row: seq<Action>, i: nat, j: nat)
    requires Ordered(row) && i < |row| && j < |row|
    ensures row[i] == row[j] ==> i == j
    ensures row[i].symbol == row[j].symbol && row[i].shift && !row[j].shift ==> i < j
    ensures i <= j ==> row[i].symbol <= row[j].symbol
  {
    if i < j { assert Before(row[i], row[j]); }
    if j < i { assert Before(row[j], row[i]); }
  }

  lemma FieldsKept(row: seq<Action>, final: bool, out: seq<Action>)
    requires Resolves(row, final, out)
    ensures |out| == |row| && forall i :: 0 <= i < |row| ==> out[i] == row[i].(suppressed := out[i].suppressed)
  {
    forall i | 0 <= i < |row| ensures out[i] == row[i].(suppressed := out[i].suppressed) {
      assert out[i] == Decided(row, final, i, |row|);
    }
  }

  /** A token that state `q` cannot shift: of the reductions on it the one by the lowest rule is
      kept, all others are marked as conflicts. */
  lemma ConflictByOrder(g: Grammar, a: Automaton, pr: Precedence, t: Reductions, la: seq<set<nat>>, p: ParserRows,
                        q: nat, tok: nat, j: nat) returns (i: nat)
    requires IsLR0(g, a) && PrecedenceFor(g, pr) && |la| == |t.ruleno| && ReductionsNumbered(a, t) && IsParser(g, a, pr, t, la, p)
    requires q < |a.states| && tok < g.start && (tok == 0 || !HasGoto(a, q, tok)) && j < |la| && NumberOf(t, q, j) && tok in la[j]
    ensures q < |p.rows| && i < |p.rows[q]| && !p.rows[q][i].shift && p.rows[q][i].symbol == tok && p.rows[q][i].number == t.ruleno[j]
    ensures p.rows[q][i].suppressed ==
      if forall k: nat :: k < |la| && NumberOf(t, q, k) && tok in la[k] ==> t.ruleno[j] <= t.ruleno[k] then 0 else 1
  {
    hide Resolves, RowOK, FateOf, IsLR0, HasGoto, Ordered, Head;
    LR0Grammar(g, a);
    assert FinalRow(g, a, pr, t, la, p.final, q, p.rows[q]);
    var row: seq<Action> :| IsActionRow(g, a, pr, t, la, q, row) && Resolves(row, q == p.final, p.rows[q]);
    RowIsOK(g, a, pr, t, la, q, row);
    RuleOfNumber(g, a, t, q, j);
    var y := ReduceBy(pr, t.ruleno[j], tok);
    assert ReduceAt(pr, t, la, q, j, y);
    assert ActionOf(g, a, pr, t, la, q, y);
    i :| i < |row| && row[i] == y;
    var h := Head(row, i);
    assert ActionOf(g, a, pr, t, la, q, row[h]);
    var k: nat :| ReduceAt(pr, t, la, q, k, row[h]);
    ReduceReduceKeepsLowest(row, q == p.final, p.rows[q], i);
    FieldsKept(row, q == p.final, p.rows[q]);
    forall l: nat | l < |la| && NumberOf(t, q, l) && tok in la[l] ensures t.ruleno[k] <= t.ruleno[l] {
      RuleOfNumber(g, a, t, q, l);
      var z := ReduceBy(pr, t.ruleno[l], tok);
      assert ReduceAt(pr, t, la, q, l, z);
      assert ActionOf(g, a, pr, t, la, q, z);
    }
    OneOfARule(row, i, h);
  }

  lemma OneOfARule(row: seq<Action>, i: nat, h: nat)
    requires RowOK(row) && i < |row| && h < |row| && row[i].symbol == row[h].symbol && !row[i].shift && !row[h].shift
    ensures row[i].number == row[h].number ==> i == h
  {
  }
}
