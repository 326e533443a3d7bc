/** What the lookahead sets are for: the shifts and reductions that build a parse tree,
    from the bottom up, are all among the actions of the states they happen in. */
module Sentences {
  import opened Grammars
  import opened Closures
  import opened LR0
  import opened Automata
  import opened GotoMaps
  import opened Lalr
  import opened Firsts
  import opened Propagation
  import opened Agreement
  import opened Trees

  datatype Move = ShiftMove(token: int) | ReduceMove(rule: nat)

  /** The automaton with its reductions and their lookaheads. */
  datatype Machine = Machine(g: Grammar, a: Automaton, t: Reductions, la: seq<set<nat>>)

  ghost predicate IsMachine(m: Machine) {
    IsLR0(m.g, m.a) && CoresOK(m.g, m.a.states) && ReductionsNumbered(m.a, m.t) && |m.la| == |m.t.ruleno| &&
    exists gm: GotoMap, nullable: seq<bool> :: HasLookaheads(m, gm, nullable)
  }

  ghost predicate HasLookaheads(m: Machine, gm: GotoMap, nullable: seq<bool>)
    requires m.g.WellFormed()
  {
    GotoMapOK(m.g, m.a, gm) && |gm.from| == |gm.to| && |nullable| == m.g.nsyms && NullTable(m.g, nullable) &&
    LeastLookaheads(m.g, m.a, gm, nullable, m.t, m.la)
  }

  /** Token `i` of the input, and the end marker after the last one. */
  function Tok(w: seq<int>, i: nat): int {
    if i < |w| then w[i] else 0
  }

  /** The reduction by rule `r` is an action of state `q` on token `tok`. */
  ghost predicate Reduces(m: Machine, q: nat, r: nat, tok: int) {
    exists j: nat :: j < |m.la| == |m.t.ruleno| && NumberOf(m.t, q, j) && m.t.ruleno[j] == r && tok >= 0 && tok in m.la[j]
  }

  /** The move is an action of the state reached over `word`, on token `tok`. */
  ghost predicate Legal(m: Machine, word: seq<int>, tok: int, mv: Move) {
    CanRun(m.a, 0, word) && Run(m.a, 0, word) < |m.a.states| &&
    match mv
    case ShiftMove(x) => x == tok && 0 < x < m.g.start && HasGoto(m.a, Run(m.a, 0, word), x)
    case ReduceMove(r) => Reduces(m, Run(m.a, 0, word), r, tok)
  }

  /** The symbols on the stack after the move. */
  ghost function Next(g: Grammar, word: seq<int>, mv: Move): seq<int>
    requires g.WellFormed()
  {
    match mv
    case ShiftMove(x) => word + [x]
    case ReduceMove(r) => if 2 <= r < g.nrules && |g.Rhs(r)| <= |word| then word[..|word| - |g.Rhs(r)|] + [g.rlhs[r]] else word
  }

  /** The moves are legal one after another and lead from `word`, with `i` tokens read, to
      `word'`, with `i'` tokens read. */
  ghost predicate Leads(m: Machine, w: seq<int>, word: seq<int>, i: nat, plan: seq<Move>, word': seq<int>, i': nat)
    requires m.g.WellFormed()
    decreases |plan|
  {
    if plan == [] then word == word' && i == i'
    else
      i <= |w| && Legal(m, word, Tok(w, i), plan[0]) &&
      Leads(m, w, Next(m.g, word, plan[0]), if plan[0].ShiftMove? then i + 1 else i, plan[1..], word', i')
  }

  lemma {:induction false} LeadsJoin(m: Machine, w: seq<int>, word: seq<int>, i: nat, p: seq<Move>, word': seq<int>, i': nat,
                                     q: seq<Move>, word'': seq<int>, i'': nat)
    requires m.g.WellFormed() && Leads(m, w, word, i, p, word', i') && Leads(m, w, word', i', q, word'', i'')
    ensures Leads(m, w, word, i, p + q, word'', i'')
    decreases |p|
  {
    hide Legal, Next;
    if p == [] {
      assert p + q == q;
    } else {
      LeadsJoin(m, w, Next(m.g, word, p[0]), if p[0].ShiftMove? then i + 1 else i, p[1..], word', i', q, word'', i'');
      assert (p + q)[1..] == p[1..] + q;
    }
  }

  // ---------------------------------------------------------------------
  // Forced lookaheads go where they should
  // ---------------------------------------------------------------------

  lemma ForcedMoves(g: Grammar, a: Automaton, q: nat, x: int, t: nat)
    requires IsLR0(g, a) && q < |a.states| && InClosure(g, a.states[q].items, x) && SymAt(g, x) > 0 && HasGoto(a, q, SymAt(g, x))
    requires Forced(g, a.states[q].items, x, t)
    ensures Forced(g, a.states[Goto(a, q, SymAt(g, x))].items, x + 1, t)
  {
    hide Spreads, SpreadsFrom, InClosure, LocalClosed;
    GotoOK(g, a, q, SymAt(g, x));
    StateCanonical(g, a, q);
    var k, k' := a.states[q].items, a.states[Goto(a, q, SymAt(g, x))].items;
    assert Moves(g, k, x, k');
    forall s: Assignment | Spreads(g, s) ensures t in s(k', x + 1) {
      SpreadsAcross(g, s, k, x, k');
    }
  }

  lemma SpreadsAcross(g: Grammar, s: Assignment, k: seq<int>, x: int, k': seq<int>)
    requires g.WellFormed() && Spreads(g, s) && Canonical(g, k) && Moves(g, k, x, k')
    ensures s(k, x) <= s(k', x + 1)
  {
    hide LocalClosed, Moves;
  }

  lemma SpreadsWithin(g: Grammar, s: Assignment, k: seq<int>, x: int, r: int)
    requires g.WellFormed() && Spreads(g, s) && Canonical(g, k) && InClosure(g, k, x) && CallsFor(g, x, r)
    ensures Contribution(g, x, s(k, x)) <= s(k, g.rrhs[r])
  {
    hide InClosure, Moves, Contribution;
    assert LocalClosed(g, k, Part(s, k));
  }

  lemma ForcedCalls(g: Grammar, a: Automaton, q: nat, x: int, r: nat, t: nat)
    requires IsLR0(g, a) && q < |a.states| && InClosure(g, a.states[q].items, x) && CallsFor(g, x, r)
    requires FirstAt(g, x + 1, t) || (EmptyAt(g, x + 1) && Forced(g, a.states[q].items, x, t))
    ensures Forced(g, a.states[q].items, g.rrhs[r], t)
  {
    hide Spreads, SpreadsFrom, InClosure, LocalClosed, FirstAt, EmptyAt;
    StateCanonical(g, a, q);
    var k := a.states[q].items;
    forall s: Assignment | Spreads(g, s) ensures t in s(k, g.rrhs[r]) {
      SpreadsWithin(g, s, k, x, r);
    }
  }

  // ---------------------------------------------------------------------
  // What follows a symbol of a rule
  // ---------------------------------------------------------------------

  /** What the trees after a symbol begin with can follow it; if they yield nothing, what
      follows can be empty. */
  lemma {:induction false} Following(g: Grammar, f: Forest, r: nat, d: nat)
    requires g.WellFormed() && 2 <= r < g.nrules && d <= |g.Rhs(r)| && ForestOK(g, f, g.Rhs(r)[d..])
    ensures if Yields(f) == [] then EmptyAt(g, g.rrhs[r] + d) else FirstAt(g, g.rrhs[r] + d, Yields(f)[0])
    decreases f
  {
    hide Derives;
    var y := g.rrhs[r] + d;
    RuleEnd(g, r, d);
    match f
    case Nil =>
      assert Passes(g, y, y) && SymAt(g, y) < 0;
    case Cons(t, rest) =>
      assert g.Rhs(r)[d..][1..] == g.Rhs(r)[d + 1..];
      TreeDerives(g, t);
      if Yield(t) == [] {
        Following(g, rest, r, d + 1);
        Passed(g, y);
      } else {
        TreeTokens(g, t);
        assert Yield(t) == [Yield(t)[0]] + Yield(t)[1..];
        assert Begins(g, [SymAt(g, y)], Yield(t)[0]);
        assert Passes(g, y, y);
      }
  }

  lemma Passed(g: Grammar, y: int)
    requires g.WellFormed() && Vanishes(g, SymAt(g, y))
    ensures EmptyAt(g, y + 1) ==> EmptyAt(g, y)
    ensures forall t :: FirstAt(g, y + 1, t) ==> FirstAt(g, y, t)
  {
    hide Vanishes, Begins;
    if EmptyAt(g, y + 1) {
      var z :| Passes(g, y + 1, z) && SymAt(g, z) < 0;
      assert Passes(g, y, z);
    }
    forall t | FirstAt(g, y + 1, t) ensures FirstAt(g, y, t) {
      var z :| Passes(g, y + 1, z) && Begins(g, [SymAt(g, z)], t);
      assert Passes(g, y, z);
    }
  }

  lemma {:induction false} TreeTokens(g: Grammar, t: Tree)
    requires g.WellFormed() && TreeOK(g, t)
    ensures AreTokens(g, Yield(t))
  {
    match t
    case Leaf(x) =>
    case Node(r, kids) => ForestTokens(g, kids, g.Rhs(r));
  }

  lemma {:induction false} ForestTokens(g: Grammar, f: Forest, u: seq<int>)
    requires g.WellFormed() && ForestOK(g, f, u)
    ensures AreTokens(g, Yields(f))
  {
    match f
    case Nil =>
    case Cons(t, rest) =>
      TreeTokens(g, t);
      ForestTokens(g, rest, u[1..]);
  }

  // ---------------------------------------------------------------------
  // The moves that build a tree
  // ---------------------------------------------------------------------

  function Plan(t: Tree): seq<Move> {
    match t
    case Leaf(x) => [ShiftMove(x)]
    case Node(r, kids) => Plans(kids) + [ReduceMove(r)]
  }

  function Plans(f: Forest): seq<Move> {
    match f
    case Nil => []
    case Cons(t, rest) => Plan(t) + Plans(rest)
  }

  /** The trees `f` come next in the input, at token `i`. */
  ghost predicate Ahead(w: seq<int>, i: nat, y: seq<int>) {
    i + |y| <= |w| && w[i..i + |y|] == y
  }

  /** The state reached over `word` has item `x` with lookahead `t`. */
  ghost predicate Expects(m: Machine, word: seq<int>, x: int, t: int)
    requires m.g.WellFormed()
  {
    t >= 0 && CanRun(m.a, 0, word) && Run(m.a, 0, word) < |m.a.states| &&
    InClosure(m.g, m.a.states[Run(m.a, 0, word)].items, x) && Forced(m.g, m.a.states[Run(m.a, 0, word)].items, x, t)
  }

  /** The symbol after the dot of item `x` has come: on to the next one. */
  lemma ExpectsNext(m: Machine, word: seq<int>, r: nat, d: nat, t: int)
    requires IsMachine(m) && 2 < r < m.g.nrules && d < |m.g.Rhs(r)| && Expects(m, word, m.g.rrhs[r] + d, t)
    ensures CanRun(m.a, 0, word) && Run(m.a, 0, word) < |m.a.states| && HasGoto(m.a, Run(m.a, 0, word), m.g.Rhs(r)[d])
    ensures Expects(m, word + [m.g.Rhs(r)[d]], m.g.rrhs[r] + (d + 1), t)
  {
    hide InClosure, Forced, StatesOK, CoresOK, HasLookaheads, HasGoto;
    var g, q, x := m.g, Run(m.a, 0, word), m.g.rrhs[r] + d;
    g.GetRule(r);
    ItemGivesGoto(g, m.a, q, x);
    ForcedMoves(g, m.a, q, x, t);
    GotoOK(g, m.a, q, g.Rhs(r)[d]);
    RunStep(m.a, 0, word, g.Rhs(r)[d]);
    KernelInClosure(g, m.a.states[Goto(m.a, q, g.Rhs(r)[d])].items, x + 1);
  }

  lemma KernelInClosure(g: Grammar, k: seq<int>, x: int)
    requires g.WellFormed() && x in k
    ensures InClosure(g, k, x)
  {
  }

  /** A rule of that symbol can be started instead. */
  lemma ExpectsRule(m: Machine, word: seq<int>, r: nat, d: nat, t: int, f: Forest, r': nat, t': int)
    requires IsMachine(m) && 2 < r < m.g.nrules && d < |m.g.Rhs(r)| && Expects(m, word, m.g.rrhs[r] + d, t)
    requires 2 < r' < m.g.nrules && m.g.rlhs[r'] == m.g.Rhs(r)[d] && ForestOK(m.g, f, m.g.Rhs(r)[d + 1..])
    requires t' == if Yields(f) == [] then t else Yields(f)[0]
    ensures Expects(m, word, m.g.rrhs[r'], t')
  {
    hide Forced, InClosure, StatesOK, CoresOK, HasLookaheads, ForestOK, FirstAt, EmptyAt, Run, CanRun;
    var g, q, x := m.g, Run(m.a, 0, word), m.g.rrhs[r] + d;
    g.GetRule(r);
    g.GetRule(r');
    ForestTokens(g, f, g.Rhs(r)[d + 1..]);
    Following(g, f, r, d + 1);
    KernelOK(g, m.a, q);
    ClosureExpands(g, m.a.states[q].items, x, r');
    ForcedCalls(g, m.a, q, x, r', t');
  }

  /** At the end of the rule it can be reduced by. */
  lemma ExpectsEnd(m: Machine, word: seq<int>, r: nat, t: int)
    requires IsMachine(m) && 2 < r < m.g.nrules && Expects(m, word, m.g.rrhs[r] + |m.g.Rhs(r)|, t)
    ensures Legal(m, word, t, ReduceMove(r))
  {
    hide InClosure, Forced;
    var g, q := m.g, Run(m.a, 0, word);
    g.GetRule(r);
    StateFacts(g, m.a, q);
    var j := NumberFor(m.a, m.t, q, r);
    var gm: GotoMap, nullable: seq<bool> :| HasLookaheads(m, gm, nullable);
    ReductionIsForced(g, m.a, gm, nullable, m.t, m.la, q, j, t);
  }

  lemma NumberFor(a: Automaton, t: Reductions, q: nat, r: nat) returns (j: nat)
    requires ReductionsNumbered(a, t) && q < |a.reductions| && r in a.reductions[q]
    ensures NumberOf(t, q, j) && j < |t.ruleno| && t.ruleno[j] == r
  {
    assert NumberedState(a, t.lookaheads, t.ruleno, q);
    var i: nat :| i < |a.reductions[q]| && a.reductions[q][i] == r;
    j := t.lookaheads[q] + i;
    assert t.ruleno[t.lookaheads[q]..t.lookaheads[q + 1]][i] == t.ruleno[j];
  }

  lemma {:induction false} TreeLeads(m: Machine, w: seq<int>, tr: Tree, word: seq<int>, i: nat)
    requires IsMachine(m) && TreeOK(m.g, tr) && Ahead(w, i, Yield(tr))
    requires CanRun(m.a, 0, word) && Run(m.a, 0, word) < |m.a.states| && HasGoto(m.a, Run(m.a, 0, word), Root(m.g, tr))
    requires tr.Node? ==> Expects(m, word, m.g.rrhs[tr.rule], Tok(w, i + |Yield(tr)|))
    ensures Leads(m, w, word, i, Plan(tr), word + [Root(m.g, tr)], i + |Yield(tr)|)
    decreases tr, 0
  {
    MachineGrammar(m);
    hide IsMachine, Expects, ForestOK, Leads, HasGoto, CanRun, Run, Grammar.WellFormed;
    match tr
    case Leaf(x) => LeafLeads(m, w, x, word, i);
    case Node(r, kids) => NodeLeads(m, w, r, kids, word, i);
  }

  lemma LeafLeads(m: Machine, w: seq<int>, x: int, word: seq<int>, i: nat)
    requires m.g.WellFormed() && 0 < x < m.g.start && Ahead(w, i, [x])
    requires CanRun(m.a, 0, word) && Run(m.a, 0, word) < |m.a.states| && HasGoto(m.a, Run(m.a, 0, word), x)
    ensures Leads(m, w, word, i, [ShiftMove(x)], word + [x], i + 1)
  {
    hide HasGoto, CanRun, Run, Grammar.WellFormed;
    assert w[i..i + 1][0] == w[i];
    assert [ShiftMove(x)][1..] == [];
  }

  lemma {:induction false} NodeLeads(m: Machine, w: seq<int>, r: nat, kids: Forest, word: seq<int>, i: nat)
    requires IsMachine(m) && 2 < r < m.g.nrules && ForestOK(m.g, kids, m.g.Rhs(r)) && Ahead(w, i, Yields(kids))
    requires Expects(m, word, m.g.rrhs[r], Tok(w, i + |Yields(kids)|))
    ensures Leads(m, w, word, i, Plans(kids) + [ReduceMove(r)], word + [m.g.rlhs[r]], i + |Yields(kids)|)
    decreases kids, 1
  {
    hide Coming, Arrived;
    NodeComes(m, w, r, kids, word, i);
    ForestLeads(m, w, kids, r, 0, word, i, Tok(w, i + |Yields(kids)|));
    NodeArrived(m, w, r, kids, word, i);
  }

  lemma NodeComes(m: Machine, w: seq<int>, r: nat, kids: Forest, word: seq<int>, i: nat)
    requires IsMachine(m) && 2 < r < m.g.nrules && ForestOK(m.g, kids, m.g.Rhs(r)) && Ahead(w, i, Yields(kids))
    requires Expects(m, word, m.g.rrhs[r], Tok(w, i + |Yields(kids)|))
    ensures Coming(m, w, kids, r, 0, word, i, Tok(w, i + |Yields(kids)|))
  {
    MachineGrammar(m);
    hide IsMachine, Expects, ForestOK, Yields, Tok;
    assert m.g.Rhs(r)[0..] == m.g.Rhs(r);
  }

  lemma NodeArrived(m: Machine, w: seq<int>, r: nat, kids: Forest, word: seq<int>, i: nat)
    requires IsMachine(m) && 2 < r < m.g.nrules && i + |Yields(kids)| <= |w|
    requires Arrived(m, w, kids, r, 0, word, i, Tok(w, i + |Yields(kids)|))
    ensures Leads(m, w, word, i, Plans(kids) + [ReduceMove(r)], word + [m.g.rlhs[r]], i + |Yields(kids)|)
  {
    MachineGrammar(m);
    hide IsMachine, Expects, Leads, Plans, Yields, Tok, Legal;
    var i' := i + |Yields(kids)|;
    assert m.g.Rhs(r)[0..] == m.g.Rhs(r);
    ExpectsEnd(m, word + m.g.Rhs(r), r, Tok(w, i'));
    ReduceLeads(m, w, word, r, i');
    LeadsJoin(m, w, word, i, Plans(kids), word + m.g.Rhs(r), i', [ReduceMove(r)], word + [m.g.rlhs[r]], i');
  }

  lemma ReduceLeads(m: Machine, w: seq<int>, word: seq<int>, r: nat, i: nat)
    requires m.g.WellFormed() && 2 <= r < m.g.nrules && i <= |w| && Legal(m, word + m.g.Rhs(r), Tok(w, i), ReduceMove(r))
    ensures Leads(m, w, word + m.g.Rhs(r), i, [ReduceMove(r)], word + [m.g.rlhs[r]], i)
  {
    hide Legal, Grammar.Rhs;
    assert (word + m.g.Rhs(r))[..|word|] == word;
    assert [ReduceMove(r)][1..] == [];
  }

  /** The trees `f` are those of rule `r` from place `d` on, and they come next. */
  ghost predicate Coming(m: Machine, w: seq<int>, f: Forest, r: nat, d: nat, word: seq<int>, i: nat, t: int) {
    IsMachine(m) && 2 < r < m.g.nrules && d <= |m.g.Rhs(r)| && ForestOK(m.g, f, m.g.Rhs(r)[d..]) &&
    Ahead(w, i, Yields(f)) && t == Tok(w, i + |Yields(f)|) && Expects(m, word, m.g.rrhs[r] + d, t)
  }

  /** They have been read and put together. */
  ghost predicate Arrived(m: Machine, w: seq<int>, f: Forest, r: nat, d: nat, word: seq<int>, i: nat, t: int) {
    m.g.WellFormed() && 2 < r < m.g.nrules && d <= |m.g.Rhs(r)| &&
    Leads(m, w, word, i, Plans(f), word + m.g.Rhs(r)[d..], i + |Yields(f)|) &&
    Expects(m, word + m.g.Rhs(r)[d..], m.g.rrhs[r] + |m.g.Rhs(r)|, t)
  }

  lemma {:induction false} ForestLeads(m: Machine, w: seq<int>, f: Forest, r: nat, d: nat, word: seq<int>, i: nat, t: int)
    requires Coming(m, w, f, r, d, word, i, t)
    ensures Arrived(m, w, f, r, d, word, i, t)
    decreases f, 0
  {
    hide Coming, Arrived;
    if f == Nil {
      NilArrives(m, w, r, d, word, i, t);
    } else {
      FirstTreeLeads(m, w, f, r, d, word, i, t);
      RestComes(m, w, f, r, d, word, i, t);
      ForestLeads(m, w, f.rest, r, d + 1, word + [m.g.Rhs(r)[d]], i + |Yield(f.tree)|, t);
      RestArrived(m, w, f, r, d, word, i, t);
    }
  }

  lemma NilArrives(m: Machine, w: seq<int>, r: nat, d: nat, word: seq<int>, i: nat, t: int)
    requires Coming(m, w, Nil, r, d, word, i, t)
    ensures Arrived(m, w, Nil, r, d, word, i, t)
  {
    hide Ahead, Expects, IsMachine;
    MachineGrammar(m);
    assert word + [] == word;
  }

  lemma RestComes(m: Machine, w: seq<int>, f: Forest, r: nat, d: nat, word: seq<int>, i: nat, t: int)
    requires Coming(m, w, f, r, d, word, i, t) && f.Cons?
    ensures m.g.WellFormed() && 2 < r < m.g.nrules && d < |m.g.Rhs(r)|
    ensures Coming(m, w, f.rest, r, d + 1, word + [m.g.Rhs(r)[d]], i + |Yield(f.tree)|, t)
  {
    hide IsMachine, Ahead, Expects, ForestOK, TreeOK, Yields, Plans, Yield, Plan, Root, Tok, Grammar.WellFormed, Grammar.Rhs;
    MachineGrammar(m);
    ForestAt(m.g, f, r, d);
    AheadParts(w, i, Yield(f.tree), Yields(f.rest));
    ExpectsNext(m, word, r, d, t);
  }

  lemma RestArrived(m: Machine, w: seq<int>, f: Forest, r: nat, d: nat, word: seq<int>, i: nat, t: int)
    requires Coming(m, w, f, r, d, word, i, t) && f.Cons? && m.g.WellFormed() && 2 < r < m.g.nrules && d < |m.g.Rhs(r)|
    requires Leads(m, w, word, i, Plan(f.tree), word + [m.g.Rhs(r)[d]], i + |Yield(f.tree)|)
    requires Arrived(m, w, f.rest, r, d + 1, word + [m.g.Rhs(r)[d]], i + |Yield(f.tree)|, t)
    ensures Arrived(m, w, f, r, d, word, i, t)
  {
    hide IsMachine, Ahead, Expects, Leads, ForestOK, TreeOK, Yields, Plans, Yield, Plan, Root, Tok, Grammar.WellFormed, Grammar.Rhs;
    ForestAt(m.g, f, r, d);
    var x, u := m.g.Rhs(r)[d], m.g.Rhs(r)[d + 1..];
    assert word + m.g.Rhs(r)[d..] == word + [x] + u;
    var i' := i + |Yield(f.tree)|;
    LeadsJoin(m, w, word, i, Plan(f.tree), word + [x], i', Plans(f.rest), word + [x] + u, i' + |Yields(f.rest)|);
  }

  lemma {:induction false} FirstTreeLeads(m: Machine, w: seq<int>, f: Forest, r: nat, d: nat, word: seq<int>, i: nat, t: int)
    requires Coming(m, w, f, r, d, word, i, t) && f.Cons?
    ensures m.g.WellFormed() && 2 < r < m.g.nrules && d < |m.g.Rhs(r)|
    ensures Leads(m, w, word, i, Plan(f.tree), word + [m.g.Rhs(r)[d]], i + |Yield(f.tree)|)
    decreases f.tree, 1
  {
    hide IsMachine, Ahead, Expects, Leads, Grammar.WellFormed, Grammar.Rhs, HasGoto, CanRun, Run, ForestOK, TreeOK, Yields, Plans, Tok, Yield, Plan, Root;
    MachineGrammar(m);
    ForestAt(m.g, f, r, d);
    var tr, rest := f.tree, f.rest;
    AheadParts(w, i, Yield(tr), Yields(rest));
    ExpectsNext(m, word, r, d, t);
    if tr.Node? {
      NodeRule(m.g, tr);
      ExpectsRule(m, word, r, d, t, rest, tr.rule, Tok(w, i + |Yield(tr)|));
    }
    TreeLeads(m, w, tr, word, i);
  }

  lemma ForestAt(g: Grammar, f: Forest, r: nat, d: nat)
    requires g.WellFormed() && 2 < r < g.nrules && d <= |g.Rhs(r)| && ForestOK(g, f, g.Rhs(r)[d..])
    ensures f.Nil? ==> g.Rhs(r)[d..] == [] && d == |g.Rhs(r)| && Yields(f) == [] && Plans(f) == []
    ensures f.Cons? ==> d < |g.Rhs(r)| && TreeOK(g, f.tree) && Root(g, f.tree) == g.Rhs(r)[d] && ForestOK(g, f.rest, g.Rhs(r)[d + 1..])
    ensures f.Cons? ==> g.Rhs(r)[d..] == [g.Rhs(r)[d]] + g.Rhs(r)[d + 1..]
    ensures f.Cons? ==> Yields(f) == Yield(f.tree) + Yields(f.rest) && Plans(f) == Plan(f.tree) + Plans(f.rest)
  {
    hide TreeOK;
    if f.Cons? {
      assert g.Rhs(r)[d..][1..] == g.Rhs(r)[d + 1..];
    }
  }

  lemma NodeRule(g: Grammar, tr: Tree)
    requires g.WellFormed() && TreeOK(g, tr) && tr.Node?
    ensures 2 < tr.rule < g.nrules && |g.rlhs| == |g.rrhs| - 1 == g.nrules && Root(g, tr) == g.rlhs[tr.rule]
  {
  }

  lemma MachineGrammar(m: Machine)
    requires IsMachine(m)
    ensures m.g.WellFormed()
  {
  }

  lemma AheadParts(w: seq<int>, i: nat, y: seq<int>, z: seq<int>)
    requires Ahead(w, i, y + z)
    ensures Ahead(w, i, y) && Ahead(w, i + |y|, z)
    ensures Tok(w, i + |y|) == if z == [] then Tok(w, i + |y + z|) else z[0]
  {
    assert w[i..i + |y|] == w[i..i + |y + z|][..|y|];
    assert w[i + |y|..i + |y| + |z|] == w[i..i + |y + z|][|y|..];
    assert z != [] ==> w[i + |y|] == w[i + |y|..i + |y| + |z|][0];
  }

  /** From the empty stack a sentence can be read and reduced to the goal. */
  lemma SentenceLeads(m: Machine, tr: Tree)
    requires IsMachine(m) && TreeOK(m.g, tr) && Root(m.g, tr) == m.g.Goal()
    ensures Leads(m, Yield(tr), [], 0, Plan(tr), [m.g.Goal()], |Yield(tr)|)
  {
    hide IsLR0, CoresOK, Forced, InClosure, HasLookaheads, Leads;
    var g, w := m.g, Yield(tr);
    LR0Grammar(g, m.a);
    assert w[0..|w|] == w;
    StartExpects(m);
    if tr.Node? {
      StartCalls(m, tr.rule);
    }
    TreeLeads(m, w, tr, [], 0);
    assert [] + [g.Goal()] == [g.Goal()];
  }

  lemma StartExpects(m: Machine)
    requires IsMachine(m)
    ensures |m.a.states| > 0 && CanRun(m.a, 0, []) && Run(m.a, 0, []) == 0 && HasGoto(m.a, 0, m.g.Goal())
    ensures InClosure(m.g, m.a.states[0].items, 1)
  {
    StateFacts(m.g, m.a, 0);
    KernelInClosure(m.g, m.a.states[0].items, 1);
    ItemGivesGoto(m.g, m.a, 0, 1);
  }

  lemma StartCalls(m: Machine, r: nat)
    requires IsMachine(m) && 2 < r < m.g.nrules && m.g.rlhs[r] == m.g.Goal()
    ensures Expects(m, [], m.g.rrhs[r], 0)
  {
    hide Forced, HasLookaheads, CoresOK, StatesOK;
    StartExpects(m);
    hide InClosure;
    var g := m.g;
    KernelOK(g, m.a, 0);
    ClosureExpands(g, m.a.states[0].items, 1, r);
    EndAfterGoal(g);
    ForcedCalls(g, m.a, 0, 1, r, 0);
  }

  lemma EndAfterGoal(g: Grammar)
    requires g.WellFormed()
    ensures FirstAt(g, 2, 0)
  {
    TokenBegins(g, 0, 0);
    assert Passes(g, 2, 2) && SymAt(g, 2) == 0;
  }
}
