/** The generated parser accepts every sentence, provided that no action was dropped: the
    moves that build a parse tree are the ones that the arrays choose. */
module Acceptance {
  import opened Grammars
  import opened LR0
  import opened Automata
  import opened Lalr
  import opened Mkpar
  import opened Output
  import opened Trees
  import opened Sentences
  import opened Parsers

  /** The arrays `tb` and the action lists `p` belong to the machine. */
  ghost predicate Built(m: Machine, pr: Precedence, value: seq<int>, p: ParserRows, tb: Tables) {
    IsMachine(m) && PrecedenceFor(m.g, pr) && IsParser(m.g, m.a, pr, m.t, m.la, p) && Refines(m.g, m.a, value, p, tb)
  }

  ghost predicate LiveReduction(row: seq<Action>, tok: int, r: nat) {
    exists i :: 0 <= i < |row| && row[i].suppressed == 0 && !row[i].shift && row[i].symbol == tok && row[i].number == r
  }

  /** The list of the state reached over `word` keeps the move. */
  ghost predicate IsLive(m: Machine, p: ParserRows, word: seq<int>, tok: int, mv: Move) {
    CanRun(m.a, 0, word) && Run(m.a, 0, word) < |p.rows| &&
    match mv
    case ShiftMove(x) => HasGoto(m.a, Run(m.a, 0, word), x) && LiveShift(p.rows[Run(m.a, 0, word)], tok, Goto(m.a, Run(m.a, 0, word), x))
    case ReduceMove(r) => LiveReduction(p.rows[Run(m.a, 0, word)], tok, r)
  }

  /** A legal move is in the action list, and is live if nothing has been dropped. */
  lemma LegalIsLive(m: Machine, pr: Precedence, value: seq<int>, p: ParserRows, tb: Tables, word: seq<int>, tok: int, mv: Move)
    requires Built(m, pr, value, p, tb) && NoneDropped(p) && Legal(m, word, tok, mv) && 0 <= tok < m.g.start
    ensures IsLive(m, p, word, tok, mv)
  {
    hide IsLR0, CoresOK, HasLookaheads, Refines, ReductionsNumbered;
    LR0Grammar(m.g, m.a);
    var q := Run(m.a, 0, word);
    var row := RowOf(m, pr, p, q);
    var x: Action;
    match mv {
      case ShiftMove(s) => x := ShiftOn(pr, tok, Goto(m.a, q, s));
      case ReduceMove(r) =>
        var j: nat :| j < |m.la| == |m.t.ruleno| && NumberOf(m.t, q, j) && m.t.ruleno[j] == r && tok in m.la[j];
        RuleOfNumber(m.g, m.a, m.t, q, j);
        x := Mkpar.ReduceBy(pr, r, tok);
        assert Mkpar.ReduceAt(pr, m.t, m.la, q, j, x);
    }
    assert ActionOf(m.g, m.a, pr, m.t, m.la, q, x);
    InFinalRow(row, q == p.final, p.rows[q], x);
  }

  lemma RowOf(m: Machine, pr: Precedence, p: ParserRows, q: nat) returns (row: seq<Action>)
    requires PrecedenceFor(m.g, pr) && |m.la| == |m.t.ruleno| && IsParser(m.g, m.a, pr, m.t, m.la, p) && q < |m.a.states|
    ensures q < |p.rows| && IsActionRow(m.g, m.a, pr, m.t, m.la, q, row) && Resolves(row, q == p.final, p.rows[q])
  {
    assert FinalRow(m.g, m.a, pr, m.t, m.la, p.final, q, p.rows[q]);
    row :| IsActionRow(m.g, m.a, pr, m.t, m.la, q, row) && Resolves(row, q == p.final, p.rows[q]);
  }

  lemma InFinalRow(row: seq<Action>, final: bool, out: seq<Action>, x: Action)
    requires Resolves(row, final, out) && x in row && forall i :: 0 <= i < |out| ==> out[i].suppressed == 0
    ensures exists i :: 0 <= i < |out| && out[i] == x.(suppressed := 0)
  {
    var i: nat :| i < |row| && row[i] == x;
    assert out[i] == Decided(row, final, i, |row|);
  }

  lemma RowLists(m: Machine, pr: Precedence, value: seq<int>, p: ParserRows, tb: Tables, q: nat)
    requires Built(m, pr, value, p, tb) && q < |m.a.states|
    ensures q < |p.rows| == |p.defred| && Representable(p.rows[q], m.g.start) && DefaultOK(p.rows[q], p.defred[q])
  {
    hide IsLR0, CoresOK, HasLookaheads, Refines, ReductionsNumbered, Representable, DefaultOK;
    assert FinalRow(m.g, m.a, pr, m.t, m.la, p.final, q, p.rows[q]);
    RowRepresentable(m.g, m.a, pr, m.t, m.la, p.final, q, p.rows[q]);
  }

  /** So the arrays choose it. */
  lemma LegalIsChosen(m: Machine, pr: Precedence, value: seq<int>, p: ParserRows, tb: Tables, word: seq<int>, tok: int, mv: Move)
    requires Built(m, pr, value, p, tb) && NoneDropped(p) && Legal(m, word, tok, mv) && 0 <= tok < m.g.start
    ensures Chosen(m.g, m.a, value, tb, word, tok, mv)
  {
    hide IsMachine, PrecedenceFor, IsParser, Representable, NoneDropped, LiveShift, Sizes;
    MachineGrammar(m);
    LegalIsLive(m, pr, value, p, tb, word, tok, mv);
    var q := Run(m.a, 0, word);
    RowLists(m, pr, value, p, tb, q);
    if p.defred[q] == 0 {
      ByToken(m, value, p, tb, word, tok, mv);
    } else {
      ByDefault(m, value, p, tb, word, tok, mv);
    }
  }

  lemma ByToken(m: Machine, value: seq<int>, p: ParserRows, tb: Tables, word: seq<int>, tok: nat, mv: Move)
    requires IsMachine(m) && Refines(m.g, m.a, value, p, tb) && Legal(m, word, tok, mv) && tok < m.g.start
    requires var q := Run(m.a, 0, word); q < |p.rows| == |p.defred| && Representable(p.rows[q], m.g.start) && p.defred[q] == 0
    requires IsLive(m, p, word, tok, mv)
    ensures Chosen(m.g, m.a, value, tb, word, tok, mv)
  {
    hide IsLR0, CoresOK, HasLookaheads, ReductionsNumbered, LiveShift, StateRefines, GotosRefine, RuleDataOK, Representable;
    LR0Grammar(m.g, m.a);
    var q := Run(m.a, 0, word);
    DecideByToken(m.g, m.a, value, p, tb, q, tok);
    match mv {
      case ShiftMove(x) =>
      case ReduceMove(r) =>
        NumberPositive(p.rows[q], m.g.start);
        assert LiveNumber(p.rows[q], 0, tok, r - 2);
    }
  }

  lemma NumberPositive(row: seq<Action>, n: nat)
    requires Representable(row, n)
    ensures forall i :: 0 <= i < |row| ==> row[i].number > 0
  {
  }

  lemma ByDefault(m: Machine, value: seq<int>, p: ParserRows, tb: Tables, word: seq<int>, tok: nat, mv: Move)
    requires IsMachine(m) && Refines(m.g, m.a, value, p, tb) && Legal(m, word, tok, mv) && tok < m.g.start
    requires var q := Run(m.a, 0, word); q < |p.rows| == |p.defred| && DefaultOK(p.rows[q], p.defred[q]) && p.defred[q] > 0
    requires IsLive(m, p, word, tok, mv)
    ensures Chosen(m.g, m.a, value, tb, word, tok, mv)
  {
    hide IsLR0, CoresOK, HasLookaheads, ReductionsNumbered, StateRefines, GotosRefine, RuleDataOK;
    LR0Grammar(m.g, m.a);
    var q := Run(m.a, 0, word);
    assert SoleRule(p.rows[q], p.defred[q]);
    match mv {
      case ShiftMove(x) =>
        assert false;
      case ReduceMove(r) =>
        assert r == p.defred[q];
        LegalRule(m, word, tok, r);
        DefaultAgrees(m.g, m.a, value, p, tb, q, tok);
    }
  }

  // ---------------------------------------------------------------------
  // Conflicts decided by the declarations
  // ---------------------------------------------------------------------

  /** A token that a state can shift and that one rule can be reduced on: what the parser does on
      it, said by the declarations of the token and of the rule.  Where they exclude both, it is
      an error but for a default reduction. */
  lemma PrecedenceDecides(m: Machine, pr: Precedence, value: seq<int>, p: ParserRows, tb: Tables, q: nat, tok: nat, r: nat)
    requires Built(m, pr, value, p, tb) && q < |m.a.states| && 0 < tok < m.g.start && HasGoto(m.a, q, tok)
    requires OnlyReduction(m.t, m.la, q, r, tok)
    ensures Sizes(m.g, |m.a.states|, tb) && m.g.start <= |value|
    ensures r < |pr.rulePrec| && m.g.start <= |pr.symbolPrec| == |pr.symbolAssoc|
    ensures Decide(tb, q, value[tok]) ==
      if pr.symbolPrec[tok] <= 0 || pr.rulePrec[r] <= 0 || pr.symbolPrec[tok] > pr.rulePrec[r] then Shift(Goto(m.a, q, tok))
      else if pr.symbolPrec[tok] < pr.rulePrec[r] || pr.symbolAssoc[tok] == LeftAssoc then Reduce(r - 2)
      else if pr.symbolAssoc[tok] == RightAssoc then Shift(Goto(m.a, q, tok))
      else if tb.defred[q] != 0 then Reduce(tb.defred[q])
      else Fail
  {
    hide IsMachine, IsParser, Refines, OnlyReduction, HasGoto, Goto, Representable, DefaultOK, Decide;
    MachineFacts(m);
    var i := ConflictByPrecedence(m.g, m.a, pr, m.t, m.la, p, q, tok, r);
    RowLists(m, pr, value, p, tb, q);
    OnlyRule(m, q, r, tok);
    PairDecides(m, value, p, tb, q, tok, r, i);
  }

  /** A token that a state cannot shift: the parser reduces by the lowest of the rules. */
  lemma LowestRuleDecides(m: Machine, pr: Precedence, value: seq<int>, p: ParserRows, tb: Tables, q: nat, tok: nat, j: nat, r: nat)
    requires Built(m, pr, value, p, tb) && q < |m.a.states| && tok < m.g.start && (tok == 0 || !HasGoto(m.a, q, tok))
    requires j < |m.la| == |m.t.ruleno| && NumberOf(m.t, q, j) && tok in m.la[j] && m.t.ruleno[j] == r
    requires forall k: nat :: k < |m.la| && NumberOf(m.t, q, k) && tok in m.la[k] ==> r <= m.t.ruleno[k]
    ensures Sizes(m.g, |m.a.states|, tb) && m.g.start <= |value| && Decide(tb, q, value[tok]) == Reduce(r - 2)
  {
    hide IsMachine, IsParser, Refines, HasGoto, Representable, DefaultOK, Decide;
    MachineFacts(m);
    RuleOfNumber(m.g, m.a, m.t, q, j);
    RuleTwoNotReduced(m.g, m.a, q);
    var i := ConflictByOrder(m.g, m.a, pr, m.t, m.la, p, q, tok, j);
    RowLists(m, pr, value, p, tb, q);
    assert LiveReduction(p.rows[q], tok, r);
    LiveReductionDecides(m, value, p, tb, q, tok, r);
  }

  lemma LiveReductionDecides(m: Machine, value: seq<int>, p: ParserRows, tb: Tables, q: nat, tok: nat, r: nat)
    requires IsMachine(m) && Refines(m.g, m.a, value, p, tb) && q < |m.a.states| && tok < m.g.start && r > 2
    requires q < |p.rows| == |p.defred| && Representable(p.rows[q], m.g.start) && DefaultOK(p.rows[q], p.defred[q])
    requires LiveReduction(p.rows[q], tok, r)
    ensures Sizes(m.g, |m.a.states|, tb) && m.g.start <= |value| && Decide(tb, q, value[tok]) == Reduce(r - 2)
  {
    hide IsLR0, CoresOK, HasLookaheads, ReductionsNumbered, GotosRefine, RuleDataOK;
    LR0Grammar(m.g, m.a);
    var d := p.defred[q];
    if d == 0 {
      DecideByToken(m.g, m.a, value, p, tb, q, tok);
      assert LiveNumber(p.rows[q], 0, tok, r - 2);
    } else {
      assert SoleRule(p.rows[q], d);
      assert d == r;
      DefaultAgrees(m.g, m.a, value, p, tb, q, tok);
    }
  }

  lemma MachineFacts(m: Machine)
    requires IsMachine(m)
    ensures m.g.WellFormed() && IsLR0(m.g, m.a) && ReductionsNumbered(m.a, m.t) && |m.la| == |m.t.ruleno|
  {
  }

  lemma OnlyRule(m: Machine, q: nat, r: nat, tok: nat)
    requires IsMachine(m) && q < |m.a.states| && OnlyReduction(m.t, m.la, q, r, tok)
    ensures r > 2
  {
    hide CoresOK, HasLookaheads, IsLR0;
    RuleTwoNotReduced(m.g, m.a, q);
    var j: nat :| j < |m.la| && NumberOf(m.t, q, j) && m.t.ruleno[j] == r && tok in m.la[j];
    RuleOfNumber(m.g, m.a, m.t, q, j);
  }

  /** The arrays do what the marks on the two actions say. */
  lemma PairDecides(m: Machine, value: seq<int>, p: ParserRows, tb: Tables, q: nat, tok: nat, r: nat, i: nat)
    requires IsMachine(m) && Refines(m.g, m.a, value, p, tb) && q < |m.a.states| && 0 < tok < m.g.start && r > 2
    requires q < |p.rows| == |p.defred| && Representable(p.rows[q], m.g.start) && DefaultOK(p.rows[q], p.defred[q])
    requires ShiftThenReduce(m.a, q, p.rows[q], i, tok, r)
    requires forall k :: 0 <= k < |p.rows[q]| && p.rows[q][k].symbol == tok ==> k == i || k == i + 1
    ensures Sizes(m.g, |m.a.states|, tb) && m.g.start <= |value|
    ensures p.rows[q][i].suppressed == 0 ==> Decide(tb, q, value[tok]) == Shift(Goto(m.a, q, tok))
    ensures p.rows[q][i].suppressed != 0 && p.rows[q][i + 1].suppressed == 0 ==> Decide(tb, q, value[tok]) == Reduce(r - 2)
    ensures p.rows[q][i].suppressed != 0 && p.rows[q][i + 1].suppressed != 0 ==>
      Decide(tb, q, value[tok]) == if tb.defred[q] != 0 then Reduce(tb.defred[q]) else Fail
  {
    hide IsLR0, CoresOK, HasLookaheads, ReductionsNumbered, GotosRefine, RuleDataOK, Goto, HasGoto;
    LR0Grammar(m.g, m.a);
    var row, d := p.rows[q], p.defred[q];
    assert StateRefines(m.g, value, p, tb, q);
    if row[i].suppressed == 0 {
      assert LiveShift(row, tok, Goto(m.a, q, tok));
    }
    if d == 0 {
      DecideByToken(m.g, m.a, value, p, tb, q, tok);
      if row[i + 1].suppressed == 0 {
        assert LiveNumber(row, 0, tok, r - 2);
      }
    } else {
      assert SoleRule(row, d);
      if row[i + 1].suppressed == 0 {
        assert d == r;
      }
    }
  }

  lemma LegalRule(m: Machine, word: seq<int>, tok: int, r: nat)
    requires IsMachine(m) && Legal(m, word, tok, ReduceMove(r))
    ensures r > 2
  {
    hide CoresOK, HasLookaheads;
    var q := Run(m.a, 0, word);
    var j: nat :| j < |m.la| == |m.t.ruleno| && NumberOf(m.t, q, j) && m.t.ruleno[j] == r;
    RuleOfNumber(m.g, m.a, m.t, q, j);
    ReduceIsSafe(m.g, m.a, word, r);
  }

  lemma {:induction false} LeadsDrives(m: Machine, pr: Precedence, value: seq<int>, p: ParserRows, tb: Tables,
                                       w: seq<int>, word: seq<int>, i: nat, plan: seq<Move>)
    requires Built(m, pr, value, p, tb) && NoneDropped(p) && AreTokens(m.g, w)
    requires m.g.WellFormed() && Leads(m, w, word, i, plan, [m.g.Goal()], |w|)
    ensures Drives(m.g, m.a, value, tb, w, word, i, plan)
    decreases |plan|
  {
    hide Built, NoneDropped, Legal, Chosen, Next, Grammar.WellFormed;
    if plan != [] {
      TokInRange(m, pr, value, p, tb, w, i);
      LegalIsChosen(m, pr, value, p, tb, word, Tok(w, i), plan[0]);
      LeadsDrives(m, pr, value, p, tb, w, Next(m.g, word, plan[0]), if plan[0].ShiftMove? then i + 1 else i, plan[1..]);
    }
  }

  lemma TokInRange(m: Machine, pr: Precedence, value: seq<int>, p: ParserRows, tb: Tables, w: seq<int>, i: nat)
    requires Built(m, pr, value, p, tb) && AreTokens(m.g, w)
    ensures 0 <= Tok(w, i) < m.g.start
  {
    MachineGrammar(m);
  }

  // ---------------------------------------------------------------------
  // Sentences within reach
  // ---------------------------------------------------------------------

  /** A parse tree of `w` can be built in `n` moves. */
  ghost predicate SentenceWithin(g: Grammar, w: seq<int>, n: int)
    requires g.WellFormed()
  {
    exists tr :: TreeFor(g, tr, w) && |Plan(tr)| <= n
  }

  ghost predicate TreeFor(g: Grammar, tr: Tree, w: seq<int>)
    requires g.WellFormed()
  {
    TreeOK(g, tr) && Root(g, tr) == g.Goal() && Yield(tr) == w
  }

  /** Every sentence is within reach of some number of moves, and nothing else is. */
  lemma SentencesWithin(g: Grammar, w: seq<int>)
    requires g.WellFormed() && AreTokens(g, w)
    ensures Derives(g, [g.Goal()], w) <==> exists n :: SentenceWithin(g, w, n)
  {
    if Derives(g, [g.Goal()], w) {
      var tr := SentenceTree(g, w);
      assert TreeFor(g, tr, w);
      assert SentenceWithin(g, w, |Plan(tr)|);
    }
    if n :| SentenceWithin(g, w, n) {
      var tr :| TreeFor(g, tr, w) && |Plan(tr)| <= n;
      TreeDerives(g, tr);
    }
  }

  /** The moves for a sentence within reach are those that the arrays choose. */
  lemma SentenceDrives(m: Machine, pr: Precedence, value: seq<int>, p: ParserRows, tb: Tables, w: seq<int>, n: int) returns (plan: seq<Move>)
    requires Built(m, pr, value, p, tb) && NoneDropped(p) && AreTokens(m.g, w) && m.g.WellFormed() && SentenceWithin(m.g, w, n)
    ensures plan != [] && |plan| <= n && Drives(m.g, m.a, value, tb, w, [], 0, plan)
  {
    hide NoneDropped, Leads, Drives;
    var tr :| TreeFor(m.g, tr, w) && |Plan(tr)| <= n;
    plan := Plan(tr);
    SomeMove(tr);
    SentenceLeads(m, tr);
    LeadsDrives(m, pr, value, p, tb, w, [], 0, plan);
  }

  lemma SomeMove(tr: Tree)
    ensures Plan(tr) != []
  {
  }
}
