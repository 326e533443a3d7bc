/** byacc/skeleton.c: the parser that interprets the generated arrays.  In every run,
    error recovery included, the state stack spells a path of the LR(0) collection;
    and a run that accepts without a syntax error has read a sentence. */
module Parsers {
  import opened Grammars
  import opened LR0
  import opened Automata
  import opened Lalr
  import opened Mkpar
  import opened Packing
  import opened Output
  import opened Trees
  import opened Sentences

  // ---------------------------------------------------------------------
  // What the parser needs to know about its arrays
  // ---------------------------------------------------------------------

  /** Token `t` has number `key` and is shifted from `q` to `s`. */
  ghost predicate IsShift(g: Grammar, a: Automaton, value: seq<int>, q: nat, key: int, t: int, s: int)
    requires g.start <= |value|
  {
    0 < t < g.start && value[t] == key && HasGoto(a, q, t) && s == Goto(a, q, t)
  }

  ghost predicate ShiftsSound(g: Grammar, a: Automaton, value: seq<int>, tb: Tables, q: nat)
    requires Sizes(g, |a.states|, tb) && g.start <= |value| && q < |a.states|
  {
    forall key, s :: key >= 0 && tb.ShiftAt(q, key) == Value(s) ==> exists t :: IsShift(g, a, value, q, key, t, s)
  }

  /** Rule `n` of the parser is complete in state `q`. */
  ghost predicate IsReduction(a: Automaton, q: nat, n: int) {
    q < |a.reductions| && n >= 0 && n + 2 in a.reductions[q]
  }

  ghost predicate ReducesSound(g: Grammar, a: Automaton, tb: Tables, q: nat)
    requires Sizes(g, |a.states|, tb) && q < |a.states|
  {
    (tb.defred[q] != 0 ==> IsReduction(a, q, tb.defred[q])) &&
    forall key, n :: key >= 0 && tb.ReduceAt(q, key) == Value(n) ==> IsReduction(a, q, n)
  }

  /** The actions of the states below `n` are sound. */
  ghost predicate StatesSound(g: Grammar, a: Automaton, value: seq<int>, tb: Tables, n: nat)
    requires Sizes(g, |a.states|, tb) && g.start <= |value| && n <= |a.states|
  {
    n == 0 || (StatesSound(g, a, value, tb, n - 1) && ShiftsSound(g, a, value, tb, n - 1) && ReducesSound(g, a, tb, n - 1))
  }

  lemma {:induction false} StateSound(g: Grammar, a: Automaton, value: seq<int>, tb: Tables, n: nat, q: nat)
    requires Sizes(g, |a.states|, tb) && g.start <= |value| && q < n <= |a.states| && StatesSound(g, a, value, tb, n)
    ensures ShiftsSound(g, a, value, tb, q) && ReducesSound(g, a, tb, q)
  {
    if q < n - 1 {
      StateSound(g, a, value, tb, n - 1, q);
    }
  }

  lemma ShiftFact(g: Grammar, a: Automaton, value: seq<int>, tb: Tables, q: nat, key: nat, s: int) returns (t: int)
    requires SoundTables(g, a, value, tb) && q < |a.states| && tb.ShiftAt(q, key) == Value(s)
    ensures IsShift(g, a, value, q, key, t, s)
  {
    StateSound(g, a, value, tb, |a.states|, q);
    t :| IsShift(g, a, value, q, key, t, s);
  }

  lemma ReduceFact(g: Grammar, a: Automaton, value: seq<int>, tb: Tables, q: nat, key: nat)
    requires SoundTables(g, a, value, tb) && q < |a.states|
    ensures tb.defred[q] != 0 ==> IsReduction(a, q, tb.defred[q])
    ensures tb.ReduceAt(q, key).Value? ==> IsReduction(a, q, tb.ReduceAt(q, key).val)
  {
    StateSound(g, a, value, tb, |a.states|, q);
  }

  /** Every action that the arrays give is one of the automaton. */
  ghost predicate SoundTables(g: Grammar, a: Automaton, value: seq<int>, tb: Tables)
  {
    IsLR0(g, a) && Sizes(g, |a.states|, tb) && ValuesOK(g, value) &&
    StatesSound(g, a, value, tb, |a.states|) &&
    GotosRefine(g, a, tb) && RuleDataOK(g, tb) && HasGoto(a, 0, g.Goal()) && tb.final == Goto(a, 0, g.Goal()) && tb.errcode == value[1]
  }

  lemma SoundFacts(g: Grammar, a: Automaton, value: seq<int>, tb: Tables)
    requires SoundTables(g, a, value, tb)
    ensures IsLR0(g, a) && g.WellFormed() && g.start <= |value| && Sizes(g, |a.states|, tb)
  {
  }

  /** The arrays that byacc writes are sound, whatever conflicts were resolved. */
  lemma GeneratedTablesSound(g: Grammar, a: Automaton, value: seq<int>, pr: Precedence, t: Reductions, la: seq<set<nat>>,
                             p: ParserRows, tb: Tables)
    requires IsLR0(g, a) && PrecedenceFor(g, pr) && |la| == |t.ruleno| && ReductionsNumbered(a, t)
    requires IsParser(g, a, pr, t, la, p) && Refines(g, a, value, p, tb)
    ensures SoundTables(g, a, value, tb)
  {
    RowsSound(g, a, value, pr, t, la, p, tb, |a.states|);
  }

  lemma {:induction false} RowsSound(g: Grammar, a: Automaton, value: seq<int>, pr: Precedence, t: Reductions, la: seq<set<nat>>,
                                     p: ParserRows, tb: Tables, n: nat)
    requires IsLR0(g, a) && PrecedenceFor(g, pr) && |la| == |t.ruleno| && ReductionsNumbered(a, t)
    requires IsParser(g, a, pr, t, la, p) && Refines(g, a, value, p, tb) && n <= |a.states|
    ensures StatesSound(g, a, value, tb, n)
  {
    if n > 0 {
      RowsSound(g, a, value, pr, t, la, p, tb, n - 1);
      var q := n - 1;
      assert FinalRow(g, a, pr, t, la, p.final, q, p.rows[q]);
      LiveRules(g, a, pr, t, la, p.final, q, p.rows[q]);
      RowSound(g, a, value, p, tb, q);
    }
  }

  lemma RowSound(g: Grammar, a: Automaton, value: seq<int>, p: ParserRows, tb: Tables, q: nat)
    requires IsLR0(g, a) && q < |a.states| && Refines(g, a, value, p, tb) && DefaultOK(p.rows[q], p.defred[q])
    requires forall x :: x in p.rows[q] && !x.shift ==> x.number > 0 && x.number in a.reductions[q] && 0 <= x.symbol < g.start
    requires forall x :: x in p.rows[q] && x.shift ==> 0 < x.symbol < g.start && HasGoto(a, q, x.symbol) && x.number == Goto(a, q, x.symbol)
    ensures ShiftsSound(g, a, value, tb, q) && ReducesSound(g, a, tb, q)
  {
    var row := p.rows[q];
    assert StateRefines(g, value, p, tb, q);
    forall key, s | key >= 0 && tb.ShiftAt(q, key) == Value(s) ensures exists t :: IsShift(g, a, value, q, key, t, s) {
      var t :| 0 <= t < g.start && value[t] == key && LiveShift(row, t, s);
      var i :| 0 <= i < |row| && row[i].suppressed == 0 && row[i].shift && row[i].symbol == t && row[i].number == s;
      assert row[i] in row;
      assert IsShift(g, a, value, q, key, t, s);
    }
    forall key, n | key >= 0 && tb.ReduceAt(q, key) == Value(n) ensures IsReduction(a, q, n) {
      var t :| 0 <= t < g.start && value[t] == key && LiveNumber(row, p.defred[q], t, n);
      var i :| 0 <= i < |row| && !row[i].shift && row[i].number == n + 2;
      assert row[i] in row;
      ReductionNumber(g, a, q, n + 2);
    }
    if tb.defred[q] != 0 {
      assert SoleRule(row, p.defred[q]);
      var i :| 0 <= i < |row| && row[i].suppressed == 0 && row[i].symbol != 1;
      assert row[i] in row;
      ReductionNumber(g, a, q, p.defred[q]);
    }
  }

  lemma ReductionNumber(g: Grammar, a: Automaton, q: nat, r: nat)
    requires IsLR0(g, a) && q < |a.states| && r in a.reductions[q]
    ensures 2 <= r < g.nrules
  {
    StateFacts(g, a, q);
  }

  // ---------------------------------------------------------------------
  // The state stack
  // ---------------------------------------------------------------------

  /** The states, from the bottom up, are those passed while following `w` from state 0. */
  ghost predicate Spells(a: Automaton, stack: seq<int>, w: seq<int>) {
    |stack| == |w| + 1 && forall i :: 0 <= i <= |w| ==> SpellsAt(a, stack[i], w[..i])
  }

  ghost predicate SpellsAt(a: Automaton, q: int, w: seq<int>) {
    CanRun(a, 0, w) && q == Run(a, 0, w)
  }

  lemma SpellsStart(a: Automaton)
    ensures Spells(a, [0], [])
  {
  }

  lemma SpellsSize(a: Automaton, stack: seq<int>, w: seq<int>)
    requires Spells(a, stack, w)
    ensures |stack| == |w| + 1
  {
  }

  lemma SpellsTop(g: Grammar, a: Automaton, stack: seq<int>, w: seq<int>)
    requires IsLR0(g, a) && Spells(a, stack, w)
    ensures CanRun(a, 0, w) && stack[|stack| - 1] == Run(a, 0, w) && 0 <= stack[|stack| - 1] < |a.states|
  {
    assert w[..|w|] == w && SpellsAt(a, stack[|w|], w[..|w|]);
    RunInRange(g, a, 0, w);
  }

  lemma SpellsPush(a: Automaton, stack: seq<int>, w: seq<int>, x: int)
    requires Spells(a, stack, w) && CanRun(a, 0, w) && HasGoto(a, Run(a, 0, w), x)
    ensures Spells(a, stack + [Goto(a, Run(a, 0, w), x)], w + [x])
  {
    hide Run, CanRun;
    var s', w' := stack + [Goto(a, Run(a, 0, w), x)], w + [x];
    RunStep(a, 0, w, x);
    forall i | 0 <= i <= |w'| ensures SpellsAt(a, s'[i], w'[..i]) {
      if i <= |w| {
        assert w'[..i] == w[..i] && SpellsAt(a, stack[i], w[..i]);
      } else {
        assert w'[..i] == w';
      }
    }
  }

  lemma SpellsPop(a: Automaton, stack: seq<int>, w: seq<int>, n: nat)
    requires Spells(a, stack, w) && n <= |w|
    ensures Spells(a, stack[..|stack| - n], w[..|w| - n])
  {
    var s', w' := stack[..|stack| - n], w[..|w| - n];
    forall i | 0 <= i <= |w'| ensures SpellsAt(a, s'[i], w'[..i]) {
      assert w'[..i] == w[..i] && SpellsAt(a, stack[i], w[..i]);
    }
  }

  /** State 0 is at the bottom only. */
  lemma OnlyBottomIsStart(g: Grammar, a: Automaton, w: seq<int>)
    requires IsLR0(g, a) && CanRun(a, 0, w) && Run(a, 0, w) == 0
    ensures w == []
  {
    if w != [] {
      RunInRange(g, a, 0, w[..|w| - 1]);
      GotoOK(g, a, Run(a, 0, w[..|w| - 1]), w[|w| - 1]);
    }
  }

  // ---------------------------------------------------------------------
  // The parser
  // ---------------------------------------------------------------------

  /** How a round of the main loop ends. */
  datatype Outcome = Continue | Accept | Abort | Overflow

  function Clip(c: int): int { if c < 0 then 0 else c }

  /** The first tokens that the lexer delivers have the numbers of `tokens`. */
  ghost predicate Delivers(lex: nat -> int, value: seq<int>, tokens: seq<int>) {
    forall i: nat :: i < |tokens| ==> 0 < tokens[i] < |value| && value[tokens[i]] == Clip(lex(i))
  }

  /** What acceptance without a syntax error means: the lexer delivered the tokens of a
      sentence and then the end. */
  ghost predicate ReadSentence(g: Grammar, value: seq<int>, lex: nat -> int, tokens: seq<int>)
    requires g.WellFormed()
  {
    (forall i :: 0 <= i < |tokens| ==> 0 < tokens[i] < g.start) && Delivers(lex, value, tokens) &&
    Derives(g, [g.Goal()], tokens) && lex(|tokens|) <= 0
  }

  /** Without a syntax error: the tokens shifted are those delivered, `word` derives
      them, and one more token has been read if there is a lookahead. */
  ghost predicate History(g: Grammar, value: seq<int>, lex: nat -> int, word: seq<int>, tokens: seq<int>, calls: nat, yychar: int)
    requires g.WellFormed()
  {
    (forall i :: 0 <= i < |tokens| ==> 0 < tokens[i] < g.start) && Delivers(lex, value, tokens) && Derives(g, word, tokens) &&
    calls == |tokens| + (if yychar >= 0 then 1 else 0) && (yychar >= 0 ==> yychar == Clip(lex(|tokens|)))
  }

  lemma HistoryShift(g: Grammar, value: seq<int>, lex: nat -> int, word: seq<int>, tokens: seq<int>, calls: nat, yychar: int, t: int)
    requires g.WellFormed() && g.start <= |value| && History(g, value, lex, word, tokens, calls, yychar)
    requires yychar >= 0 && 0 < t < g.start && value[t] == yychar
    ensures History(g, value, lex, word + [t], tokens + [t], calls, -1)
  {
    DerivesContext(g, [], word, tokens, [t]);
    assert [] + word + [t] == word + [t] && [] + tokens + [t] == tokens + [t];
  }

  /** What the arrays say about a rule. */
  lemma RuleFacts(g: Grammar, a: Automaton, value: seq<int>, tb: Tables, r: nat)
    requires SoundTables(g, a, value, tb) && 2 < r < g.nrules
    ensures r - 2 < |tb.len| == |tb.lhs| && tb.len[r - 2] == |g.Rhs(r)|
    ensures tb.lhs[r - 2] == g.rlhs[r] - g.start - 1 && 0 <= tb.lhs[r - 2] < |tb.dgoto| == |tb.gindex|
  {
    g.GetRule(r);
    assert RuleDatum(g, tb, r);
  }

  lemma GotoFacts(g: Grammar, a: Automaton, value: seq<int>, tb: Tables, q: nat, c: nat)
    requires SoundTables(g, a, value, tb) && q < |a.states| && c < |tb.dgoto| && HasGoto(a, q, g.start + 1 + c)
    ensures tb.high < |tb.check| == |tb.table| && c < |tb.gindex| && tb.GotoAt(q, c) == Goto(a, q, g.start + 1 + c)
  {
  }

  lemma PoppedNext(g: Grammar, word: seq<int>, r: nat)
    requires g.WellFormed() && 2 <= r < g.nrules && |g.Rhs(r)| <= |word| && |g.rlhs| == g.nrules
    ensures Next(g, word, ReduceMove(r)) == word[..|word| - |g.Rhs(r)|] + [g.rlhs[r]]
  {
  }

  lemma FinalFacts(g: Grammar, a: Automaton, value: seq<int>, tb: Tables)
    requires SoundTables(g, a, value, tb)
    ensures HasGoto(a, 0, g.Goal()) && tb.final == Goto(a, 0, g.Goal())
    ensures CanRun(a, 0, []) && Run(a, 0, []) == 0
  {
  }

  /** What a reduction finds on the stack and in the arrays. */
  lemma ReduceFacts(g: Grammar, a: Automaton, value: seq<int>, tb: Tables, word: seq<int>, n: nat)
    requires SoundTables(g, a, value, tb) && CanRun(a, 0, word) && Run(a, 0, word) < |a.states| && IsReduction(a, Run(a, 0, word), n)
    ensures 2 < n + 2 < g.nrules && n < |tb.len| == |tb.lhs| && 0 <= tb.len[n] == |g.Rhs(n + 2)| <= |word|
    ensures word == word[..|word| - tb.len[n]] + g.Rhs(n + 2)
    ensures tb.lhs[n] == g.rlhs[n + 2] - g.start - 1 && 0 <= tb.lhs[n] < |tb.dgoto|
    ensures CanRun(a, 0, word[..|word| - tb.len[n]]) && HasGoto(a, Run(a, 0, word[..|word| - tb.len[n]]), g.rlhs[n + 2])
  {
    ReduceIsSafe(g, a, word, n + 2);
    RuleFacts(g, a, value, tb, n + 2);
  }

  lemma HistoryReduce(g: Grammar, value: seq<int>, lex: nat -> int, word: seq<int>, r: nat, tokens: seq<int>, calls: nat, yychar: int)
    requires g.WellFormed() && 2 <= r < g.nrules && History(g, value, lex, word, tokens, calls, yychar)
    requires |g.Rhs(r)| <= |word| && word == word[..|word| - |g.Rhs(r)|] + g.Rhs(r)
    ensures History(g, value, lex, word[..|word| - |g.Rhs(r)|] + [g.rlhs[r]], tokens, calls, yychar)
  {
    DerivesReduce(g, word[..|word| - |g.Rhs(r)|], r, tokens);
  }

  // ---------------------------------------------------------------------
  // Runs with syntax errors
  // ---------------------------------------------------------------------

  /** The first `n` tokens delivered are `text`, but that each `error` in it may stand for any
      stretch of them. */
  ghost predicate Covers(g: Grammar, value: seq<int>, lex: nat -> int, text: seq<int>, n: nat)
    decreases |text|
  {
    if text == [] then n == 0
    else
      var t, rest := text[|text| - 1], text[..|text| - 1];
      (0 < t < g.start <= |value| && n > 0 && value[t] == Clip(lex(n - 1)) && Covers(g, value, lex, rest, n - 1)) ||
      (t == 1 && exists k: nat :: k <= n && Covers(g, value, lex, rest, k))
  }

  /** What acceptance means in every run: the tokens delivered up to the end are a sentence once
      some stretches of them are replaced by `error`. */
  ghost predicate ReadRepaired(g: Grammar, value: seq<int>, lex: nat -> int, text: seq<int>, calls: nat)
    requires g.WellFormed()
  {
    calls > 0 && Derives(g, [g.Goal()], text) && Covers(g, value, lex, text, calls - 1) && lex(calls - 1) <= 0
  }

  /** In every run: `word` derives `text`, which covers the tokens used up; while tokens are being
      dropped its last one is `error`. */
  ghost predicate Repair(g: Grammar, value: seq<int>, lex: nat -> int, word: seq<int>, text: seq<int>, calls: nat, yychar: int, flag: nat)
    requires g.WellFormed()
  {
    Derives(g, word, text) && flag <= 3 && (flag == 3 ==> text != [] && text[|text| - 1] == 1) &&
    if yychar >= 0 then calls > 0 && yychar == Clip(lex(calls - 1)) && Covers(g, value, lex, text, calls - 1)
    else Covers(g, value, lex, text, calls)
  }

  lemma RepairShift(g: Grammar, value: seq<int>, lex: nat -> int, word: seq<int>, text: seq<int>, calls: nat, yychar: int, flag: nat, t: int)
    requires g.WellFormed() && g.start <= |value| && Repair(g, value, lex, word, text, calls, yychar, flag)
    requires yychar >= 0 && 0 < t < g.start && value[t] == yychar
    ensures Repair(g, value, lex, word + [t], text + [t], calls, -1, if flag > 0 then flag - 1 else 0)
  {
    DerivesContext(g, [], word, text, [t]);
    assert [] + word + [t] == word + [t] && [] + text + [t] == text + [t];
    assert (text + [t])[..|text|] == text;
  }

  lemma RepairReduce(g: Grammar, value: seq<int>, lex: nat -> int, word: seq<int>, r: nat, text: seq<int>, calls: nat, yychar: int, flag: nat)
    requires g.WellFormed() && 2 <= r < g.nrules && Repair(g, value, lex, word, text, calls, yychar, flag)
    requires |g.Rhs(r)| <= |word| && word == word[..|word| - |g.Rhs(r)|] + g.Rhs(r)
    ensures Repair(g, value, lex, word[..|word| - |g.Rhs(r)|] + [g.rlhs[r]], text, calls, yychar, flag)
  {
    DerivesReduce(g, word[..|word| - |g.Rhs(r)|], r, text);
  }

  /** The lookahead is dropped: it belongs to the last `error`. */
  lemma RepairDiscard(g: Grammar, value: seq<int>, lex: nat -> int, word: seq<int>, text: seq<int>, calls: nat, yychar: int)
    requires g.WellFormed() && yychar >= 0 && Repair(g, value, lex, word, text, calls, yychar, 3)
    ensures Repair(g, value, lex, word, text, calls, -1, 3)
  {
    var rest := text[..|text| - 1];
    if value != [] && 1 < g.start <= |value| && calls > 1 && value[1] == Clip(lex(calls - 2)) && Covers(g, value, lex, rest, calls - 2) {
      var k: nat := calls - 2;
      assert Covers(g, value, lex, rest, k);
    }
  }

  /** States are dropped and `error` is shifted: what they stood for belongs to it. */
  lemma RepairError(g: Grammar, value: seq<int>, lex: nat -> int, word: seq<int>, k: nat, text: seq<int>, calls: nat, yychar: int, flag: nat)
    returns (text': seq<int>)
    requires g.WellFormed() && k <= |word| && Repair(g, value, lex, word, text, calls, yychar, flag)
    ensures Repair(g, value, lex, word[..k] + [1], text', calls, yychar, 3)
  {
    assert word == word[..k] + word[k..];
    var w1, w2 := DerivesSplit(g, word[..k], word[k..], text);
    var n := if yychar >= 0 then calls - 1 else calls;
    var j := CoversPrefix(g, value, lex, text, n, |w1|);
    assert text[..|w1|] == w1;
    text' := w1 + [1];
    assert text'[..|w1|] == w1;
    DerivesContext(g, [], word[..k], w1, [1]);
    assert [] + word[..k] + [1] == word[..k] + [1] && [] + w1 + [1] == text';
  }

  lemma {:induction false} CoversPrefix(g: Grammar, value: seq<int>, lex: nat -> int, text: seq<int>, n: nat, m: nat) returns (j: nat)
    requires Covers(g, value, lex, text, n) && m <= |text|
    ensures j <= n && Covers(g, value, lex, text[..m], j)
    decreases |text|
  {
    if m == |text| {
      assert text[..m] == text;
      return n;
    }
    var t, rest := text[|text| - 1], text[..|text| - 1];
    var k: nat;
    if 0 < t < g.start <= |value| && n > 0 && value[t] == Clip(lex(n - 1)) && Covers(g, value, lex, rest, n - 1) {
      k := n - 1;
    } else {
      k :| k <= n && Covers(g, value, lex, rest, k);
    }
    j := CoversPrefix(g, value, lex, rest, k, m);
    assert rest[..m] == text[..m];
  }

  /** The arrays of state `q` shift `error`. */
  ghost predicate ShiftsError(tb: Tables, q: nat) {
    q < |tb.sindex| && tb.high < |tb.check| == |tb.table| && tb.ShiftAt(q, tb.errcode).Value?
  }

  /** Over the first `k` symbols of the stack `error` is shifted, and over none above. */
  ghost predicate RecoversAt(a: Automaton, tb: Tables, word: seq<int>, k: nat) {
    k <= |word| && ErrorOver(a, tb, word[..k]) && forall j :: k < j <= |word| ==> !ErrorOver(a, tb, word[..j])
  }

  ghost predicate ErrorOver(a: Automaton, tb: Tables, w: seq<int>) {
    CanRun(a, 0, w) && ShiftsError(tb, Run(a, 0, w))
  }

  /** No rule mentions `error`. */
  ghost predicate NoErrorRules(g: Grammar)
    requires g.WellFormed()
  {
    forall r :: 2 <= r < g.nrules ==> 1 !in g.Rhs(r)
  }

  lemma ErrorHere(a: Automaton, tb: Tables, w: seq<int>, q: int)
    requires CanRun(a, 0, w) && q == Run(a, 0, w) && 0 <= q < |tb.sindex| && tb.high < |tb.check| == |tb.table|
    ensures ErrorOver(a, tb, w) <==> tb.ShiftAt(q, tb.errcode).Value?
  {
  }

  lemma TopRecovers(a: Automaton, tb: Tables, word: seq<int>, k: nat)
    requires k <= |word| && ErrorOver(a, tb, word[..k]) && forall j :: k < j <= |word| ==> !ErrorOver(a, tb, word[..j])
    ensures RecoversAt(a, tb, word, k)
  {
  }

  lemma NoErrorShifts(g: Grammar, a: Automaton, value: seq<int>, tb: Tables, q: nat)
    requires SoundTables(g, a, value, tb) && g.WellFormed() && NoErrorRules(g) && q < |a.states|
    ensures !ShiftsError(tb, q)
  {
    if ShiftsError(tb, q) {
      var t := ShiftFact(g, a, value, tb, q, tb.errcode, tb.ShiftAt(q, tb.errcode).val);
      SameValue(g, a, value, tb, t, 1);
      var r := ErrorRule(g, a, q);
    }
  }

  lemma NeverRecovers(g: Grammar, a: Automaton, value: seq<int>, tb: Tables, word: seq<int>, k: nat)
    requires SoundTables(g, a, value, tb) && g.WellFormed() && NoErrorRules(g)
    ensures !RecoversAt(a, tb, word, k)
  {
    if RecoversAt(a, tb, word, k) {
      RunInRange(g, a, 0, word[..k]);
      NoErrorShifts(g, a, value, tb, Run(a, 0, word[..k]));
    }
  }

  /** Where `error` is shifted there is a rule that mentions it. */
  lemma ErrorRule(g: Grammar, a: Automaton, q: nat) returns (r: nat)
    requires IsLR0(g, a) && q < |a.states| && HasGoto(a, q, 1)
    ensures 2 <= r < g.nrules && 1 in g.Rhs(r)
  {
    var i := GotoGivesItem(g, a, q, 1);
    r := ItemExists(g, i, g.nrules);
    ItemSymbol(g, i, r);
    g.GetRule(r);
    assert g.Rhs(r)[i - g.rrhs[r]] == 1;
  }

  // ---------------------------------------------------------------------
  // Planned moves
  // ---------------------------------------------------------------------

  /** The parser's choice over `word`, on the number of token `tok`, is the move `mv`. */
  ghost predicate Chosen(g: Grammar, a: Automaton, value: seq<int>, tb: Tables, word: seq<int>, tok: int, mv: Move) {
    Sizes(g, |a.states|, tb) && CanRun(a, 0, word) && Run(a, 0, word) < |a.states| && 0 <= tok < |value| &&
    match mv
    case ShiftMove(x) => HasGoto(a, Run(a, 0, word), x) && x == tok && Decide(tb, Run(a, 0, word), value[tok]) == Shift(Goto(a, Run(a, 0, word), x))
    case ReduceMove(r) => Decide(tb, Run(a, 0, word), value[tok]) == Reduce(r - 2)
  }

  /** The parser chooses the moves of the plan one after another on the way from `word`, with
      `i` tokens of the input shifted, to the goal and the end of the input. */
  ghost predicate Drives(g: Grammar, a: Automaton, value: seq<int>, tb: Tables, w: seq<int>, word: seq<int>, i: nat, plan: seq<Move>)
    requires g.WellFormed()
    decreases |plan|
  {
    if plan == [] then word == [g.Goal()] && i == |w|
    else
      i <= |w| && Chosen(g, a, value, tb, word, Tok(w, i), plan[0]) &&
      Drives(g, a, value, tb, w, Next(g, word, plan[0]), if plan[0].ShiftMove? then i + 1 else i, plan[1..])
  }

  /** The lexer delivers the tokens `w` and then the end. */
  ghost predicate InputIs(g: Grammar, value: seq<int>, lex: nat -> int, w: seq<int>) {
    AreTokens(g, w) && Delivers(lex, value, w) && lex(|w|) <= 0
  }

  lemma InputAt(g: Grammar, value: seq<int>, lex: nat -> int, w: seq<int>, i: nat)
    requires g.WellFormed() && ValuesOK(g, value) && InputIs(g, value, lex, w) && i <= |w|
    ensures 0 <= Tok(w, i) < g.start && value[Tok(w, i)] == Clip(lex(i))
    ensures Clip(lex(i)) == 0 <==> i == |w|
  {
  }

  lemma DrivesFirst(g: Grammar, a: Automaton, value: seq<int>, tb: Tables, w: seq<int>, word: seq<int>, i: nat, plan: seq<Move>)
    requires g.WellFormed() && plan != [] && Drives(g, a, value, tb, w, word, i, plan)
    ensures i <= |w| && Chosen(g, a, value, tb, word, Tok(w, i), plan[0])
    ensures Drives(g, a, value, tb, w, Next(g, word, plan[0]), if plan[0].ShiftMove? then i + 1 else i, plan[1..])
  {
  }

  lemma OnlyGoal(w: seq<int>, x: int, goal: int)
    ensures w + [x] == [goal] <==> w == [] && x == goal
  {
    assert (w + [x])[|w|] == x;
  }

  lemma LastAdded(word0: seq<int>, word: seq<int>, t: int)
    requires |word| == |word0| + 1 && word[..|word0|] == word0 && word[|word0|] == t
    ensures word == word0 + [t]
  {
  }

  lemma DrivesDone(g: Grammar, a: Automaton, value: seq<int>, tb: Tables, w: seq<int>, word: seq<int>, i: nat)
    requires g.WellFormed() && Drives(g, a, value, tb, w, word, i, [])
    ensures word == [g.Goal()] && i == |w|
  {
  }

  lemma MoveSize(g: Grammar, word: seq<int>, mv: Move)
    requires g.WellFormed()
    ensures |Next(g, word, mv)| <= |word| + 1
    ensures mv.ShiftMove? ==> Next(g, word, mv) == word + [mv.token]
  {
  }

  /** Different tokens have different numbers. */
  lemma SameValue(g: Grammar, a: Automaton, value: seq<int>, tb: Tables, t: int, u: int)
    requires SoundTables(g, a, value, tb) && 0 <= t < g.start <= |value| && 0 <= u < g.start && value[t] == value[u]
    ensures t == u
  {
  }

  lemma GoalNoToken(g: Grammar, word: seq<int>, t: int)
    requires t < g.start
    ensures word + [t] != [g.Goal()]
  {
    assert (word + [t])[|word|] == t;
  }

  class Parser {
    const tb: Tables
    /** What the calls of yylex return, one after another. */
    const lex: nat -> int
    const yystacksize: nat
    const yyss: array<int>
    var yyssp: nat
    var yystate: int
    var yychar: int
    var yyerrflag: nat
    var yynerrs: nat
    /** How often yylex has been called. */
    var calls: nat

    ghost const g: Grammar
    ghost const a: Automaton
    ghost const value: seq<int>
    /** The symbols that the stack spells, and the tokens that have been shifted. */
    ghost var word: seq<int>
    ghost var tokens: seq<int>
    /** What the symbols on the stack stand for, with `error` for what has been dropped. */
    ghost var text: seq<int>

    ghost predicate Fixed()
      reads this
    {
      SoundTables(g, a, value, tb) && yyss.Length == yystacksize && yystacksize >= 2 && yyssp < yystacksize
    }

    /** The stack spells a path from state 0. */
    ghost predicate StackOK()
      reads this, yyss
    {
      Fixed() && Spells(a, yyss[..yyssp + 1], word)
    }

    /** What holds at yyloop in every run. */
    ghost predicate Valid()
      reads this, yyss
    {
      StackOK() && yychar >= -1 && Repair(g, value, lex, word, text, calls, yychar, yyerrflag) &&
      (yynerrs == 0 ==> yyerrflag == 0 && History(g, value, lex, word, tokens, calls, yychar))
    }

    ghost predicate AtLoop()
      reads this, yyss
    {
      Valid() && yystate == yyss[yyssp]
    }

    /** The number that the parser looks at next. */
    ghost function NextKey(): int
      reads this
    {
      if yychar >= 0 then yychar else Clip(lex(calls))
    }

    constructor (tables: Tables, yylex: nat -> int, size: nat, ghost g0: Grammar, ghost a0: Automaton, ghost v0: seq<int>)
      requires SoundTables(g0, a0, v0, tables) && size >= 2
      ensures AtLoop() && fresh(yyss) && yynerrs == 0 && calls == 0 && word == [] && tokens == []
      ensures g == g0 && a == a0 && value == v0 && tb == tables && lex == yylex && yystacksize == size
    {
      tb, lex, yystacksize := tables, yylex, size;
      g, a, value := g0, a0, v0;
      yynerrs, yyerrflag, yychar, yyssp, yystate, calls := 0, 0, -1, 0, 0, 0;
      word, tokens, text := [], [], [];
      yyss := new int[size](_ => 0);
      new;
      assert yyss[..yyssp + 1] == [0];
      SpellsStart(a);
      DerivesRefl(g, []);
    }

    /** Get a lookahead unless there is one. */
    method ReadToken()
      requires Valid()
      modifies this`yychar, this`calls
      ensures Valid() && yychar == old(NextKey()) >= 0 && (old(AtLoop()) ==> AtLoop())
    {
      if yychar < 0 {
        yychar := Clip(lex(calls));
        calls := calls + 1;
      }
    }

    /** Push the state entered on symbol `x`. */
    method Push(s: int, ghost x: int)
      requires StackOK() && yyssp + 1 < yystacksize
      requires CanRun(a, 0, word) && HasGoto(a, Run(a, 0, word), x) && s == Goto(a, Run(a, 0, word), x)
      modifies this`yyssp, this`yystate, this`word, yyss
      ensures StackOK() && word == old(word) + [x] && yystate == s == yyss[yyssp]
    {
      ghost var before := yyss[..yyssp + 1];
      SpellsPush(a, before, word, x);
      yyssp := yyssp + 1;
      yystate := s;
      yyss[yyssp] := s;
      word := word + [x];
      assert yyss[..yyssp + 1] == before + [s];
    }

    /** Drop `n` states. */
    method Pop(n: nat)
      requires StackOK() && n <= |word|
      modifies this`yyssp, this`word
      ensures StackOK() && word == old(word)[..|old(word)| - n] && yyssp == old(yyssp) - n
      ensures CanRun(a, 0, word) && yyss[yyssp] == Run(a, 0, word) && 0 <= yyss[yyssp] < |a.states|
    {
      SpellsPop(a, yyss[..yyssp + 1], word, n);
      assert yyss[..yyssp + 1][..yyssp + 1 - n] == yyss[..yyssp + 1 - n];
      yyssp := yyssp - n;
      word := word[..|word| - n];
      SpellsTop(g, a, yyss[..yyssp + 1], word);
    }

    /** The shift of the lookahead. */
    method ShiftToken(s: int) returns (o: Outcome)
      requires AtLoop() && yychar >= 0
      requires 0 <= yystate < |tb.sindex| && tb.high < |tb.check| == |tb.table| && tb.ShiftAt(yystate, yychar) == Value(s)
      modifies this`yyssp, this`yystate, this`word, this`tokens, this`text, this`yychar, this`yyerrflag, yyss
      ensures Valid() && yyerrflag == (if old(yyerrflag) > 0 && o == Continue then old(yyerrflag) - 1 else old(yyerrflag)) && (o == Continue ==> AtLoop()) && o != Accept
      ensures if |old(word)| + 1 >= yystacksize then o == Overflow else o == Continue && HasShifted(old(word), |old(tokens)|, old(yystate), old(yychar), s)
    {
      SpellsTop(g, a, yyss[..yyssp + 1], word);
      ghost var t := ShiftFact(g, a, value, tb, yystate, yychar, s);
      if yyssp >= yystacksize - 1 {
        return Overflow;
      }
      PushToken(s, t);
      return Continue;
    }

    /** One token more: the one with number `key`, shifted from `q` to `s`. */
    ghost predicate HasShifted(word0: seq<int>, n: nat, q: int, key: int, s: int)
      reads this
    {
      |tokens| == n + 1 && |word| == |word0| + 1 && word[..|word0|] == word0 && q >= 0 && g.start <= |value| && IsShift(g, a, value, q, key, word[|word0|], s)
    }

    /** Push the state entered on the lookahead, token `t`, use the lookahead up, and count down to
        the end of the recovery. */
    method PushToken(s: int, ghost t: int)
      requires Valid() && yyssp + 1 < yystacksize && yychar >= 0 && CanRun(a, 0, word)
      requires IsShift(g, a, value, Run(a, 0, word), yychar, t, s)
      modifies this`yyssp, this`yystate, this`word, this`tokens, this`text, this`yychar, this`yyerrflag, yyss
      ensures yyerrflag == if old(yyerrflag) > 0 then old(yyerrflag) - 1 else 0
      ensures AtLoop() && word == old(word) + [t] && tokens == old(tokens) + [t]
    {
      hide History, Repair, Spells, Run, CanRun, HasGoto, IsLR0, Sizes, StatesSound, GotosRefine, RuleDataOK, Grammar.WellFormed;
      SoundFacts(g, a, value, tb);
      RepairShift(g, value, lex, word, text, calls, yychar, yyerrflag, t);
      if yynerrs == 0 {
        HistoryShift(g, value, lex, word, tokens, calls, yychar, t);
      }
      Push(s, t);
      tokens := tokens + [t];
      text := text + [t];
      yychar := -1;
      if yyerrflag > 0 {
        yyerrflag := yyerrflag - 1;
      }
    }

    /** yyreduce: pop the right side and push the goto.  After a reduction to the goal
        on the empty stack the end of the input accepts. */
    method ReduceBy(n: nat) returns (o: Outcome)
      requires AtLoop() && 0 <= yystate && IsReduction(a, yystate, n)
      modifies this`yyssp, this`yystate, this`word, this`yychar, this`calls, yyss
      ensures StackOK() && (o == Continue ==> AtLoop()) && (o == Accept ==> AtLoop() && word == [g.Goal()] && yychar == 0)
      ensures g.WellFormed() && HasReduced(o, Next(g, old(word), ReduceMove(n + 2)))
    {
      PopRule(n);
      var yym := tb.lhs[n];
      o := PushGoto(yym, n + 2);
    }

    /** `word1` is on the stack; the goal at the end of the input has been accepted. */
    ghost predicate HasReduced(o: Outcome, word1: seq<int>)
      reads this
    {
      if o == Overflow then |word1| >= yystacksize
      else word == word1 && (o == Accept || (o == Continue && (word == [g.Goal()] ==> NextKey() != 0)))
    }

    /** A rule has been popped: what the stack looks like before its left side is pushed. */
    ghost predicate Popped(r: nat)
      reads this, yyss
    {
      StackOK() && yychar >= -1 && yystate == yyss[yyssp] && 0 <= yystate < |a.states| && CanRun(a, 0, word) && yystate == Run(a, 0, word) &&
      2 < r < g.nrules && HasGoto(a, yystate, g.rlhs[r]) && Repair(g, value, lex, word + [g.rlhs[r]], text, calls, yychar, yyerrflag) &&
      (yynerrs == 0 ==> yyerrflag == 0 && History(g, value, lex, word + [g.rlhs[r]], tokens, calls, yychar))
    }

    method PopRule(n: nat)
      requires AtLoop() && 0 <= yystate && IsReduction(a, yystate, n)
      modifies this`yyssp, this`yystate, this`word
      ensures Popped(n + 2) && n < |tb.lhs| && tb.lhs[n] == g.rlhs[n + 2] - g.start - 1 && 0 <= tb.lhs[n] < |tb.dgoto|
      ensures g.WellFormed() && word + [g.rlhs[n + 2]] == Next(g, old(word), ReduceMove(n + 2))
    {
      hide Next, History, Repair, SoundTables, Spells, Run, CanRun, HasGoto, IsLR0, Sizes, IsReduction, Grammar.WellFormed, Grammar.Rhs;
      SoundFacts(g, a, value, tb);
      SpellsTop(g, a, yyss[..yyssp + 1], word);
      ReduceFacts(g, a, value, tb, word, n);
      RepairReduce(g, value, lex, word, n + 2, text, calls, yychar, yyerrflag);
      if yynerrs == 0 {
        HistoryReduce(g, value, lex, word, n + 2, tokens, calls, yychar);
      }
      PoppedNext(g, word, n + 2);
      ghost var rest := word[..|word| - tb.len[n]];
      assert Repair(g, value, lex, rest + [g.rlhs[n + 2]], text, calls, yychar, yyerrflag);
      assert yynerrs == 0 ==> History(g, value, lex, rest + [g.rlhs[n + 2]], tokens, calls, yychar);
      assert HasGoto(a, Run(a, 0, rest), g.rlhs[n + 2]);
      PopStates(tb.len[n]);
      assert word == rest;
    }

    method PopStates(yym: nat)
      requires StackOK() && yym <= |word|
      modifies this`yyssp, this`yystate, this`word
      ensures StackOK() && yystate == yyss[yyssp] && 0 <= yystate < |a.states|
      ensures word == old(word[..|word| - yym]) && CanRun(a, 0, word) && yystate == Run(a, 0, word)
    {
      Pop(yym);
      yystate := yyss[yyssp];
    }

    method PushGoto(yym: nat, ghost r: nat) returns (o: Outcome)
      requires Popped(r) && yym == g.rlhs[r] - g.start - 1 < |tb.dgoto|
      modifies this`yyssp, this`yystate, this`word, this`yychar, this`calls, yyss
      ensures StackOK() && (o == Continue ==> AtLoop()) && (o == Accept ==> AtLoop() && word == [g.Goal()] && yychar == 0)
      ensures HasReduced(o, old(word) + [g.rlhs[r]])
    {
      hide Repair, History, Spells, SoundTables, IsLR0, Sizes, Grammar.WellFormed, Run, CanRun, HasGoto, Goto;
      SoundFacts(g, a, value, tb);
      FinalFacts(g, a, value, tb);
      SpellsSize(a, yyss[..yyssp + 1], word);
      GotoFacts(g, a, value, tb, yystate, yym);
      if yystate == 0 && yym == 0 {
        OnlyBottomIsStart(g, a, word);
        Push(tb.final, g.Goal());
        ReadToken();
        return if yychar == 0 then Accept else Continue;
      }
      var s := tb.GotoAt(yystate, yym);
      if yyssp >= yystacksize - 1 {
        return Overflow;
      }
      OnlyGoal(word, g.rlhs[r], g.Goal());
      Push(s, g.rlhs[r]);
      return Continue;
    }

    /** The parser has dealt with a syntax error: the lookahead has been dropped if that was done
        already, otherwise the states above the topmost one that shifts `error`. */
    ghost predicate HasRecovered(o: Outcome, word0: seq<int>, flag: nat, key: int)
      reads this
    {
      if flag >= 3 then if key == 0 then o == Abort else o == Continue && word == word0 && yychar == -1 && yyerrflag == flag
      else if o == Abort then forall k :: 0 <= k <= |word0| ==> !ErrorOver(a, tb, word0[..k])
      else if o == Overflow then exists k: nat :: RecoversAt(a, tb, word0, k) && k + 1 >= yystacksize
      else o == Continue && word != [] && RecoversAt(a, tb, word0, |word| - 1) && word == word0[..|word| - 1] + [1] && yychar == key && yyerrflag == 3
    }

    /** yynewerror and yyinrecovery: drop states until one shifts `error`, or drop the
        lookahead if that has just been done. */
    method Recover() returns (o: Outcome)
      requires AtLoop() && yychar >= 0
      modifies this`yyssp, this`yystate, this`word, this`text, this`yychar, this`yyerrflag, this`yynerrs, yyss
      ensures StackOK() && yynerrs > 0 && o != Accept && (o == Continue ==> AtLoop())
      ensures yynerrs == old(yynerrs) + (if old(yyerrflag) == 0 then 1 else 0)
      ensures HasRecovered(o, old(word), old(yyerrflag), old(yychar))
    {
      hide Repair, History, Spells, RecoversAt, ErrorOver, StatesSound, GotosRefine, RuleDataOK, IsLR0, Grammar.WellFormed, Run, CanRun;
      if yyerrflag == 0 {
        yynerrs := yynerrs + 1;
      }
      if yyerrflag >= 3 {
        if yychar == 0 {
          return Abort;
        }
        SoundFacts(g, a, value, tb);
        FlagIsThree();
        RepairDiscard(g, value, lex, word, text, calls, yychar);
        yychar := -1;
        return Continue;
      }
      SoundFacts(g, a, value, tb);
      ghost var flag := yyerrflag;
      yyerrflag := 3;
      o := DropStates(flag);
    }

    lemma FlagIsThree()
      requires Valid() && yyerrflag >= 3 && g.WellFormed()
      ensures yyerrflag == 3
    {
    }

    /** The loop of yyinrecovery. */
    method DropStates(ghost flag: nat) returns (o: Outcome)
      requires StackOK() && yystate == yyss[yyssp] && yychar >= 0 && yynerrs > 0 && yyerrflag == 3 && flag < 3
      requires g.WellFormed() && Repair(g, value, lex, word, text, calls, yychar, flag)
      modifies this`yyssp, this`yystate, this`word, this`text, yyss
      ensures StackOK() && (o == Continue ==> AtLoop()) && HasRecovered(o, old(word), flag, yychar) && o != Accept
    {
      hide Repair, History, Spells, RecoversAt, ErrorOver, StatesSound, GotosRefine, RuleDataOK, IsLR0, Grammar.WellFormed, Run, CanRun;
      ghost var word0, k := word, |word|;
      assert word0[..k] == word0;
      SpellsSize(a, yyss[..yyssp + 1], word);
      while true
        invariant StackOK() && k <= |word0| && k == yyssp && word == word0[..k] && text == old(text) && yystate == old(yystate)
        invariant forall j :: k < j <= |word0| ==> !ErrorOver(a, tb, word0[..j])
        decreases yyssp
      {
        SpellsTop(g, a, yyss[..yyssp + 1], word);
        var q := yyss[yyssp];
        SoundFacts(g, a, value, tb);
        ErrorHere(a, tb, word, q);
        match tb.ShiftAt(q, tb.errcode)
        case Value(s) =>
          ghost var t := ShiftFact(g, a, value, tb, q, tb.errcode, s);
          SameValue(g, a, value, tb, t, 1);
          TopRecovers(a, tb, word0, k);
          if yyssp >= yystacksize - 1 {
            return Overflow;
          }
          text := RepairError(g, value, lex, word0, k, text, calls, yychar, flag);
          Push(s, t);
          return Continue;
        case Nothing =>
          if yyssp <= 0 {
            return Abort;
          }
          Pop(1);
          k := k - 1;
          assert word0[..k + 1][..k] == word0[..k];
      }
    }

    lemma LoopFacts()
      requires AtLoop()
      ensures Valid() && 0 <= yystate < |a.states| && SoundTables(g, a, value, tb) && g.WellFormed() && Sizes(g, |a.states|, tb)
      ensures yystate < |tb.sindex| && yystate < |tb.rindex| && yystate < |tb.defred| && tb.high < |tb.check| == |tb.table|
    {
      SpellsTop(g, a, yyss[..yyssp + 1], word);
    }

    /** Acceptance: only the goal is on the stack, at the end of the input. */
    ghost predicate HasAccepted()
      reads this, yyss
    {
      AtLoop() && word == [g.Goal()] && yychar == 0 && g.WellFormed() && ReadRepaired(g, value, lex, text, calls) &&
      (yynerrs == 0 ==> ReadSentence(g, value, lex, tokens) && calls == |tokens| + 1)
    }

    lemma AcceptedSentence(o: Outcome)
      requires o == Accept ==> AtLoop() && word == [g.Goal()] && yychar == 0
      ensures o == Accept ==> HasAccepted()
    {
      hide Spells, Derives, Covers;
    }

    /** One round of the main loop. */
    method Round() returns (o: Outcome)
      requires AtLoop()
      modifies this, yyss
      ensures StackOK() && (o == Continue ==> AtLoop())
      ensures o == Accept ==> HasAccepted()
      ensures Sizes(g, |a.states|, tb) && g.WellFormed() && 0 <= old(yystate) < |a.states|
      ensures Decide(tb, old(yystate), old(NextKey())).Shift? ==>
        var s := Decide(tb, old(yystate), old(NextKey())).state;
        yynerrs == old(yynerrs) &&
        if |old(word)| + 1 >= yystacksize then o == Overflow
        else
          o == Continue && HasShifted(old(word), |old(tokens)|, old(yystate), old(NextKey()), s) &&
          yyerrflag == if old(yyerrflag) > 0 then old(yyerrflag) - 1 else 0
      ensures Decide(tb, old(yystate), old(NextKey())).Reduce? ==>
        var n := Decide(tb, old(yystate), old(NextKey())).rule;
        n >= 0 && yynerrs == old(yynerrs) && yyerrflag == old(yyerrflag) && tokens == old(tokens) && HasReduced(o, Next(g, old(word), ReduceMove(n + 2)))
      ensures Decide(tb, old(yystate), old(NextKey())).Fail? ==>
        yynerrs > 0 && yynerrs == old(yynerrs) + (if old(yyerrflag) == 0 then 1 else 0) && o != Accept && tokens == old(tokens) &&
        HasRecovered(o, old(word), old(yyerrflag), old(NextKey()))
    {
      hide SoundTables, Spells, History, Repair, HasShifted, HasReduced, HasRecovered, HasAccepted, AtLoop, Valid, StackOK, Grammar.WellFormed, Sizes;
      LoopFacts();
      var yyn := tb.defred[yystate];
      ReduceFact(g, a, value, tb, yystate, 0);
      if yyn != 0 {
        o := ReduceBy(yyn);
        AcceptedSentence(o);
        return;
      }
      ReadToken();
      ReduceFact(g, a, value, tb, yystate, yychar);
      match tb.ShiftAt(yystate, yychar) {
        case Value(s) =>
          o := ShiftToken(s);
        case Nothing =>
          match tb.ReduceAt(yystate, yychar)
          case Value(n) =>
            o := ReduceBy(n);
            AcceptedSentence(o);
          case Nothing => o := Recover();
      }
    }

    lemma FlagOff()
      requires AtLoop() && yynerrs == 0
      ensures yyerrflag == 0
    {
    }

    /** Without rules for `error` there is no way out. */
    lemma NoRecovery(o: Outcome, word0: seq<int>, flag: nat, key: int)
      requires StackOK() && g.WellFormed() && NoErrorRules(g) && HasRecovered(o, word0, flag, key) && flag < 3
      ensures o == Abort
    {
      hide Spells, RecoversAt;
      forall k: nat ensures !RecoversAt(a, tb, word0, k) {
        NeverRecovers(g, a, value, tb, word0, k);
      }
    }

    /** The plan can be carried out: the tables choose its moves and the stack has room. */
    ghost predicate Planned(w: seq<int>, plan: seq<Move>)
      reads this
    {
      yynerrs == 0 && g.WellFormed() && InputIs(g, value, lex, w) && |tokens| <= |w| && plan != [] &&
      Drives(g, a, value, tb, w, word, |tokens|, plan) && |word| + |plan| < yystacksize
    }

    /** yyparse, for at most `rounds` rounds of its loop: in every run, with or without
        syntax errors, the stack spells a path after every round; and when it returns
        0 without having counted an error, the tokens read up to the end are a sentence.

        The other way around, it returns 0 if the moves that build a parse tree of the input
        are those that the tables choose. */
    method Parse(rounds: nat, ghost w: seq<int>, ghost plan: seq<Move>) returns (o: Outcome)
      requires AtLoop()
      modifies this, yyss
      ensures StackOK() && (o == Continue ==> AtLoop())
      ensures o == Accept ==> HasAccepted()
      ensures old(Planned(w, plan)) && |plan| <= rounds ==> o == Accept && yynerrs == 0
      ensures g.WellFormed() && (NoErrorRules(g) && old(yynerrs) == 0 ==> yynerrs == if o == Abort then 1 else 0)
    {
      hide AtLoop, StackOK, HasAccepted, Grammar.WellFormed, NoErrorRules, Drives, InputIs;
      o := Continue;
      var i := 0;
      ghost var planned, left, plain := Planned(w, plan), plan, yynerrs == 0;
      LoopFacts();
      while o == Continue && i < rounds
        invariant StackOK() && (o == Continue ==> AtLoop()) && (o == Accept ==> HasAccepted())
        invariant g.WellFormed() && (NoErrorRules(g) && plain ==> yynerrs == if o == Abort then 1 else 0)
        invariant i <= rounds && (planned ==> yynerrs == 0 && (o == Accept || (o == Continue && Planned(w, left) && |left| + i == |plan|)))
      {
        o := OneRound(planned, w, left);
        left := if planned then left[1..] else left;
        i := i + 1;
      }
    }

    /** What the parser chooses now is the first move of the plan. */
    lemma PlannedMove(w: seq<int>, plan: seq<Move>)
      requires AtLoop() && Planned(w, plan)
      ensures 0 <= yystate < |a.states| && Sizes(g, |a.states|, tb) && HasGotoFor(plan[0])
      ensures 0 <= Tok(w, |tokens|) < g.start <= |value| && NextKey() == value[Tok(w, |tokens|)]
      ensures plan[0].ShiftMove? ==> Decide(tb, yystate, NextKey()) == Shift(Goto(a, yystate, plan[0].token)) && plan[0].token == Tok(w, |tokens|)
      ensures plan[0].ReduceMove? ==> Decide(tb, yystate, NextKey()) == Reduce(plan[0].rule - 2)
      ensures Drives(g, a, value, tb, w, Next(g, word, plan[0]), if plan[0].ShiftMove? then |tokens| + 1 else |tokens|, plan[1..])
    {
      hide Drives, StatesSound, IsLR0, GotosRefine, RuleDataOK, Spells, Grammar.WellFormed, Derives;
      SpellsTop(g, a, yyss[..yyssp + 1], word);
      NextTok(w);
      DrivesFirst(g, a, value, tb, w, word, |tokens|, plan);
    }

    ghost predicate HasGotoFor(mv: Move)
      reads this
    {
      mv.ShiftMove? ==> yystate >= 0 && HasGoto(a, yystate, mv.token)
    }

    /** Without errors the next number is that of the next token of the input. */
    lemma NextTok(w: seq<int>)
      requires AtLoop() && yynerrs == 0 && g.WellFormed() && InputIs(g, value, lex, w) && |tokens| <= |w|
      ensures 0 <= Tok(w, |tokens|) < g.start <= |value| && NextKey() == value[Tok(w, |tokens|)] == Clip(lex(|tokens|))
      ensures NextKey() == 0 <==> |tokens| == |w|
    {
      hide Spells, StatesSound, IsLR0, GotosRefine, RuleDataOK, InputIs, Grammar.WellFormed, Derives;
      InputAt(g, value, lex, w, |tokens|);
    }

    /** The token has been shifted, and the plan goes on. */
    lemma ShiftGoesOn(w: seq<int>, word0: seq<int>, n: nat, q: int, s: int, tok: int, rest: seq<Move>)
      requires AtLoop() && yynerrs == 0 && g.WellFormed() && InputIs(g, value, lex, w) && n <= |w| && |word0| + 1 + |rest| < yystacksize
      requires 0 <= tok < g.start <= |value| && tok == Tok(w, n) && HasShifted(word0, n, q, value[tok], s)
      requires Drives(g, a, value, tb, w, word0 + [tok], n + 1, rest)
      ensures Planned(w, rest)
    {
      hide AtLoop, InputIs, Drives, HasShifted, Grammar.WellFormed;
      ShiftedToken(word0, n, q, s, tok);
      if rest == [] {
        DrivesDone(g, a, value, tb, w, word0 + [tok], n + 1);
        GoalNoToken(g, word0, tok);
      }
    }

    lemma ShiftedToken(word0: seq<int>, n: nat, q: int, s: int, tok: int)
      requires AtLoop() && 0 <= tok < g.start <= |value| && HasShifted(word0, n, q, value[tok], s)
      ensures word == word0 + [tok] && tok > 0 && |tokens| == n + 1
    {
      hide AtLoop, SoundTables, HasGoto, Goto;
      LoopFacts();
      SameValue(g, a, value, tb, word[|word0|], tok);
      LastAdded(word0, word, tok);
    }

    /** A rule has been reduced, and the plan goes on. */
    lemma ReduceGoesOn(w: seq<int>, o: Outcome, word1: seq<int>, rest: seq<Move>)
      requires AtLoop() && yynerrs == 0 && g.WellFormed() && InputIs(g, value, lex, w) && |tokens| <= |w| && |word1| + |rest| < yystacksize
      requires o == Continue && HasReduced(o, word1) && Drives(g, a, value, tb, w, word1, |tokens|, rest)
      ensures Planned(w, rest)
    {
      hide AtLoop, InputIs, Grammar.WellFormed;
      NextTok(w);
    }

    /** A round; if it is planned, it does the next move of the plan. */
    method OneRound(ghost planned: bool, ghost w: seq<int>, ghost plan: seq<Move>) returns (o: Outcome)
      requires AtLoop() && (planned ==> Planned(w, plan))
      modifies this, yyss
      ensures StackOK() && (o == Continue ==> AtLoop())
      ensures o == Accept ==> HasAccepted()
      ensures g.WellFormed() && (NoErrorRules(g) && old(yynerrs) == 0 ==> yynerrs == if o == Abort then 1 else 0)
      ensures planned ==> yynerrs == 0 && (o == Accept || (o == Continue && AtLoop() && Planned(w, plan[1..])))
    {
      hide AtLoop, StackOK, Drives, Chosen, HasShifted, InputIs, Sizes, Next, Grammar.WellFormed, IsShift;
      ghost var word0, n, q, key := word, |tokens|, yystate, NextKey();
      if planned {
        PlannedMove(w, plan);
        MoveSize(g, word, plan[0]);
      }
      LoopFacts();
      if yynerrs == 0 {
        FlagOff();
      }
      ghost var d, flag := Decide(tb, yystate, NextKey()), yyerrflag;
      o := Round();
      if NoErrorRules(g) && old(yynerrs) == 0 && d.Fail? {
        NoRecovery(o, word0, flag, key);
      }
      if planned {
        match plan[0]
        case ShiftMove(x) =>
          ShiftGoesOn(w, word0, n, q, Goto(a, q, x), x, plan[1..]);
        case ReduceMove(r) =>
          if o == Continue {
            ReduceGoesOn(w, o, Next(g, word0, plan[0]), plan[1..]);
          }
      }
    }
  }
}
