/** byacc/main.c: the phases one after another, from the packed grammar to the arrays
    of the generated parser. */
module Byacc {
  import opened Bits
  import opened Grammars
  import opened LR0
  import opened Automata
  import opened GotoMaps
  import opened Lalr
  import opened Mkpar
  import opened Output
  import opened Parsers
  import opened Trees
  import opened Sentences
  import opened Acceptance
  import Agreement

  /** Everything that the phases promise each other about one grammar. */
  ghost predicate Generated(g: Grammar, pr: Precedence, value: seq<int>, a: Automaton, m: GotoMap, nullable: seq<bool>,
                            t: Reductions, la: seq<set<nat>>, p: ParserRows, tb: Tables)
  {
    IsLR0(g, a) && CoresOK(g, a.states) && GotoMapOK(g, a, m) && |nullable| == g.nsyms && NullTable(g, nullable) &&
    ReductionsNumbered(a, t) && LeastLookaheads(g, a, m, nullable, t, la) &&
    PrecedenceFor(g, pr) && |la| == |t.ruleno| && IsParser(g, a, pr, t, la, p) && Refines(g, a, value, p, tb)
  }

  /** lr0, lalr, make_parser and output: the arrays refine the conflict-resolved action
      lists over the canonical collection and the least lookahead sets. */
  method Generate(g: Grammar, pr: Precedence, value: seq<int>)
    returns (tb: Tables, p: ParserRows, a: Automaton, m: GotoMap, t: Reductions, ghost nullable: seq<bool>, ghost la: seq<set<nat>>)
    requires g.WellFormed() && PrecedenceFor(g, pr) && ValuesOK(g, value)
    ensures Generated(g, pr, value, a, m, nullable, t, la, p, tb)
    ensures SoundTables(g, a, value, tb)
  {
    var derives := SetDerives(g);
    var nulls := SetNullable(g);
    nullable := nulls[..];
    a := GenerateStates(g, derives);
    var LA, w;
    m, t, LA, w := Lookaheads(g, a, nulls, derives);
    la := Rows(LA[..], |t.ruleno|, w);
    var SRtotal, RRtotal;
    p, SRtotal, RRtotal := MakeParser(g, a, pr, t, LA);
    AllRepresentable(g, a, pr, t, la, p);
    tb := OutputTables(g, a, m, value, p);
    GeneratedTablesSound(g, a, value, pr, t, la, p, tb);
  }

  lemma AllRepresentable(g: Grammar, a: Automaton, pr: Precedence, t: Reductions, la: seq<set<nat>>, p: ParserRows)
    requires IsLR0(g, a) && PrecedenceFor(g, pr) && |la| == |t.ruleno| && ReductionsNumbered(a, t) && IsParser(g, a, pr, t, la, p)
    ensures forall q :: 0 <= q < |p.rows| ==> Representable(p.rows[q], g.start)
  {
    forall q: nat | q < |p.rows| ensures Representable(p.rows[q], g.start) {
      assert FinalRow(g, a, pr, t, la, p.final, q, p.rows[q]);
      RowRepresentable(g, a, pr, t, la, p.final, q, p.rows[q]);
    }
  }

  lemma GeneratedBuilt(g: Grammar, pr: Precedence, value: seq<int>, a: Automaton, m: GotoMap, nullable: seq<bool>,
                       t: Reductions, la: seq<set<nat>>, p: ParserRows, tb: Tables)
    requires Generated(g, pr, value, a, m, nullable, t, la, p, tb)
    ensures Built(Machine(g, a, t, la), pr, value, p, tb)
  {
    hide GotoMapOK, StatesOK, CoresOK, NullTable, LeastLookaheads, IsParser, Refines, ReductionsNumbered;
    Agreement.MapSize(g, a, m);
    assert HasLookaheads(Machine(g, a, t, la), m, nullable);
  }

  /** The generated parser on any lexer, for any number of rounds.  It accepts only at the end of
      an input that is a sentence but for the stretches that `error` stands for; without
      having counted an error, only a sentence.  If no rule mentions `error`, the first
      error counted ends the run.  If no action was dropped, it accepts every sentence
      that the rounds and the stack allow. */
  method GenerateAndParse(g: Grammar, pr: Precedence, value: seq<int>, lex: nat -> int, size: nat, rounds: nat)
    returns (o: Outcome, errors: nat, calls: nat, p: ParserRows, ghost tokens: seq<int>, ghost text: seq<int>)
    requires g.WellFormed() && PrecedenceFor(g, pr) && ValuesOK(g, value) && size >= 2
    ensures o == Accept && errors == 0 ==> ReadSentence(g, value, lex, tokens) && calls == |tokens| + 1
    ensures o == Accept ==> ReadRepaired(g, value, lex, text, calls)
    ensures NoErrorRules(g) ==> errors == if o == Abort then 1 else 0
    ensures forall w :: NoneDropped(p) && InputIs(g, value, lex, w) && SentenceWithin(g, w, Reach(rounds, size)) ==> o == Accept && errors == 0
  {
    hide Generated, SoundTables, ReadSentence, ReadRepaired, NoErrorRules, Drives, InputIs, SentenceWithin, NoneDropped, PrecedenceFor, ValuesOK, Grammar.WellFormed;
    var tb, a, m, t;
    ghost var nullable, la;
    tb, p, a, m, t, nullable, la := Generate(g, pr, value);
    var parser := new Parser(tb, lex, size, g, a, value);
    ghost var w, plan := PlanFor(g, pr, value, a, m, nullable, t, la, p, tb, lex, Reach(rounds, size));
    o := parser.Parse(rounds, w, plan);
    errors, calls, tokens, text := parser.yynerrs, parser.calls, parser.tokens, parser.text;
  }

  /** The number of moves that both allow. */
  function Reach(rounds: nat, size: nat): int {
    if rounds < size then rounds else size - 1
  }

  /** A plan for the input, if it is a sentence within reach. */
  lemma PlanFor(g: Grammar, pr: Precedence, value: seq<int>, a: Automaton, m: GotoMap, nullable: seq<bool>, t: Reductions,
                la: seq<set<nat>>, p: ParserRows, tb: Tables, lex: nat -> int, n: int) returns (w: seq<int>, plan: seq<Move>)
    requires Generated(g, pr, value, a, m, nullable, t, la, p, tb) && g.WellFormed()
    ensures (exists w :: NoneDropped(p) && InputIs(g, value, lex, w) && SentenceWithin(g, w, n)) ==>
      InputIs(g, value, lex, w) && plan != [] && |plan| <= n && Drives(g, a, value, tb, w, [], 0, plan)
  {
    w, plan := [], [];
    if exists w :: NoneDropped(p) && InputIs(g, value, lex, w) && SentenceWithin(g, w, n) {
      w :| NoneDropped(p) && InputIs(g, value, lex, w) && SentenceWithin(g, w, n);
      GeneratedBuilt(g, pr, value, a, m, nullable, t, la, p, tb);
      plan := SentenceDrives(Machine(g, a, t, la), pr, value, p, tb, w, n);
    }
  }
}
