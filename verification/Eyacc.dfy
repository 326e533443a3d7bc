/** eyacc/ey3.c: the older generator.  Nullable nonterminals, first tokens, and the
    states with their lookahead sets, which are carried from state to state until
    nothing changes.  Symbols and items are numbered as in `Grammars`: the end marker is
    0 instead of 1, and production `i` is rule `i + 2`. */
module Eyacc {
  import opened Grammars
  import opened Closures
  import opened LR0
  import opened Firsts
  import opened Propagation

  // ---------------------------------------------------------------------
  // cempty
  // ---------------------------------------------------------------------

  /** Rule `r` cannot mark its left side. */
  ghost predicate NothingNew(g: Grammar, marks: set<int>, r: int)
    requires g.WellFormed()
  {
    2 <= r < g.nrules && (g.rlhs[r] in marks || exists x :: x in g.Rhs(r) && x !in marks)
  }

  lemma NothingNewClosed(g: Grammar, pempty: seq<bool>)
    requires g.WellFormed() && NullSound(g, pempty) && forall r :: 2 < r < g.nrules ==> NothingNew(g, Marked(pempty), r)
    ensures NullTable(g, pempty)
  {
    assert g.Rhs(2)[1] == 0;
    TokenStays(g, 0);
    assert 0 in g.Rhs(2) && 0 !in Marked(pempty);
    forall r | 2 <= r < g.nrules && forall x :: x in g.Rhs(r) ==> x in Marked(pempty) ensures g.rlhs[r] in Marked(pempty) {
      assert r > 2 ==> NothingNew(g, Marked(pempty), r);
    }
    NullComplete(g, pempty);
  }

  /** cempty: nonterminals with an empty rule first, then one at a time, from the first
      rule again after each. */
  method CEmpty(g: Grammar) returns (pempty: array<bool>)
    requires g.WellFormed()
    ensures fresh(pempty) && NullTable(g, pempty[..])
  {
    pempty := new bool[g.nsyms](_ => false);
    for i := 3 to g.nrules
      invariant NullSound(g, pempty[..])
    {
      g.GetRule(i);
      if g.ritem[g.rrhs[i]] <= 0 {
        RuleVanishes(g, i);
        pempty[g.rlhs[i]] := true;
      }
    }
    var again := true;
    while again
      invariant NullSound(g, pempty[..])
      invariant !again ==> NullTable(g, pempty[..])
      decreases g.nsyms - |Marked(pempty[..])|, again
    {
      MarkedBound(pempty[..]);
      again := MarkOne(g, pempty);
      MarkedBound(pempty[..]);
    }
  }

  /** Look for one more nonterminal to mark. */
  method MarkOne(g: Grammar, pempty: array<bool>) returns (again: bool)
    requires g.WellFormed() && NullSound(g, pempty[..])
    modifies pempty
    ensures NullSound(g, pempty[..])
    ensures again ==> |Marked(old(pempty[..]))| < |Marked(pempty[..])|
    ensures !again ==> pempty[..] == old(pempty[..]) && NullTable(g, pempty[..])
  {
    var i := 3;
    while i < g.nrules
      invariant 3 <= i <= g.nrules && pempty[..] == old(pempty[..])
      invariant forall r :: 2 < r < i ==> NothingNew(g, Marked(pempty[..]), r)
    {
      g.GetRule(i);
      if !pempty[g.rlhs[i]] {
        var p := WalkEmpty(g, pempty, i);
        if g.ritem[p] < 0 {
          RuleVanishes(g, i);
          MarkMore(g, pempty[..], g.rlhs[i]);
          pempty[g.rlhs[i]] := true;
          return true;
        }
      }
      i := i + 1;
    }
    NothingNewClosed(g, pempty[..]);
    return false;
  }

  lemma MarkMore(g: Grammar, pempty: seq<bool>, x: int)
    requires g.WellFormed() && NullSound(g, pempty) && 0 <= x < |pempty| && !pempty[x] && Derives(g, [x], [])
    ensures NullSound(g, pempty[x := true]) && |Marked(pempty)| < |Marked(pempty[x := true])|
  {
    assert Marked(pempty[x := true]) == Marked(pempty) + {x};
  }

  lemma MarksSize(g: Grammar, pempty: seq<bool>)
    requires g.WellFormed() && NullSound(g, pempty)
    ensures |pempty| == g.nsyms && |g.rrhs| == g.nrules + 1
  {
  }

  lemma MarkSound(g: Grammar, pempty: seq<bool>, x: int)
    requires g.WellFormed() && NullSound(g, pempty) && 0 <= x < g.nsyms && pempty[x]
    ensures Derives(g, [x], [])
  {
  }

  lemma NotMarked(g: Grammar, pempty: seq<bool>, r: nat, d: nat)
    requires g.WellFormed() && NullSound(g, pempty) && 2 <= r < g.nrules && d < |g.Rhs(r)| && 0 <= g.Rhs(r)[d] < g.nsyms
    requires g.IsVar(g.Rhs(r)[d]) ==> !pempty[g.Rhs(r)[d]]
    ensures exists x :: x in g.Rhs(r) && x !in Marked(pempty)
  {
    hide Derives, Grammar.Rhs, Grammar.WellFormed;
    var x := g.Rhs(r)[d];
    if x < g.start {
      TokenStays(g, x);
    }
    assert x in g.Rhs(r) && x !in Marked(pempty);
  }

  /** Walk over marked nonterminals; at the end of the rule all its symbols are marked. */
  method WalkEmpty(g: Grammar, pempty: array<bool>, r: nat) returns (p: nat)
    requires g.WellFormed() && NullSound(g, pempty[..]) && 2 <= r < g.nrules
    ensures p < |g.ritem|
    ensures g.ritem[p] < 0 ==> forall x :: x in g.Rhs(r) ==> Derives(g, [x], [])
    ensures g.ritem[p] >= 0 ==> exists x :: x in g.Rhs(r) && x !in Marked(pempty[..])
  {
    hide Derives, NullSound, Grammar.WellFormed, Marked, Grammar.Rhs;
    MarksSize(g, pempty[..]);
    RuleEnd(g, r, 0);
    p := g.rrhs[r];
    ghost var d: nat := 0;
    while g.IsVar(g.ritem[p]) && pempty[g.ritem[p]]
      invariant p < |g.ritem| && p == g.rrhs[r] + d && d <= |g.Rhs(r)| && (g.ritem[p] >= 0 <==> d < |g.Rhs(r)|)
      invariant g.ritem[p] >= 0 ==> g.ritem[p] == g.Rhs(r)[d] < g.nsyms
      invariant forall i :: 0 <= i < d ==> Derives(g, [g.Rhs(r)[i]], [])
      decreases |g.Rhs(r)| - d
    {
      MarkSound(g, pempty[..], g.ritem[p]);
      RuleEnd(g, r, d + 1);
      p := p + 1;
      d := d + 1;
    }
    if g.ritem[p] >= 0 {
      NotMarked(g, pempty[..], r, d);
    }
  }

  // ---------------------------------------------------------------------
  // cpfir
  // ---------------------------------------------------------------------

  /** No set has a token that the nonterminal cannot begin with. */
  ghost predicate FirstSound(g: Grammar, p: seq<set<nat>>)
    requires g.WellFormed()
  {
    |p| == g.nsyms && forall x :: g.start <= x < g.nsyms ==> p[x] <= FirstOf(g, x)
  }

  /** The tokens that rule `r` shows directly are in the set of its left side. */
  ghost predicate TokensIn(g: Grammar, p: seq<set<nat>>, r: nat)
    requires g.WellFormed()
  {
    2 <= r < g.nrules && g.start <= g.rlhs[r] < |p| &&
    forall i :: 0 <= i < |g.Rhs(r)| && Vanishing(g, g.Rhs(r), i) && g.Rhs(r)[i] < g.start ==> g.Rhs(r)[i] in p[g.rlhs[r]]
  }

  /** So are the sets of the nonterminals that rule `r` shows. */
  ghost predicate VarsIn(g: Grammar, p: seq<set<nat>>, r: nat)
    requires g.WellFormed()
  {
    2 <= r < g.nrules && g.start <= g.rlhs[r] < |p| && |p| == g.nsyms &&
    forall i :: 0 <= i < |g.Rhs(r)| && Vanishing(g, g.Rhs(r), i) && g.start <= g.Rhs(r)[i] < g.nsyms ==>
      p[g.Rhs(r)[i]] <= p[g.rlhs[r]]
  }

  lemma AllIn(g: Grammar, p: seq<set<nat>>)
    requires g.WellFormed() && FirstSound(g, p) && forall r :: 2 <= r < g.nrules ==> TokensIn(g, p, r) && VarsIn(g, p, r)
    ensures forall x :: g.start <= x < g.nsyms ==> p[x] == FirstOf(g, x)
  {
    hide FirstOf, Vanishing;
    forall r, i: nat, t: nat | 2 <= r < g.nrules && g.start <= g.rlhs[r] < g.nsyms && t < g.start && Supplies(g, p, g.Rhs(r), i, t)
      ensures t in p[g.rlhs[r]]
    {
      assert TokensIn(g, p, r) && VarsIn(g, p, r);
    }
    forall x, t: nat | g.start <= x < g.nsyms && t in FirstOf(g, x) ensures t in p[x] {
      ClosedHasFirsts(g, p, x, t);
    }
  }

  lemma MoreTokens(g: Grammar, p: seq<set<nat>>, p': seq<set<nat>>, r: nat)
    requires g.WellFormed() && TokensIn(g, p, r) && Larger(p, p')
    ensures TokensIn(g, p', r)
  {
    hide Vanishing;
  }

  ghost predicate Larger(p: seq<set<nat>>, p': seq<set<nat>>) {
    |p'| == |p| && forall x :: 0 <= x < |p| ==> p[x] <= p'[x]
  }

  // How many tokens could still be added to some set.

  ghost function Tokens(n: nat): (s: set<nat>)
    ensures forall t: nat :: t in s <==> t < n
  {
    if n == 0 then {} else Tokens(n - 1) + {n - 1}
  }

  ghost function Room(n: nat, p: seq<set<nat>>): nat {
    if p == [] then 0 else Room(n, p[..|p| - 1]) + |Tokens(n) - p[|p| - 1]|
  }

  lemma {:induction false} RoomShrinks(n: nat, p: seq<set<nat>>, p': seq<set<nat>>)
    requires Larger(p, p')
    ensures Room(n, p') <= Room(n, p)
    ensures p != p' && (forall x, t :: 0 <= x < |p'| && t in p'[x] ==> t < n) ==> Room(n, p') < Room(n, p)
  {
    if p != [] {
      var k := |p| - 1;
      RoomShrinks(n, p[..k], p'[..k]);
      SubsetSize(Tokens(n) - p'[k], Tokens(n) - p[k]);
      assert p == p[..k] + [p[k]] && p' == p'[..k] + [p'[k]];
      if p[k] != p'[k] && forall x, t :: 0 <= x < |p'| && t in p'[x] ==> t < n {
        NewToken(n, p[k], p'[k]);
      }
    }
  }

  lemma NewToken(n: nat, a: set<nat>, b: set<nat>)
    requires a <= b && a != b && forall t :: t in b ==> t < n
    ensures Tokens(n) - b != Tokens(n) - a
  {
    var t :| t in b && t !in a;
    assert t in Tokens(n) - a && t !in Tokens(n) - b;
  }

  /** UNION: the union of two sets, and whether the second adds to the first. */
  method Union(b: set<nat>, c: set<nat>) returns (a: set<nat>, more: bool)
    ensures a == b + c && (more <==> !(c <= b))
  {
    a := b + c;
    more := a != b;
  }

  /** cpfir: the first tokens of every nonterminal. */
  method CpFir(g: Grammar, pempty: seq<bool>, pres: seq<seq<nat>>) returns (pfirst: seq<set<nat>>)
    requires g.WellFormed() && NullTable(g, pempty) && DerivesTable(g, pres)
    ensures |pfirst| == g.nsyms && forall x :: g.start <= x < g.nsyms ==> pfirst[x] == FirstOf(g, x)
  {
    var ws := new set<nat>[g.nsyms](_ => {});
    FillSets(g, pempty, pres, ws);
    var changes := true;
    while changes
      invariant FirstSound(g, ws[..]) && forall r :: 2 <= r < g.nrules ==> TokensIn(g, ws[..], r)
      invariant !changes ==> forall r :: 2 <= r < g.nrules ==> VarsIn(g, ws[..], r)
      decreases Room(g.start, ws[..]), changes
    {
      ghost var was := ws[..];
      changes := UnionRound(g, pempty, pres, ws);
      forall r | 2 <= r < g.nrules ensures TokensIn(g, ws[..], r) {
        MoreTokens(g, was, ws[..], r);
      }
    }
    AllIn(g, ws[..]);
    pfirst := ws[..];
  }

  /** Initially fill the sets. */
  method FillSets(g: Grammar, pempty: seq<bool>, pres: seq<seq<nat>>, ws: array<set<nat>>)
    requires g.WellFormed() && NullTable(g, pempty) && DerivesTable(g, pres)
    requires ws.Length == g.nsyms && forall x :: 0 <= x < ws.Length ==> ws[x] == {}
    modifies ws
    ensures FirstSound(g, ws[..]) && forall r :: 2 <= r < g.nrules ==> TokensIn(g, ws[..], r)
  {
    hide FirstSound, TokensIn;
    NothingFirst(g, ws[..]);
    for i := g.start to g.nsyms
      invariant FirstSound(g, ws[..]) && forall r :: 2 <= r < g.nrules && g.start <= g.rlhs[r] < i ==> TokensIn(g, ws[..], r)
    {
      for k := 0 to |pres[i]|
        invariant FirstSound(g, ws[..]) && forall r :: 2 <= r < g.nrules && g.start <= g.rlhs[r] < i ==> TokensIn(g, ws[..], r)
        invariant forall e :: 0 <= e < k ==> TokensIn(g, ws[..], pres[i][e])
      {
        assert pres[i][k] in pres[i];
        RuleRange(g, pres, i, pres[i][k]);
        ghost var was := ws[..];
        FillRule(g, pempty, ws, pres[i][k]);
        forall r | 2 <= r < g.nrules && TokensIn(g, was, r) ensures TokensIn(g, ws[..], r) {
          MoreTokens(g, was, ws[..], r);
        }
      }
      forall r | 2 <= r < g.nrules && g.rlhs[r] == i ensures TokensIn(g, ws[..], r) {
        assert r in pres[i];
      }
    }
    forall r | 2 <= r < g.nrules ensures TokensIn(g, ws[..], r) {
      g.GetRule(r);
    }
  }

  lemma NothingFirst(g: Grammar, p: seq<set<nat>>)
    requires g.WellFormed() && |p| == g.nsyms && forall x :: 0 <= x < |p| ==> p[x] == {}
    ensures FirstSound(g, p)
  {
  }

  /** The first token of rule `r`, behind nullable nonterminals. */
  method FillRule(g: Grammar, pempty: seq<bool>, ws: array<set<nat>>, r: nat)
    requires g.WellFormed() && NullTable(g, pempty) && ws.Length == g.nsyms && FirstSound(g, ws[..]) && 2 <= r < g.nrules
    modifies ws
    ensures FirstSound(g, ws[..]) && Larger(old(ws[..]), ws[..]) && TokensIn(g, ws[..], r)
  {
    hide FirstSound, TokensIn, ShownIn, Vanishing, Vanishes, NullTable, Begins, FirstOf;
    RuleShape(g, r);
    NoneYet(g, ws[..], r);
    var p := g.rrhs[r];
    while g.ritem[p] >= 0
      invariant g.rrhs[r] <= p <= g.rrhs[r] + |g.Rhs(r)| && ws[..] == old(ws[..]) && Vanishing(g, g.Rhs(r), p - g.rrhs[r])
      decreases |g.ritem| - p
    {
      var ch := g.ritem[p];
      ghost var d := p - g.rrhs[r];
      SymbolShape(g, r, d);
      if ch < g.start {
        var x := g.rlhs[r];
        TokenBegins(g, ch, ch);
        TokenStays(g, ch);
        FirstShown(g, r, d, ch);
        FirstBounds(g, ws[..], x);
        SoundStep(g, ws[..], x, ws[x] + {ch});
        ws[x] := ws[x] + {ch};
        OnlyToken(g, ws[..], r, d);
        return;
      }
      PemptyIs(g, pempty, ch);
      if !pempty[ch] {
        OnlyToken(g, ws[..], r, d);
        return;
      }
      VanishingStep(g, g.Rhs(r), d);
      p := p + 1;
    }
    ghost var d := p - g.rrhs[r];
    SymbolShape(g, r, d);
    OnlyToken(g, ws[..], r, d);
  }

  lemma FirstShown(g: Grammar, r: nat, d: nat, t: int)
    requires g.WellFormed() && 2 <= r < g.nrules && d < |g.Rhs(r)| && Vanishing(g, g.Rhs(r), d) && Begins(g, [g.Rhs(r)[d]], t)
    ensures Begins(g, [g.rlhs[r]], t)
  {
    BeginsAt(g, g.Rhs(r), d, t);
    RuleBegins(g, r, t);
  }

  /** Behind a symbol that does not vanish nothing is shown. */
  lemma OnlyToken(g: Grammar, p: seq<set<nat>>, r: nat, d: nat)
    requires g.WellFormed() && 2 <= r < g.nrules && g.start <= g.rlhs[r] < |p| && d <= |g.Rhs(r)| && Vanishing(g, g.Rhs(r), d)
    requires d < |g.Rhs(r)| ==> !Vanishes(g, g.Rhs(r)[d]) && (g.Rhs(r)[d] < g.start ==> g.Rhs(r)[d] in p[g.rlhs[r]])
    ensures TokensIn(g, p, r)
  {
    g.GetRule(r);
    forall i | 0 <= i < |g.Rhs(r)| && Vanishing(g, g.Rhs(r), i) && g.Rhs(r)[i] < g.start ensures g.Rhs(r)[i] in p[g.rlhs[r]] {
      if i < d {
        TokenStays(g, g.Rhs(r)[i]);
      }
    }
  }

  /** One round of the second part. */
  method UnionRound(g: Grammar, pempty: seq<bool>, pres: seq<seq<nat>>, ws: array<set<nat>>) returns (changes: bool)
    requires g.WellFormed() && NullTable(g, pempty) && DerivesTable(g, pres) && FirstSound(g, ws[..])
    modifies ws
    ensures FirstSound(g, ws[..]) && Larger(old(ws[..]), ws[..])
    ensures changes ==> Room(g.start, ws[..]) < old(Room(g.start, ws[..]))
    ensures !changes ==> ws[..] == old(ws[..]) && forall r :: 2 <= r < g.nrules ==> VarsIn(g, ws[..], r)
  {
    hide FirstSound, VarsIn;
    changes := false;
    for i := g.start to g.nsyms
      invariant FirstSound(g, ws[..]) && Larger(old(ws[..]), ws[..])
      invariant changes ==> Room(g.start, ws[..]) < old(Room(g.start, ws[..]))
      invariant !changes ==> ws[..] == old(ws[..]) && forall r :: 2 <= r < g.nrules && g.start <= g.rlhs[r] < i ==> VarsIn(g, ws[..], r)
    {
      for k := 0 to |pres[i]|
        invariant FirstSound(g, ws[..]) && Larger(old(ws[..]), ws[..])
        invariant changes ==> Room(g.start, ws[..]) < old(Room(g.start, ws[..]))
        invariant !changes ==> ws[..] == old(ws[..]) && forall r :: 2 <= r < g.nrules && g.start <= g.rlhs[r] < i ==> VarsIn(g, ws[..], r)
        invariant !changes ==> forall e :: 0 <= e < k ==> VarsIn(g, ws[..], pres[i][e])
      {
        assert pres[i][k] in pres[i];
        RuleRange(g, pres, i, pres[i][k]);
        var c := UnionRule(g, pempty, ws, pres[i][k]);
        changes := changes || c;
      }
      forall r | 2 <= r < g.nrules && g.rlhs[r] == i && !changes ensures VarsIn(g, ws[..], r) {
        assert r in pres[i];
      }
    }
    forall r | 2 <= r < g.nrules && !changes ensures VarsIn(g, ws[..], r) {
      g.GetRule(r);
    }
  }

  /** The sets of the nonterminals that rule `r` shows. */
  method UnionRule(g: Grammar, pempty: seq<bool>, ws: array<set<nat>>, r: nat) returns (changes: bool)
    requires g.WellFormed() && NullTable(g, pempty) && FirstSound(g, ws[..]) && 2 <= r < g.nrules
    modifies ws
    ensures FirstSound(g, ws[..]) && Larger(old(ws[..]), ws[..])
    ensures changes ==> Room(g.start, ws[..]) < old(Room(g.start, ws[..]))
    ensures !changes ==> ws[..] == old(ws[..]) && VarsIn(g, ws[..], r)
  {
    hide FirstSound, VarsIn, ShownIn, Vanishing, Vanishes, NullTable, Room;
    RuleShape(g, r);
    NoneYet(g, ws[..], r);
    changes := false;
    var p := g.rrhs[r];
    while g.IsVar(g.ritem[p])
      invariant g.rrhs[r] <= p <= g.rrhs[r] + |g.Rhs(r)| && Vanishing(g, g.Rhs(r), p - g.rrhs[r])
      invariant FirstSound(g, ws[..]) && Larger(old(ws[..]), ws[..])
      invariant Room(g.start, ws[..]) <= old(Room(g.start, ws[..]))
      invariant changes ==> Room(g.start, ws[..]) < old(Room(g.start, ws[..]))
      invariant !changes ==> ws[..] == old(ws[..]) && ShownIn(g, ws[..], r, p - g.rrhs[r])
      decreases |g.ritem| - p
    {
      var ch := g.ritem[p];
      ghost var d := p - g.rrhs[r];
      SymbolShape(g, r, d);
      var c := UnionVar(g, ws, r, d, ch);
      changes := changes || c;
      PemptyIs(g, pempty, ch);
      if !pempty[ch] {
        ShownAll(g, ws[..], r, d + 1);
        return;
      }
      VanishingStep(g, g.Rhs(r), d);
      p := p + 1;
    }
    ghost var d := p - g.rrhs[r];
    SymbolShape(g, r, d);
    ShownAll(g, ws[..], r, d);
  }

  lemma RuleShape(g: Grammar, r: nat)
    requires g.WellFormed() && 2 <= r < g.nrules
    ensures 0 <= g.rrhs[r] && g.rrhs[r] + |g.Rhs(r)| < |g.ritem| && g.start <= g.rlhs[r] < g.nsyms
  {
    g.GetRule(r);
  }

  /** Place `d` of rule `r` in the flat encoding. */
  lemma SymbolShape(g: Grammar, r: nat, d: nat)
    requires g.WellFormed() && 2 <= r < g.nrules && d <= |g.Rhs(r)|
    ensures 0 <= g.rrhs[r] + d < |g.ritem| && SymAt(g, g.rrhs[r] + d) == g.ritem[g.rrhs[r] + d]
    ensures d < |g.Rhs(r)| ==> 0 <= g.ritem[g.rrhs[r] + d] == g.Rhs(r)[d] < g.nsyms
    ensures d == |g.Rhs(r)| ==> g.ritem[g.rrhs[r] + d] == 0 - r && EndOf(g, r) == g.rrhs[r] + d
  {
    g.GetRule(r);
  }

  lemma NoneYet(g: Grammar, p: seq<set<nat>>, r: nat)
    requires g.WellFormed() && 2 <= r < g.nrules && FirstSound(g, p)
    ensures ShownIn(g, p, r, 0) && Vanishing(g, g.Rhs(r), 0)
  {
    g.GetRule(r);
  }

  lemma PemptyIs(g: Grammar, pempty: seq<bool>, x: int)
    requires g.WellFormed() && NullTable(g, pempty) && 0 <= x < g.nsyms
    ensures |pempty| == g.nsyms && (pempty[x] <==> Vanishes(g, x))
  {
  }

  lemma VanishingStep(g: Grammar, w: seq<int>, d: nat)
    requires g.WellFormed() && d < |w| && Vanishing(g, w, d) && Vanishes(g, w[d])
    ensures Vanishing(g, w, d + 1)
  {
  }

  /** The sets of the nonterminals among the first `d` symbols of rule `r`. */
  ghost predicate ShownIn(g: Grammar, p: seq<set<nat>>, r: nat, d: nat)
    requires g.WellFormed() && 2 <= r < g.nrules
  {
    |p| == g.nsyms && g.start <= g.rlhs[r] < |p| && d <= |g.Rhs(r)| &&
    forall i :: 0 <= i < d && g.start <= g.Rhs(r)[i] < g.nsyms ==> p[g.Rhs(r)[i]] <= p[g.rlhs[r]]
  }

  lemma ShownAll(g: Grammar, p: seq<set<nat>>, r: nat, d: nat)
    requires g.WellFormed() && 2 <= r < g.nrules && d <= |g.Rhs(r)|
    requires (d > 0 && !Vanishes(g, g.Rhs(r)[d - 1])) || d == |g.Rhs(r)| || g.Rhs(r)[d] < g.start
    ensures ShownIn(g, p, r, d) ==> VarsIn(g, p, r)
  {
    if d < |g.Rhs(r)| && g.Rhs(r)[d] < g.start {
      TokenStays(g, g.Rhs(r)[d]);
    }
  }

  method UnionVar(g: Grammar, ws: array<set<nat>>, r: nat, ghost d: nat, ch: int) returns (more: bool)
    requires g.WellFormed() && 2 <= r < g.nrules && FirstSound(g, ws[..]) && d < |g.Rhs(r)| && ch == g.Rhs(r)[d]
    requires g.start <= ch < g.nsyms && Vanishing(g, g.Rhs(r), d) && g.start <= g.rlhs[r] < g.nsyms
    modifies ws
    ensures FirstSound(g, ws[..]) && Larger(old(ws[..]), ws[..])
    ensures more ==> Room(g.start, ws[..]) < old(Room(g.start, ws[..]))
    ensures !more ==> ws[..] == old(ws[..]) && (ShownIn(g, ws[..], r, d) ==> ShownIn(g, ws[..], r, d + 1))
    ensures Room(g.start, ws[..]) <= old(Room(g.start, ws[..]))
  {
    hide FirstSound, ShownIn, Vanishing, Room, FirstOf;
    var x := g.rlhs[r];
    FirstBounds(g, ws[..], x);
    FirstBounds(g, ws[..], ch);
    VarFirsts(g, r, d);
    var a;
    a, more := Union(ws[x], ws[ch]);
    UnionMeasure(g, ws[..], ws[..][x := a], x, a);
    SoundStep(g, ws[..], x, a);
    ShownStep(g, ws[..], r, d);
    ws[x] := a;
  }

  lemma FirstBounds(g: Grammar, p: seq<set<nat>>, x: int)
    requires g.WellFormed() && FirstSound(g, p) && g.start <= x < g.nsyms
    ensures |p| == g.nsyms && p[x] <= FirstOf(g, x) && forall t :: t in FirstOf(g, x) ==> t < g.start
  {
  }

  lemma VarFirsts(g: Grammar, r: nat, d: nat)
    requires g.WellFormed() && 2 <= r < g.nrules && d < |g.Rhs(r)| && Vanishing(g, g.Rhs(r), d)
    ensures FirstOf(g, g.Rhs(r)[d]) <= FirstOf(g, g.rlhs[r])
  {
    forall t | t in FirstOf(g, g.Rhs(r)[d]) ensures t in FirstOf(g, g.rlhs[r]) {
      FirstShown(g, r, d, t);
    }
  }

  lemma SoundStep(g: Grammar, p: seq<set<nat>>, x: int, a: set<nat>)
    requires g.WellFormed() && FirstSound(g, p) && g.start <= x < g.nsyms && a <= FirstOf(g, x)
    ensures FirstSound(g, p[x := a])
  {
  }

  lemma ShownStep(g: Grammar, p: seq<set<nat>>, r: nat, d: nat)
    requires g.WellFormed() && 2 <= r < g.nrules && d < |g.Rhs(r)| && |p| == g.nsyms && g.start <= g.Rhs(r)[d] < g.nsyms
    ensures ShownIn(g, p, r, d) && p[g.Rhs(r)[d]] <= p[g.rlhs[r]] ==> ShownIn(g, p, r, d + 1)
  {
  }

  lemma UnionMeasure(g: Grammar, p: seq<set<nat>>, p': seq<set<nat>>, x: int, a: set<nat>)
    requires g.WellFormed() && 0 <= x < |p| && p' == p[x := a] && p[x] <= a && |p| == g.nsyms
    ensures Larger(p, p') && Room(g.start, p') <= Room(g.start, p)
    ensures p[x] != a && (forall t :: t in a ==> t < g.start) ==> Room(g.start, p') < Room(g.start, p)
  {
    hide Room;
    OneMore(g.start, p, x, a);
  }

  /** Adding tokens to one set. */
  lemma {:induction false} OneMore(n: nat, p: seq<set<nat>>, x: nat, a: set<nat>)
    requires x < |p| && p[x] <= a
    ensures Room(n, p[x := a]) <= Room(n, p)
    ensures p[x] != a && (forall t :: t in a ==> t < n) ==> Room(n, p[x := a]) < Room(n, p)
  {
    var k, q := |p| - 1, p[x := a];
    if x < k {
      OneMore(n, p[..k], x, a);
      assert q[..k] == p[..k][x := a];
    } else {
      assert q[..k] == p[..k];
      SubsetSize(Tokens(n) - a, Tokens(n) - p[x]);
      if p[x] != a && forall t :: t in a ==> t < n {
        var t :| t in a && t !in p[x];
        assert t in Tokens(n) - p[x] && t !in Tokens(n) - a;
      }
    }
  }
}
