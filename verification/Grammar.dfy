/** The packed grammar that byacc works on (byacc/reader.c, pack_grammar), what its
    rules derive, and the two tables that lr0.c computes from it first: the rules of
    each nonterminal and the nonterminals that derive the empty string. */
module Grammars {

  /** Symbols are numbered: tokens first, `0` being the end marker, then the
      nonterminals from `start` on, `start` itself being `$accept` and `start + 1`
      the goal.  Rule `r` is `ritem[rrhs[r]..]`, ended by `-r`; the rules proper are
      numbered from 2, and rule 2 is `$accept : goal $end`. */
  datatype Grammar = Grammar(start: nat, nsyms: nat, nrules: nat, ritem: seq<int>, rlhs: seq<int>, rrhs: seq<int>)
  {
    predicate IsVar(s: int) { s >= start }

    function Goal(): nat { start + 1 }

    ghost predicate RuleOK(r: int)
      requires 2 <= r < nrules && |rlhs| == nrules && |rrhs| == nrules + 1
    {
      1 <= rrhs[r] < rrhs[r + 1] <= |ritem| &&
      ritem[rrhs[r + 1] - 1] == -r &&
      (forall i :: rrhs[r] <= i < rrhs[r + 1] - 1 ==> 0 <= ritem[i] < nsyms && ritem[i] != start) &&
      (r > 2 ==>
         start < rlhs[r] < nsyms &&
         forall i :: rrhs[r] <= i < rrhs[r + 1] - 1 ==> ritem[i] > 0)
    }

    ghost predicate WellFormed()
    {
      2 <= start && start + 2 <= nsyms && 3 <= nrules &&
      |rlhs| == nrules && |rrhs| == nrules + 1 && 4 <= |ritem| &&
      ritem[0] == -1 && ritem[1] == Goal() && ritem[2] == 0 && ritem[3] == -2 &&
      rlhs[0] == 0 && rlhs[1] == 0 && rlhs[2] == start &&
      rrhs[2] == 1 && rrhs[3] == 4 && rrhs[nrules] == |ritem| &&
      RulesOK(nrules)
    }

    /** The rules below `k` are well formed. */
    ghost predicate RulesOK(k: int)
      requires |rlhs| == nrules && |rrhs| == nrules + 1 && k <= nrules
      decreases k
    {
      k <= 2 || (RulesOK(k - 1) && RuleOK(k - 1))
    }

    lemma {:induction false} GetRulesOK(k: int, r: int)
      requires |rlhs| == nrules && |rrhs| == nrules + 1 && 2 <= r < k <= nrules && RulesOK(k)
      ensures RuleOK(r)
      decreases k
    {
      if r < k - 1 {
        GetRulesOK(k - 1, r);
      }
    }

    lemma GetRule(r: int)
      requires WellFormed() && 2 <= r < nrules
      ensures RuleOK(r)
    {
      GetRulesOK(nrules, r);
    }

    /** The right side of rule `r`. */
    ghost function Rhs(r: nat): seq<int>
      requires WellFormed() && 2 <= r < nrules
    {
      GetRule(r);
      ritem[rrhs[r]..rrhs[r + 1] - 1]
    }
  }

  /** Where the right side of a rule ends in `ritem`. */
  lemma RuleEnd(g: Grammar, r: nat, d: nat)
    requires g.WellFormed() && 2 <= r < g.nrules && d <= |g.Rhs(r)|
    ensures 0 <= g.rrhs[r] + d < |g.ritem| && (g.ritem[g.rrhs[r] + d] >= 0 <==> d < |g.Rhs(r)|)
    ensures d < |g.Rhs(r)| ==> g.ritem[g.rrhs[r] + d] == g.Rhs(r)[d] < g.nsyms
  {
    g.GetRule(r);
  }

  /** The symbol after the dot of item `i`, or a negative number. */
  function SymAt(g: Grammar, i: int): int {
    if 0 <= i < |g.ritem| then g.ritem[i] else -1
  }

  /** The complete item of rule `r`. */
  function EndOf(g: Grammar, r: int): int {
    if 0 <= r && r + 1 < |g.rrhs| then g.rrhs[r + 1] - 1 else -1
  }

  /** `i` is a place for the dot in rule `r`. */
  ghost predicate ItemOf(g: Grammar, i: int, r: int)
    requires g.WellFormed()
  {
    2 <= r < g.nrules && g.rrhs[r] <= i < g.rrhs[r + 1]
  }

  lemma {:induction false} ItemExists(g: Grammar, i: int, k: nat) returns (r: nat)
    requires g.WellFormed() && 2 < k <= g.nrules && 1 <= i < g.rrhs[k]
    ensures ItemOf(g, i, r)
  {
    g.GetRule(k - 1);
    if g.rrhs[k - 1] <= i {
      r := k - 1;
    } else {
      r := ItemExists(g, i, k - 1);
    }
  }

  lemma {:induction false} RulesApart(g: Grammar, r: nat, q: nat)
    requires g.WellFormed() && 2 <= r < q <= g.nrules
    ensures g.rrhs[r] < g.rrhs[r + 1] <= g.rrhs[q]
  {
    g.GetRule(r);
    g.GetRule(q - 1);
    if r < q - 1 {
      RulesApart(g, r, q - 1);
    }
  }

  /** The items of a rule, as seen from its right side. */
  lemma ItemSymbol(g: Grammar, i: int, r: int)
    requires g.WellFormed() && ItemOf(g, i, r)
    ensures g.RuleOK(r) && 1 <= i < |g.ritem|
    ensures i < g.rrhs[r + 1] - 1 <==> g.ritem[i] >= 0
    ensures i == g.rrhs[r + 1] - 1 <==> g.ritem[i] == -r
    ensures g.ritem[i] >= 0 ==> g.ritem[i] < g.nsyms && g.ritem[i] != g.start && ItemOf(g, i + 1, r)
    ensures g.ritem[i] == 0 ==> i == 2
    ensures r == 2 <==> i <= 3
  {
    g.GetRule(r);
    if r > 2 {
      RulesApart(g, 2, r);
    }
  }

  // ---------------------------------------------------------------------
  // Derivations
  // ---------------------------------------------------------------------

  /** `b` is `a` with one occurrence of a nonterminal, at `i`, replaced by rule `r`. */
  ghost predicate Step(g: Grammar, a: seq<int>, b: seq<int>, i: nat, r: nat)
    requires g.WellFormed()
  {
    i < |a| && 2 <= r < g.nrules && a[i] == g.rlhs[r] && b == a[..i] + g.Rhs(r) + a[i + 1..]
  }

  ghost predicate DerivesIn(g: Grammar, a: seq<int>, b: seq<int>, n: nat)
    requires g.WellFormed()
    decreases n
  {
    if n == 0 then a == b
    else exists c: seq<int>, i: nat, r: nat :: Step(g, a, c, i, r) && DerivesIn(g, c, b, n - 1)
  }

  /** The grammar rewrites `a` to `b`. */
  ghost predicate Derives(g: Grammar, a: seq<int>, b: seq<int>)
    requires g.WellFormed()
  {
    exists n: nat :: DerivesIn(g, a, b, n)
  }

  lemma DerivesRefl(g: Grammar, a: seq<int>)
    requires g.WellFormed()
    ensures Derives(g, a, a)
  {
    assert DerivesIn(g, a, a, 0);
  }

  lemma DerivesStep(g: Grammar, a: seq<int>, c: seq<int>, b: seq<int>, i: nat, r: nat)
    requires g.WellFormed() && Step(g, a, c, i, r) && Derives(g, c, b)
    ensures Derives(g, a, b)
  {
    var n: nat :| DerivesIn(g, c, b, n);
    assert DerivesIn(g, a, b, n + 1);
  }

  lemma {:induction false} DerivesInContext(g: Grammar, p: seq<int>, a: seq<int>, b: seq<int>, s: seq<int>, n: nat)
    requires g.WellFormed() && DerivesIn(g, a, b, n)
    ensures DerivesIn(g, p + a + s, p + b + s, n)
    decreases n
  {
    if n > 0 {
      var c: seq<int>, i: nat, r: nat :| Step(g, a, c, i, r) && DerivesIn(g, c, b, n - 1);
      DerivesInContext(g, p, c, b, s, n - 1);
      StepInContext(g, p, a, c, s, i, r);
    }
  }

  lemma StepInContext(g: Grammar, p: seq<int>, a: seq<int>, c: seq<int>, s: seq<int>, i: nat, r: nat)
    requires g.WellFormed() && Step(g, a, c, i, r)
    ensures Step(g, p + a + s, p + c + s, |p| + i, r)
  {
    var x := p + a + s;
    assert x[..|p| + i] == p + a[..i];
    assert x[|p| + i + 1..] == a[i + 1..] + s;
    assert p + c + s == x[..|p| + i] + g.Rhs(r) + x[|p| + i + 1..];
  }

  lemma DerivesContext(g: Grammar, p: seq<int>, a: seq<int>, b: seq<int>, s: seq<int>)
    requires g.WellFormed() && Derives(g, a, b)
    ensures Derives(g, p + a + s, p + b + s)
  {
    var n: nat :| DerivesIn(g, a, b, n);
    DerivesInContext(g, p, a, b, s, n);
  }

  lemma {:induction false} DerivesInTrans(g: Grammar, a: seq<int>, b: seq<int>, c: seq<int>, m: nat)
    requires g.WellFormed() && DerivesIn(g, a, b, m) && Derives(g, b, c)
    ensures Derives(g, a, c)
    decreases m
  {
    if m > 0 {
      var d: seq<int>, i: nat, r: nat :| Step(g, a, d, i, r) && DerivesIn(g, d, b, m - 1);
      DerivesInTrans(g, d, b, c, m - 1);
      DerivesStep(g, a, d, c, i, r);
    }
  }

  /** What two strings derive together is what they derive one after the other. */
  lemma {:induction false} DerivesInSplit(g: Grammar, u: seq<int>, v: seq<int>, w: seq<int>, n: nat) returns (w1: seq<int>, w2: seq<int>)
    requires g.WellFormed() && DerivesIn(g, u + v, w, n)
    ensures w == w1 + w2 && Derives(g, u, w1) && Derives(g, v, w2)
    decreases n
  {
    hide Grammar.WellFormed, Grammar.Rhs;
    if n == 0 {
      DerivesRefl(g, u);
      DerivesRefl(g, v);
      return u, v;
    }
    var c: seq<int>, i: nat, r: nat :| Step(g, u + v, c, i, r) && DerivesIn(g, c, w, n - 1);
    if i < |u| {
      var u' := StepLeft(g, u, v, c, i, r);
      w1, w2 := DerivesInSplit(g, u', v, w, n - 1);
      DerivesStep(g, u, u', w1, i, r);
    } else {
      var v' := StepRight(g, u, v, c, i, r);
      w1, w2 := DerivesInSplit(g, u, v', w, n - 1);
      DerivesStep(g, v, v', w2, i - |u|, r);
    }
  }

  lemma StepLeft(g: Grammar, u: seq<int>, v: seq<int>, c: seq<int>, i: nat, r: nat) returns (u': seq<int>)
    requires g.WellFormed() && Step(g, u + v, c, i, r) && i < |u|
    ensures Step(g, u, u', i, r) && c == u' + v
  {
    hide Grammar.Rhs, Grammar.WellFormed;
    u' := u[..i] + g.Rhs(r) + u[i + 1..];
    assert (u + v)[..i] == u[..i] && (u + v)[i + 1..] == u[i + 1..] + v;
  }

  lemma StepRight(g: Grammar, u: seq<int>, v: seq<int>, c: seq<int>, i: nat, r: nat) returns (v': seq<int>)
    requires g.WellFormed() && Step(g, u + v, c, i, r) && i >= |u|
    ensures Step(g, v, v', i - |u|, r) && c == u + v'
  {
    hide Grammar.Rhs, Grammar.WellFormed;
    var j := i - |u|;
    v' := v[..j] + g.Rhs(r) + v[j + 1..];
    assert (u + v)[..i] == u + v[..j] && (u + v)[i + 1..] == v[j + 1..];
  }

  lemma DerivesSplit(g: Grammar, u: seq<int>, v: seq<int>, w: seq<int>) returns (w1: seq<int>, w2: seq<int>)
    requires g.WellFormed() && Derives(g, u + v, w)
    ensures w == w1 + w2 && Derives(g, u, w1) && Derives(g, v, w2)
  {
    var n: nat :| DerivesIn(g, u + v, w, n);
    w1, w2 := DerivesInSplit(g, u, v, w, n);
  }

  /** Undoing a reduction: `p + [lhs]` derives whatever `p + rhs` derives. */
  lemma DerivesReduce(g: Grammar, p: seq<int>, r: nat, b: seq<int>)
    requires g.WellFormed() && 2 <= r < g.nrules && Derives(g, p + g.Rhs(r), b)
    ensures Derives(g, p + [g.rlhs[r]], b)
  {
    var a := p + [g.rlhs[r]];
    assert a[..|p|] == p && a[|p| + 1..] == [];
    assert p + g.Rhs(r) == a[..|p|] + g.Rhs(r) + a[|p| + 1..];
    DerivesStep(g, a, p + g.Rhs(r), b, |p|, r);
  }

  // ---------------------------------------------------------------------
  // The rules of each nonterminal
  // ---------------------------------------------------------------------

  /** `d[a]` lists the rules with left side `a`, in ascending order. */
  ghost predicate DerivesTable(g: Grammar, d: seq<seq<nat>>)
    requires g.WellFormed()
  {
    |d| == g.nsyms && forall a :: g.start <= a < g.nsyms ==> RuleList(g, a, d[a], g.nrules)
  }

  ghost predicate RuleList(g: Grammar, a: int, l: seq<nat>, k: nat)
    requires g.WellFormed() && k <= g.nrules
  {
    (forall r :: r in l <==> 0 <= r < k && g.rlhs[r] == a) &&
    forall x, y :: 0 <= x < y < |l| ==> l[x] < l[y]
  }

  /** lr0.c set_derives */
  method SetDerives(g: Grammar) returns (d: seq<seq<nat>>)
    requires g.WellFormed()
    ensures DerivesTable(g, d)
  {
    d := seq(g.start, i => []);
    for lhs := g.start to g.nsyms
      invariant |d| == lhs
      invariant forall a :: g.start <= a < lhs ==> RuleList(g, a, d[a], g.nrules)
    {
      var rules: seq<nat> := [];
      for i := 0 to g.nrules
        invariant RuleList(g, lhs, rules, i)
      {
        ghost var shorter := rules;
        if g.rlhs[i] == lhs {
          rules := rules + [i];
          assert forall r :: r in rules <==> r in shorter || r == i;
          assert forall x :: 0 <= x < |shorter| ==> shorter[x] in shorter;
        }
      }
      d := d + [rules];
    }
  }

  lemma RuleRange(g: Grammar, d: seq<seq<nat>>, a: int, r: nat)
    requires g.WellFormed() && DerivesTable(g, d) && g.start <= a < g.nsyms && r in d[a]
    ensures 2 <= r < g.nrules && g.rlhs[r] == a && g.RuleOK(r)
    ensures a == g.start <==> r == 2
  {
    assert r != 0 && r != 1;
    g.GetRule(r);
  }

  // ---------------------------------------------------------------------
  // Nullable nonterminals
  // ---------------------------------------------------------------------

  /** Every rule whose right side lies in `s` has its left side in `s`. */
  ghost predicate NullClosed(g: Grammar, s: set<int>)
    requires g.WellFormed()
  {
    forall r :: 2 <= r < g.nrules && (forall x :: x in g.Rhs(r) ==> x in s) ==> g.rlhs[r] in s
  }

  /** Only symbols of a closed set can vanish. */
  lemma {:induction false} VanishesInside(g: Grammar, s: set<int>, a: seq<int>, n: nat)
    requires g.WellFormed() && NullClosed(g, s) && DerivesIn(g, a, [], n)
    ensures forall x :: x in a ==> x in s
    decreases n
  {
    if n > 0 {
      var c: seq<int>, i: nat, r: nat :| Step(g, a, c, i, r) && DerivesIn(g, c, [], n - 1);
      VanishesInside(g, s, c, n - 1);
      forall x | x in g.Rhs(r) ensures x in s {
        assert x in c;
      }
      forall x | x in a ensures x in s {
        var k :| 0 <= k < |a| && a[k] == x;
        if k < i {
          assert x == a[..i][k] && x in c;
        } else if k > i {
          assert x == a[i + 1..][k - i - 1] && x in c;
        }
      }
    }
  }

  /** A string of vanishing symbols vanishes. */
  lemma {:induction false} AllVanish(g: Grammar, a: seq<int>)
    requires g.WellFormed() && forall x :: x in a ==> Derives(g, [x], [])
    ensures Derives(g, a, [])
  {
    if a == [] {
      DerivesRefl(g, a);
    } else {
      AllVanish(g, a[1..]);
      var x := a[0];
      assert x in a;
      assert Derives(g, [x], []);
      DerivesContext(g, [], [x], [], a[1..]);
      assert [] + [x] + a[1..] == a && [] + [] + a[1..] == a[1..];
      var n: nat :| DerivesIn(g, a, a[1..], n);
      DerivesInTrans(g, a, a[1..], [], n);
    }
  }

  lemma RuleVanishes(g: Grammar, r: nat)
    requires g.WellFormed() && 2 <= r < g.nrules
    requires forall x :: x in g.Rhs(r) ==> Derives(g, [x], [])
    ensures Derives(g, [g.rlhs[r]], [])
  {
    AllVanish(g, g.Rhs(r));
    assert [] + g.Rhs(r) == g.Rhs(r) && [] + [g.rlhs[r]] == [g.rlhs[r]];
    DerivesReduce(g, [], r, []);
  }

  ghost function Marked(nullable: seq<bool>): (s: set<int>)
    ensures forall x :: x in s <==> 0 <= x < |nullable| && nullable[x]
  {
    set x | 0 <= x < |nullable| && nullable[x]
  }

  ghost predicate NullSound(g: Grammar, nullable: seq<bool>)
    requires g.WellFormed()
  {
    |nullable| == g.nsyms && forall x :: 0 <= x < g.nsyms && nullable[x] ==> Derives(g, [x], [])
  }

  /** `nullable[x]` says whether symbol `x` derives the empty string. */
  ghost predicate NullTable(g: Grammar, nullable: seq<bool>)
    requires g.WellFormed()
  {
    |nullable| == g.nsyms && forall x :: 0 <= x < g.nsyms ==> (nullable[x] <==> Derives(g, [x], []))
  }

  lemma NullComplete(g: Grammar, nullable: seq<bool>)
    requires g.WellFormed() && NullSound(g, nullable) && NullClosed(g, Marked(nullable))
    ensures NullTable(g, nullable)
  {
    forall x | 0 <= x < g.nsyms && Derives(g, [x], []) ensures nullable[x] {
      var n: nat :| DerivesIn(g, [x], [], n);
      VanishesInside(g, Marked(nullable), [x], n);
      assert x in [x];
    }
  }

  /** lr0.c set_nullable: rounds over the items until no rule marks a new symbol. */
  method SetNullable(g: Grammar) returns (nullable: array<bool>)
    requires g.WellFormed()
    ensures fresh(nullable) && NullTable(g, nullable[..])
  {
    nullable := new bool[g.nsyms](_ => false);
    var done := false;
    while !done
      invariant NullSound(g, nullable[..])
      invariant done ==> NullClosed(g, Marked(nullable[..]))
      decreases g.nsyms - |Marked(nullable[..])|, !done
    {
      MarkedBound(nullable[..]);
      done := NullableRound(g, nullable);
    }
    NullComplete(g, nullable[..]);
  }

  ghost function UpTo(n: nat): (s: set<int>)
    ensures forall x :: x in s <==> 0 <= x < n
    ensures |s| == n
  {
    if n == 0 then {} else UpTo(n - 1) + {n - 1}
  }

  lemma MarkedBound(s: seq<bool>)
    ensures |Marked(s)| <= |s|
  {
    SubsetSize(Marked(s), UpTo(|s|));
  }

  lemma {:induction false} SubsetSize<T>(a: set<T>, b: set<T>)
    requires a <= b
    ensures |a| <= |b|
    ensures a != b ==> |a| < |b|
  {
    if a != {} {
      var x :| x in a;
      SubsetSize(a - {x}, b - {x});
    } else if b != {} {
      assert |b| > 0;
    }
  }

  /** One round; `done` says that nothing changed. */
  method NullableRound(g: Grammar, nullable: array<bool>) returns (done: bool)
    requires g.WellFormed() && NullSound(g, nullable[..])
    modifies nullable
    ensures NullSound(g, nullable[..])
    ensures Marked(old(nullable[..])) <= Marked(nullable[..])
    ensures done ==> nullable[..] == old(nullable[..]) && NullClosed(g, Marked(nullable[..]))
    ensures !done ==> |Marked(old(nullable[..]))| < |Marked(nullable[..])|
  {
    done := true;
    var i := 1;
    ghost var r := 2;
    while i < |g.ritem|
      invariant 2 <= r <= g.nrules && i == g.rrhs[r]
      invariant NullSound(g, nullable[..])
      invariant Marked(old(nullable[..])) <= Marked(nullable[..])
      invariant done ==> nullable[..] == old(nullable[..])
      invariant !done ==> Marked(old(nullable[..])) != Marked(nullable[..])
      invariant done ==> forall q :: 2 <= q < r && (forall x :: x in g.Rhs(q) ==> x in Marked(nullable[..])) ==>
                  g.rlhs[q] in Marked(nullable[..])
      decreases |g.ritem| - i
    {
      g.GetRule(r);
      var empty, j;
      empty, i, j := SkipRule(g, nullable, i, r);
      if empty {
        j := g.rlhs[-j];
        if !nullable[j] {
          RuleVanishes(g, r);
          ghost var before := nullable[..];
          nullable[j] := true;
          assert Marked(nullable[..]) == Marked(before) + {j};
          done := false;
        }
      }
      i := i + 1;
      r := r + 1;
    }
    if r < g.nrules { g.GetRule(r); }
    SubsetSize(Marked(old(nullable[..])), Marked(nullable[..]));
  }

  /** Walk to the end of rule `r`; `empty` says that all its symbols are marked. */
  method SkipRule(g: Grammar, nullable: array<bool>, first: int, ghost r: int) returns (empty: bool, i: int, j: int)
    requires g.WellFormed() && 2 <= r < g.nrules && first == g.rrhs[r] && nullable.Length == g.nsyms
    ensures i == g.rrhs[r + 1] - 1 && j == -r && g.start <= g.rlhs[r] < g.nsyms
    ensures empty <==> forall x :: x in g.Rhs(r) ==> x in Marked(nullable[..])
  {
    g.GetRule(r);
    empty := true;
    i := first;
    j := g.ritem[i];
    while j >= 0
      invariant first <= i < g.rrhs[r + 1] && j == g.ritem[i]
      invariant empty <==> forall k :: first <= k < i ==> nullable[g.ritem[k]]
      decreases g.rrhs[r + 1] - i
    {
      if !nullable[j] {
        empty := false;
      }
      i := i + 1;
      j := g.ritem[i];
    }
    ItemSymbol(g, i, r);
    RuleIsEmpty(g, nullable[..], r, empty);
  }

  lemma RuleIsEmpty(g: Grammar, nullable: seq<bool>, r: nat, empty: bool)
    requires g.WellFormed() && 2 <= r < g.nrules && |nullable| == g.nsyms
    requires g.RuleOK(r)
    requires empty <==> forall k :: g.rrhs[r] <= k < g.rrhs[r + 1] - 1 ==> nullable[g.ritem[k]]
    ensures empty <==> forall x :: x in g.Rhs(r) ==> x in Marked(nullable)
  {
    var rhs := g.Rhs(r);
    forall k | g.rrhs[r] <= k < g.rrhs[r + 1] - 1 ensures g.ritem[k] in rhs {
      assert rhs[k - g.rrhs[r]] == g.ritem[k];
    }
  }
}
