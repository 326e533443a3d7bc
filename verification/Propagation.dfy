/** What LALR(1) lookahead sets are, said without either of the two generators: every
    set forced by carrying lookaheads from item to item through the canonical
    collection until nothing changes. */
module Propagation {
  import opened Grammars
  import opened Closures
  import opened LR0
  import opened Firsts

  // ---------------------------------------------------------------------
  // What an item passes on
  // ---------------------------------------------------------------------

  /** The symbols of the flat encoding from `y` up to `z` vanish. */
  ghost predicate Passes(g: Grammar, y: int, z: int)
    requires g.WellFormed()
  {
    y <= z && forall i :: y <= i < z ==> Vanishes(g, SymAt(g, i))
  }

  /** What follows at `y`, up to the end of the rule, can begin with token `t`. */
  ghost predicate FirstAt(g: Grammar, y: int, t: int)
    requires g.WellFormed()
  {
    exists z :: Passes(g, y, z) && Begins(g, [SymAt(g, z)], t)
  }

  /** What follows at `y` can be empty. */
  ghost predicate EmptyAt(g: Grammar, y: int)
    requires g.WellFormed()
  {
    exists z :: Passes(g, y, z) && SymAt(g, z) < 0
  }

  ghost function FirstTokens(g: Grammar, y: int): (c: set<nat>)
    requires g.WellFormed()
    ensures forall t: nat :: t in c <==> FirstAt(g, y, t)
  {
    set t: nat | t < g.start && FirstAt(g, y, t)
  }

  /** What item `x` with lookahead `s` passes on to the rules it calls for. */
  ghost function Contribution(g: Grammar, x: int, s: set<nat>): (c: set<nat>)
    requires g.WellFormed()
    ensures forall t: nat :: t in c <==> FirstAt(g, x + 1, t) || (EmptyAt(g, x + 1) && t in s)
  {
    FirstTokens(g, x + 1) + (if EmptyAt(g, x + 1) then s else {})
  }

  lemma ContributionGrows(g: Grammar, x: int, s: set<nat>, s': set<nat>)
    requires g.WellFormed() && s <= s'
    ensures Contribution(g, x, s) <= Contribution(g, x, s')
  {
  }

  lemma ContributionTokens(g: Grammar, x: int, s: set<nat>)
    requires g.WellFormed() && forall t :: t in s ==> t < g.start
    ensures forall t :: t in Contribution(g, x, s) ==> t < g.start
  {
  }

  /** Rule `r` has the symbol after the dot of `x` as its left side. */
  ghost predicate CallsFor(g: Grammar, x: int, r: int)
    requires g.WellFormed()
  {
    2 <= r < g.nrules && g.rlhs[r] == SymAt(g, x) && g.start <= g.rlhs[r]
  }

  /** Within one closure: items pass on to the rules they call for. */
  ghost predicate LocalClosed(g: Grammar, k: seq<int>, m: int -> set<nat>)
    requires g.WellFormed()
  {
    forall x, r :: InClosure(g, k, x) && CallsFor(g, x, r) ==> Contribution(g, x, m(x)) <= m(g.rrhs[r])
  }

  // ---------------------------------------------------------------------
  // The canonical collection as a set of kernels, and propagation through it
  // ---------------------------------------------------------------------

  ghost predicate CanonicalIn(g: Grammar, k: seq<int>, n: nat)
    requires g.WellFormed()
    decreases n
  {
    if n == 0 then k == [1]
    else exists p: seq<int>, x: int :: CanonicalIn(g, p, n - 1) && x > 0 && GotoKernel(g, p, x, k)
  }

  /** `k` is the kernel of a state of the canonical collection. */
  ghost predicate Canonical(g: Grammar, k: seq<int>)
    requires g.WellFormed()
  {
    exists n: nat :: CanonicalIn(g, k, n)
  }

  /** A lookahead set for every item of the closure of every kernel. */
  type Assignment = (seq<int>, int) -> set<nat>

  ghost function Part(m: Assignment, k: seq<int>): int -> set<nat> {
    x => m(k, x)
  }

  ghost predicate Moves(g: Grammar, k: seq<int>, x: int, t: seq<int>)
    requires g.WellFormed()
  {
    InClosure(g, k, x) && SymAt(g, x) > 0 && GotoKernel(g, k, SymAt(g, x), t)
  }

  /** Lookaheads pass on within closures and along transitions. */
  ghost predicate SpreadsFrom(g: Grammar, m: Assignment, k: seq<int>)
    requires g.WellFormed()
  {
    LocalClosed(g, k, Part(m, k)) && forall x, t :: Moves(g, k, x, t) ==> m(k, x) <= m(t, x + 1)
  }

  ghost predicate Spreads(g: Grammar, m: Assignment)
    requires g.WellFormed()
  {
    forall k :: Canonical(g, k) ==> SpreadsFrom(g, m, k)
  }

  /** Token `t` is a lookahead of item `x` in the state with kernel `k` in every
      assignment that spreads: the least one. */
  ghost predicate Forced(g: Grammar, k: seq<int>, x: int, t: nat)
    requires g.WellFormed()
  {
    forall m: Assignment :: Spreads(g, m) ==> t in m(k, x)
  }

  lemma StartCanonical(g: Grammar)
    requires g.WellFormed()
    ensures Canonical(g, [1])
  {
    assert CanonicalIn(g, [1], 0);
  }

  lemma GotoCanonical(g: Grammar, k: seq<int>, x: int, t: seq<int>)
    requires g.WellFormed() && Canonical(g, k) && x > 0 && GotoKernel(g, k, x, t)
    ensures Canonical(g, t)
  {
    var n: nat :| CanonicalIn(g, k, n);
    assert CanonicalIn(g, t, n + 1);
  }

  lemma CanonicalKernel(g: Grammar, k: seq<int>)
    requires g.WellFormed() && Canonical(g, k)
    ensures Kernel(g, k) && k != []
  {
    var n: nat :| CanonicalIn(g, k, n);
    if n > 0 {
      var p: seq<int>, x: int :| CanonicalIn(g, p, n - 1) && x > 0 && GotoKernel(g, p, x, k);
    }
  }

  /** The kernel entered over a symbol is unique. */
  lemma GotoUnique(g: Grammar, k: seq<int>, x: int, s: seq<int>, t: seq<int>)
    requires g.WellFormed() && GotoKernel(g, k, x, s) && GotoKernel(g, k, x, t)
    ensures s == t
  {
    AscendingUnique(s, t);
  }

  /** No kernel item is the first item of a rule, apart from that of `$accept`. */
  lemma KernelNotStart(g: Grammar, k: seq<int>, y: int, r: nat)
    requires g.WellFormed() && Canonical(g, k) && y in k && 2 < r < g.nrules
    ensures y != g.rrhs[r]
  {
    var n: nat :| CanonicalIn(g, k, n);
    g.GetRule(r - 1);
    RulesApart(g, 2, r);
    if n > 0 {
      var p: seq<int>, x: int :| CanonicalIn(g, p, n - 1) && x > 0 && GotoKernel(g, p, x, k);
      assert MovedOver(g, p, x, y);
    }
  }
}
