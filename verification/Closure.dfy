/** byacc/closure.c: the closure of a set of items, computed from bit rows that say
    for each nonterminal which rules can start what it derives. */
module Closures {
  import opened Bits
  import opened Graph
  import opened Grammars
  import Warshall

  // ---------------------------------------------------------------------
  // What a closure is
  // ---------------------------------------------------------------------

  ghost predicate Ascending(s: seq<int>) {
    forall i, j :: 0 <= i < j < |s| ==> s[i] < s[j]
  }

  /** Nonterminals are numbered from 0 here.  Some rule of nonterminal `v` has
      nonterminal `b` as its first symbol. */
  ghost predicate LeadsTo(g: Grammar, v: nat, b: nat)
    requires g.WellFormed()
  {
    exists r :: 2 <= r < g.nrules && g.rlhs[r] == v + g.start && FirstSymbol(g, r) == b + g.start
  }

  /** The symbol at the start of rule `r`, or the negative end mark. */
  function FirstSymbol(g: Grammar, r: int): int {
    if 0 <= r < |g.rrhs| && 0 <= g.rrhs[r] < |g.ritem| then g.ritem[g.rrhs[r]] else -1
  }

  ghost function LeadsFrom(g: Grammar, v: nat): (s: set<nat>)
    requires g.WellFormed()
  {
    set b: nat | b < NVars(g) && LeadsTo(g, v, b)
  }

  ghost function Leads(g: Grammar): (r: Relation)
    requires g.WellFormed()
    ensures |r| == NVars(g)
  {
    seq(NVars(g), v requires 0 <= v => LeadsFrom(g, v))
  }

  function NVars(g: Grammar): nat
    requires g.WellFormed()
  {
    g.nsyms - g.start
  }

  /** Rule `r` can be the first rule applied at the left end of nonterminal `a`. */
  ghost predicate StartsIn(g: Grammar, a: int, r: int)
    requires g.WellFormed()
  {
    2 <= r < g.nrules && g.start <= a < g.nsyms && g.start <= g.rlhs[r] &&
    Reach(Leads(g), a - g.start, g.rlhs[r] - g.start)
  }

  ghost predicate IsItem(g: Grammar, i: int) { 1 <= i < |g.ritem| }

  ghost predicate Kernel(g: Grammar, k: seq<int>) {
    Ascending(k) && forall i :: i in k ==> IsItem(g, i)
  }

  /** Item `x` is in the kernel or starts a rule that some kernel item calls for. */
  ghost predicate InClosure(g: Grammar, k: seq<int>, x: int)
    requires g.WellFormed()
  {
    x in k || exists i, r :: i in k && StartsIn(g, SymAt(g, i), r) && x == g.rrhs[r]
  }

  ghost predicate IsClosure(g: Grammar, k: seq<int>, s: seq<int>)
    requires g.WellFormed()
  {
    Ascending(s) && forall x :: x in s <==> InClosure(g, k, x)
  }

  // ---------------------------------------------------------------------
  // The closure under expansion of the symbol after the dot
  // ---------------------------------------------------------------------

  lemma VarRange(g: Grammar, i: int)
    requires g.WellFormed() && IsItem(g, i) && g.IsVar(g.ritem[i])
    ensures g.start < g.ritem[i] < g.nsyms
  {
    var r := ItemExists(g, i, g.nrules);
    ItemSymbol(g, i, r);
  }

  lemma RuleStart(g: Grammar, r: int)
    requires g.WellFormed() && 2 <= r < g.nrules
    ensures IsItem(g, g.rrhs[r]) && g.RuleOK(r) && g.start <= g.rlhs[r] < g.nsyms
  {
    g.GetRule(r);
  }

  /** A closure holds the first item of every rule of a nonterminal after a dot. */
  lemma ClosureExpands(g: Grammar, k: seq<int>, x: int, r: int)
    requires g.WellFormed() && Kernel(g, k) && InClosure(g, k, x) && IsItem(g, x)
    requires 2 <= r < g.nrules && g.rlhs[r] == g.ritem[x]
    ensures InClosure(g, k, g.rrhs[r])
  {
    RuleStart(g, r);
    if x in k {
      ReachRefl(Leads(g), g.ritem[x] - g.start);
      assert StartsIn(g, SymAt(g, x), r);
    } else {
      var i, q :| i in k && StartsIn(g, SymAt(g, i), q) && x == g.rrhs[q];
      StartsInExpands(g, g.ritem[i], q, r);
    }
  }

  lemma StartsInExpands(g: Grammar, a: int, q: int, r: int)
    requires g.WellFormed() && StartsIn(g, a, q)
    requires 2 <= r < g.nrules && g.rlhs[r] == FirstSymbol(g, q) && g.start <= g.rlhs[r] < g.nsyms
    ensures StartsIn(g, a, r)
  {
    RuleStart(g, q);
    var b, c := g.rlhs[q] - g.start, g.rlhs[r] - g.start;
    assert LeadsTo(g, b, c);
    ReachRefl(Leads(g), c);
    ReachEdge(Leads(g), b, c, c);
    ReachTrans(Leads(g), a - g.start, b, c);
  }

  /** An item that is not in the kernel was called for by an item of the closure. */
  lemma ClosureCalledFor(g: Grammar, k: seq<int>, x: int) returns (y: int, r: int)
    requires g.WellFormed() && Kernel(g, k) && InClosure(g, k, x) && x !in k
    ensures IsItem(g, y) && InClosure(g, k, y) && 2 <= r < g.nrules && x == g.rrhs[r]
    ensures g.ritem[y] == g.rlhs[r]
  {
    var i;
    i, r :| i in k && StartsIn(g, SymAt(g, i), r) && x == g.rrhs[r];
    RuleStart(g, r);
    var n: nat :| Walk(Leads(g), g.ritem[i] - g.start, g.rlhs[r] - g.start, n);
    y := CalledForAlongWalk(g, k, i, g.rlhs[r], n);
  }

  lemma {:induction false} CalledForAlongWalk(g: Grammar, k: seq<int>, i: int, a: int, n: nat) returns (y: int)
    requires g.WellFormed() && Kernel(g, k) && i in k && g.start <= g.ritem[i] && g.start <= a
    requires Walk(Leads(g), g.ritem[i] - g.start, a - g.start, n)
    ensures IsItem(g, y) && InClosure(g, k, y) && g.ritem[y] == a
    decreases n
  {
    if n == 0 {
      y := i;
    } else {
      var b := WalkLast(Leads(g), g.ritem[i] - g.start, a - g.start, n);
      assert LeadsTo(g, b, a - g.start);
      var q :| 2 <= q < g.nrules && g.rlhs[q] == b + g.start && FirstSymbol(g, q) == a;
      RuleStart(g, q);
      VarRange(g, i);
      assert StartsIn(g, SymAt(g, i), q);
      y := g.rrhs[q];
    }
  }

  /** The last edge of a walk. */
  lemma {:induction false} WalkLast(r: Relation, i: nat, j: nat, n: nat) returns (b: nat)
    requires n > 0 && Walk(r, i, j, n)
    ensures b < |r| && Reach(r, i, b) && j in r[b]
    decreases n
  {
    var k: nat :| k in r[i] && Walk(r, k, j, n - 1);
    if n == 1 {
      b := i;
      ReachRefl(r, i);
    } else {
      b := WalkLast(r, k, j, n - 1);
      ReachEdge(r, i, k, b);
    }
  }

  lemma HasMember(t: seq<int>) returns (x: int)
    requires t != []
    ensures x in t
  {
    x := t[0];
  }

  /** Closures have one sorted form. */
  lemma {:induction false} AscendingUnique(s: seq<int>, t: seq<int>)
    requires Ascending(s) && Ascending(t) && forall x :: x in s <==> x in t
    ensures s == t
  {
    if s == [] {
      if t != [] { var x := HasMember(t); }
    } else {
      assert s[0] in t && t != [] && t[0] in s;
      assert s[0] == t[0];
      forall x ensures x in s[1..] <==> x in t[1..] {
        assert x in s[1..] <==> x in s && x != s[0] by { assert s == [s[0]] + s[1..]; }
        assert x in t[1..] <==> x in t && x != t[0] by { assert t == [t[0]] + t[1..]; }
      }
      AscendingUnique(s[1..], t[1..]);
      assert s == [s[0]] + s[1..] && t == [t[0]] + t[1..];
    }
  }

  lemma {:induction false} AscendingBound(s: seq<int>, k: nat)
    requires Ascending(s) && (forall x :: x in s ==> 0 <= x) && k < |s|
    ensures k <= s[k]
  {
    assert s[0] in s;
    if k > 0 {
      AscendingBound(s, k - 1);
    }
  }

  // ---------------------------------------------------------------------
  // The bit rows
  // ---------------------------------------------------------------------

  /** `s` holds the nonterminals reachable from `v` through leading symbols. */
  ghost predicate EffRow(g: Grammar, v: nat, s: set<nat>)
    requires g.WellFormed()
  {
    forall b: nat :: b < NVars(g) ==> (b in s <==> Reach(Leads(g), v, b))
  }

  ghost predicate EffRows(g: Grammar, rows: seq<set<nat>>)
    requires g.WellFormed()
  {
    |rows| == NVars(g) && forall v :: 0 <= v < NVars(g) ==> EffRow(g, v, rows[v])
  }

  /** set_EFF: row `v` holds the nonterminals reachable through leading symbols. */
  method SetEFF(g: Grammar, derives: seq<seq<nat>>) returns (eff: array<bv32>)
    requires g.WellFormed() && DerivesTable(g, derives)
    ensures fresh(eff) && Matrix(eff[..], NVars(g), WordSize(NVars(g)))
    ensures EffRows(g, Rows(eff[..], NVars(g), WordSize(NVars(g))))
  {
    var n, w := NVars(g), WordSize(NVars(g));
    eff := NewMatrix(n, w);
    var i := g.start;
    while i < g.nsyms
      invariant g.start <= i <= g.nsyms && Matrix(eff[..], n, w)
      invariant forall v :: 0 <= v < i - g.start ==> Rows(eff[..], n, w)[v] == Leads(g)[v]
      invariant forall v :: i - g.start <= v < n ==> Rows(eff[..], n, w)[v] == {}
    {
      FillEFFRow(g, derives, eff, i);
      i := i + 1;
    }
    assert Rows(eff[..], n, w) == Leads(g);
    Warshall.ReflexiveTransitiveClosure(eff, n);
  }

  /** One round of the outer loop of set_EFF. */
  method FillEFFRow(g: Grammar, derives: seq<seq<nat>>, eff: array<bv32>, i: int)
    requires g.WellFormed() && DerivesTable(g, derives) && g.start <= i < g.nsyms
    requires Matrix(eff[..], NVars(g), WordSize(NVars(g)))
    requires Rows(eff[..], NVars(g), WordSize(NVars(g)))[i - g.start] == {}
    modifies eff
    ensures Matrix(eff[..], NVars(g), WordSize(NVars(g)))
    ensures Rows(eff[..], NVars(g), WordSize(NVars(g))) ==
      old(Rows(eff[..], NVars(g), WordSize(NVars(g))))[i - g.start := Leads(g)[i - g.start]]
  {
    hide LeadsPrefix;
    var n, w, v := NVars(g), WordSize(NVars(g)), i - g.start;
    ghost var before := Rows(eff[..], n, w);
    ghost var row: set<nat> := {};
    NoLeads(g, derives[i]);
    var k := 0;
    while k < |derives[i]|
      invariant 0 <= k <= |derives[i]| && Matrix(eff[..], n, w)
      invariant Rows(eff[..], n, w) == before[v := row]
      invariant LeadsPrefix(g, derives[i], k, row)
    {
      var rule := derives[i][k];
      assert rule in derives[i];
      RuleRange(g, derives, i, rule);
      LeadsPrefixStep(g, derives[i], k, row);
      var symbol := FirstSymbol(g, rule);
      if g.IsVar(symbol) {
        VarRange(g, g.rrhs[rule]);
        SetBit(eff, n, w, v, symbol - g.start);
        row := row + {symbol - g.start};
      }
      k := k + 1;
    }
    LeadsFromList(g, derives, i, row);
  }

  lemma NoLeads(g: Grammar, l: seq<nat>)
    ensures LeadsPrefix(g, l, 0, {})
  {
  }

  ghost predicate LeadsPrefix(g: Grammar, l: seq<nat>, k: nat, s: set<nat>)
    requires k <= |l|
  {
    forall b: nat :: b in s <==> exists m :: 0 <= m < k && FirstSymbol(g, l[m]) == b + g.start
  }

  lemma LeadsPrefixStep(g: Grammar, l: seq<nat>, k: nat, s: set<nat>)
    requires k < |l| && LeadsPrefix(g, l, k, s)
    ensures LeadsPrefix(g, l, k + 1, if FirstSymbol(g, l[k]) >= g.start then s + {FirstSymbol(g, l[k]) - g.start} else s)
  {
  }

  lemma LeadsFromList(g: Grammar, derives: seq<seq<nat>>, a: int, s: set<nat>)
    requires g.WellFormed() && DerivesTable(g, derives) && g.start <= a < g.nsyms
    requires LeadsPrefix(g, derives[a], |derives[a]|, s)
    ensures s == Leads(g)[a - g.start]
  {
    var l := derives[a];
    forall b: nat ensures b in s <==> b in Leads(g)[a - g.start] {
      if b in s {
        var m :| 0 <= m < |l| && FirstSymbol(g, l[m]) == b + g.start;
        assert l[m] in l;
        RuleRange(g, derives, a, l[m]);
        VarRange(g, g.rrhs[l[m]]);
        assert LeadsTo(g, a - g.start, b);
      }
      if b in Leads(g)[a - g.start] {
        assert LeadsTo(g, a - g.start, b);
        var r :| 2 <= r < g.nrules && g.rlhs[r] == a && FirstSymbol(g, r) == b + g.start;
        assert r in l;
      }
    }
  }

  /** `s` holds the rules that can be the first rule applied at the left end of `a`. */
  ghost predicate FirstDerivesRow(g: Grammar, a: int, s: set<nat>)
    requires g.WellFormed()
  {
    forall r: nat :: r in s <==> StartsIn(g, a, r)
  }

  ghost predicate FirstDerives(g: Grammar, rows: seq<set<nat>>)
    requires g.WellFormed()
  {
    |rows| == NVars(g) && forall v :: 0 <= v < NVars(g) ==> FirstDerivesRow(g, v + g.start, rows[v])
  }

  /** set_first_derives */
  method SetFirstDerives(g: Grammar, derives: seq<seq<nat>>) returns (fd: array<bv32>)
    requires g.WellFormed() && DerivesTable(g, derives)
    ensures fresh(fd) && Matrix(fd[..], NVars(g), WordSize(g.nrules))
    ensures FirstDerives(g, Rows(fd[..], NVars(g), WordSize(g.nrules)))
  {
    var n, w := NVars(g), WordSize(g.nrules);
    var eff := SetEFF(g, derives);
    fd := NewMatrix(n, w);
    var i := g.start;
    while i < g.nsyms
      invariant g.start <= i <= g.nsyms && Matrix(fd[..], n, w)
      invariant Matrix(eff[..], n, WordSize(n)) && EffRows(g, Rows(eff[..], n, WordSize(n)))
      invariant forall v :: 0 <= v < i - g.start ==> FirstDerivesRow(g, v + g.start, Rows(fd[..], n, w)[v])
      invariant forall v :: i - g.start <= v < n ==> Rows(fd[..], n, w)[v] == {}
    {
      ghost var before := Rows(fd[..], n, w);
      ghost var row := FillFirstDerivesRow(g, derives, eff, fd, i);
      i := i + 1;
    }
  }

  /** `s` holds the rules of the nonterminals below `k` that `a` can start with. */
  ghost predicate StartsPrefix(g: Grammar, a: int, k: int, s: set<nat>)
    requires g.WellFormed()
  {
    forall r: nat :: r in s <==> StartsIn(g, a, r) && g.rlhs[r] < k
  }

  /** One round of the outer loop of set_first_derives. */
  method FillFirstDerivesRow(g: Grammar, derives: seq<seq<nat>>, eff: array<bv32>, fd: array<bv32>, i: int)
    returns (ghost row: set<nat>)
    requires g.WellFormed() && DerivesTable(g, derives) && g.start <= i < g.nsyms && eff != fd
    requires Matrix(eff[..], NVars(g), WordSize(NVars(g))) && Matrix(fd[..], NVars(g), WordSize(g.nrules))
    requires EffRows(g, Rows(eff[..], NVars(g), WordSize(NVars(g))))
    requires Rows(fd[..], NVars(g), WordSize(g.nrules))[i - g.start] == {}
    modifies fd
    ensures Matrix(fd[..], NVars(g), WordSize(g.nrules))
    ensures Rows(fd[..], NVars(g), WordSize(g.nrules)) == old(Rows(fd[..], NVars(g), WordSize(g.nrules)))[i - g.start := row]
    ensures FirstDerivesRow(g, i, row)
  {
    var n, w, v := NVars(g), WordSize(g.nrules), i - g.start;
    ghost var before := Rows(fd[..], n, w);
    row := {};
    var j := g.start;
    while j < g.nsyms
      invariant g.start <= j <= g.nsyms && Matrix(fd[..], n, w)
      invariant Rows(fd[..], n, w) == before[v := row]
      invariant StartsPrefix(g, i, j, row)
      invariant eff[..] == old(eff[..])
    {
      var hit := TestBit(eff, n, WordSize(n), v, j - g.start);
      assert EffRow(g, v, Rows(eff[..], n, WordSize(n))[v]);
      ghost var added := if hit then RuleSet(derives[j]) else {};
      if hit {
        AddRules(g, derives, fd, v, j, row);
      }
      StartsPrefixStep(g, derives, i, j, row, added);
      assert row + {} == row;
      row := row + added;
      j := j + 1;
    }
    forall r: nat ensures r in row <==> StartsIn(g, i, r) {
      if StartsIn(g, i, r) { RuleStart(g, r); }
    }
  }

  ghost function RuleSet(l: seq<nat>): set<nat> {
    set r | r in l
  }

  lemma StartsPrefixStep(g: Grammar, derives: seq<seq<nat>>, a: int, j: int, s: set<nat>, added: set<nat>)
    requires g.WellFormed() && DerivesTable(g, derives) && g.start <= a < g.nsyms && g.start <= j < g.nsyms
    requires StartsPrefix(g, a, j, s)
    requires added == if Reach(Leads(g), a - g.start, j - g.start) then RuleSet(derives[j]) else {}
    ensures StartsPrefix(g, a, j + 1, s + added)
  {
    forall r: nat ensures r in s + added <==> StartsIn(g, a, r) && g.rlhs[r] < j + 1 {
      if r in derives[j] { RuleRange(g, derives, j, r); }
    }
  }

  /** Set the bits of all rules of nonterminal `j` in row `v`. */
  method AddRules(g: Grammar, derives: seq<seq<nat>>, fd: array<bv32>, v: nat, j: int, ghost row: set<nat>)
    requires g.WellFormed() && DerivesTable(g, derives) && g.start <= j < g.nsyms && v < NVars(g)
    requires Matrix(fd[..], NVars(g), WordSize(g.nrules)) && Rows(fd[..], NVars(g), WordSize(g.nrules))[v] == row
    modifies fd
    ensures Matrix(fd[..], NVars(g), WordSize(g.nrules))
    ensures Rows(fd[..], NVars(g), WordSize(g.nrules)) ==
      old(Rows(fd[..], NVars(g), WordSize(g.nrules)))[v := row + RuleSet(derives[j])]
  {
    var n, w := NVars(g), WordSize(g.nrules);
    ghost var before := Rows(fd[..], n, w);
    ghost var sofar := row;
    var k := 0;
    while k < |derives[j]|
      invariant 0 <= k <= |derives[j]| && Matrix(fd[..], n, w)
      invariant Rows(fd[..], n, w) == before[v := sofar]
      invariant sofar == row + RuleSet(derives[j][..k])
    {
      var rule := derives[j][k];
      assert rule in derives[j];
      RuleRange(g, derives, j, rule);
      SetBit(fd, n, w, v, rule);
      sofar := sofar + {rule};
      assert derives[j][..k + 1] == derives[j][..k] + [rule];
      k := k + 1;
    }
    assert derives[j][..k] == derives[j];
  }

  // ---------------------------------------------------------------------
  // closure
  // ---------------------------------------------------------------------

  /** Where rule `k` starts; no item lies beyond the last rule. */
  ghost function Limit(g: Grammar, k: nat): int
    requires g.WellFormed()
  {
    if k < 2 then 1 else if k <= g.nrules then g.rrhs[k] else |g.ritem|
  }

  lemma LimitStep(g: Grammar, k: nat)
    requires g.WellFormed()
    ensures Limit(g, k) <= Limit(g, k + 1) <= |g.ritem|
    ensures 2 <= k < g.nrules ==> Limit(g, k) < Limit(g, k + 1)
  {
    if 2 <= k < g.nrules {
      g.GetRule(k);
    }
    if 2 <= k + 1 < g.nrules {
      g.GetRule(k + 1);
    }
  }

  /** `x` is a kernel item among the first `c`, or starts a rule of `rules` below `k`. */
  ghost predicate Emitted(g: Grammar, nucleus: seq<int>, c: nat, rules: set<nat>, k: nat, x: int)
    requires c <= |nucleus|
  {
    x in nucleus[..c] || exists r :: r in rules && r < k && r < |g.rrhs| && x == g.rrhs[r]
  }

  /** The merge so far: `out` holds the first `c` kernel items and the first items of
      the rules of `rules` below `k`, in order; everything else comes later. */
  ghost predicate Merged(g: Grammar, nucleus: seq<int>, c: nat, rules: set<nat>, k: nat, out: seq<int>)
    requires g.WellFormed()
  {
    c <= |nucleus| && Ascending(out) &&
    (forall x :: x in out <==> Emitted(g, nucleus, c, rules, k, x)) &&
    (forall x :: x in out ==> 0 <= x < Limit(g, k) && (c < |nucleus| ==> x < nucleus[c]))
  }

  lemma AscendingAppend(s: seq<int>, y: int)
    requires Ascending(s) && forall x :: x in s ==> 0 <= x < y
    ensures Ascending(s + [y])
    ensures |s| <= y || y < 0
  {
    forall i | 0 <= i < |s| ensures s[i] in s && s[i] < y {
    }
    if |s| > 0 {
      AscendingBound(s, |s| - 1);
    }
  }

  lemma MergeKernelItem(g: Grammar, nucleus: seq<int>, c: nat, rules: set<nat>, k: nat, out: seq<int>)
    requires g.WellFormed() && Kernel(g, nucleus) && Merged(g, nucleus, c, rules, k, out)
    requires c < |nucleus| && nucleus[c] < Limit(g, k)
    ensures Merged(g, nucleus, c + 1, rules, k, out + [nucleus[c]])
    ensures |out| < |g.ritem|
  {
    var y := nucleus[c];
    assert y in nucleus;
    AscendingAppend(out, y);
    forall x ensures x in out + [y] <==> Emitted(g, nucleus, c + 1, rules, k, x) {
      assert nucleus[..c + 1] == nucleus[..c] + [y];
      assert Emitted(g, nucleus, c + 1, rules, k, x) <==> Emitted(g, nucleus, c, rules, k, x) || x == y;
    }
  }

  lemma MergeRule(g: Grammar, nucleus: seq<int>, c: nat, rules: set<nat>, k: nat, out: seq<int>)
    requires g.WellFormed() && Kernel(g, nucleus) && Merged(g, nucleus, c, rules, k, out)
    requires 2 <= k < g.nrules && k in rules
    requires c < |nucleus| ==> g.rrhs[k] <= nucleus[c]
    ensures |out| < |g.ritem|
    ensures Merged(g, nucleus, if c < |nucleus| && nucleus[c] == g.rrhs[k] then c + 1 else c, rules, k + 1, out + [g.rrhs[k]])
  {
    LimitStep(g, k);
    g.GetRule(k);
    var y := g.rrhs[k];
    var c' := if c < |nucleus| && nucleus[c] == y then c + 1 else c;
    AscendingAppend(out, y);
    forall x ensures x in out + [y] <==> Emitted(g, nucleus, c', rules, k + 1, x) {
      if c' == c + 1 {
        assert nucleus[..c + 1] == nucleus[..c] + [y];
      }
      if x == y { assert Emitted(g, nucleus, c', rules, k + 1, x); }
      assert Emitted(g, nucleus, c', rules, k + 1, x) <==> Emitted(g, nucleus, c, rules, k, x) || x == y;
    }
  }

  lemma {:induction false} MergeNothing(g: Grammar, nucleus: seq<int>, c: nat, rules: set<nat>, k: nat, k': nat, out: seq<int>)
    requires g.WellFormed() && Merged(g, nucleus, c, rules, k, out) && k <= k'
    requires forall r :: k <= r < k' ==> r !in rules
    ensures Merged(g, nucleus, c, rules, k', out)
    decreases k' - k
  {
    if k < k' {
      LimitStep(g, k);
      forall x ensures x in out <==> Emitted(g, nucleus, c, rules, k + 1, x) {
        assert Emitted(g, nucleus, c, rules, k, x) <==> Emitted(g, nucleus, c, rules, k + 1, x);
      }
      MergeNothing(g, nucleus, c, rules, k + 1, k', out);
    }
  }

  /** The rules that the nucleus calls for. */
  ghost predicate RulesOf(g: Grammar, nucleus: seq<int>, c: nat, rules: set<nat>)
    requires g.WellFormed() && Kernel(g, nucleus) && c <= |nucleus|
  {
    forall r :: r in rules <==> exists i :: i in nucleus && i in nucleus[..c] && StartsIn(g, SymAt(g, i), r)
  }

  lemma RulesInRange(g: Grammar, nucleus: seq<int>, rules: set<nat>)
    requires g.WellFormed() && Kernel(g, nucleus) && RulesOf(g, nucleus, |nucleus|, rules)
    ensures forall r :: r in rules ==> 2 <= r < g.nrules
  {
  }

  lemma MergedIsClosure(g: Grammar, nucleus: seq<int>, rules: set<nat>, k: nat, out: seq<int>)
    requires g.WellFormed() && Kernel(g, nucleus) && RulesOf(g, nucleus, |nucleus|, rules)
    requires Merged(g, nucleus, |nucleus|, rules, k, out) && g.nrules <= k
    ensures IsClosure(g, nucleus, out)
  {
    assert nucleus[..|nucleus|] == nucleus;
    forall x ensures Emitted(g, nucleus, |nucleus|, rules, k, x) <==> InClosure(g, nucleus, x) {
      if r :| r in rules && r < k && r < |g.rrhs| && x == g.rrhs[r] {
        var i :| i in nucleus && i in nucleus[..|nucleus|] && StartsIn(g, SymAt(g, i), r);
        assert InClosure(g, nucleus, x);
      }
      if i, r :| i in nucleus && StartsIn(g, SymAt(g, i), r) && x == g.rrhs[r] {
        assert r in rules;
        assert Emitted(g, nucleus, |nucleus|, rules, k, x);
      }
    }
  }

  /** The first loops of closure: clear the rule set, then or in a row for every
      nonterminal after a dot. */
  method CollectRules(g: Grammar, fd: array<bv32>, ruleset: array<bv32>, nucleus: seq<int>)
    requires g.WellFormed() && Kernel(g, nucleus)
    requires Matrix(fd[..], NVars(g), WordSize(g.nrules)) && FirstDerives(g, Rows(fd[..], NVars(g), WordSize(g.nrules)))
    requires ruleset.Length == WordSize(g.nrules) && ruleset != fd
    modifies ruleset
    ensures RulesOf(g, nucleus, |nucleus|, Members(ruleset[..]))
  {
    var n, w := NVars(g), WordSize(g.nrules);
    var rsp := 0;
    while rsp < w
      invariant 0 <= rsp <= w
      invariant forall k :: 0 <= k < rsp ==> ruleset[k] == 0
    {
      ruleset[rsp] := 0;
      rsp := rsp + 1;
    }
    MembersOfZero(ruleset[..]);
    var csp := 0;
    while csp < |nucleus|
      invariant 0 <= csp <= |nucleus|
      invariant RulesOf(g, nucleus, csp, Members(ruleset[..]))
      invariant fd[..] == old(fd[..])
    {
      assert nucleus[csp] in nucleus;
      var symbol := g.ritem[nucleus[csp]];
      ghost var rules := Members(ruleset[..]);
      if g.IsVar(symbol) {
        VarRange(g, nucleus[csp]);
        OrRuleRow(g, fd, ruleset, symbol);
      }
      RulesOfStep(g, nucleus, csp, rules, Members(ruleset[..]));
      csp := csp + 1;
    }
  }

  lemma RulesOfStep(g: Grammar, nucleus: seq<int>, c: nat, rules: set<nat>, rules': set<nat>)
    requires g.WellFormed() && Kernel(g, nucleus) && c < |nucleus| && RulesOf(g, nucleus, c, rules)
    requires nucleus[c] in nucleus
    requires forall r: nat :: r in rules' <==> r in rules || StartsIn(g, g.ritem[nucleus[c]], r)
    ensures RulesOf(g, nucleus, c + 1, rules')
  {
    assert nucleus[..c + 1] == nucleus[..c] + [nucleus[c]];
  }

  method OrRuleRow(g: Grammar, fd: array<bv32>, ruleset: array<bv32>, symbol: int)
    requires g.WellFormed() && g.start <= symbol < g.nsyms
    requires Matrix(fd[..], NVars(g), WordSize(g.nrules)) && FirstDerives(g, Rows(fd[..], NVars(g), WordSize(g.nrules)))
    requires ruleset.Length == WordSize(g.nrules) && ruleset != fd
    modifies ruleset
    ensures forall r: nat :: r in Members(ruleset[..]) <==> r in old(Members(ruleset[..])) || StartsIn(g, symbol, r)
  {
    var n, w, v := NVars(g), WordSize(g.nrules), symbol - g.start;
    RowStartMonotone(v, n, w);
    ghost var x := ruleset[..];
    OrInto(ruleset, 0, fd, RowStart(v, w), w);
    assert ruleset[0..w] == ruleset[..] && x[0..w] == x;
    MembersOfOr(x, fd[..][RowStart(v, w)..RowStart(v, w) + w], ruleset[..]);
    assert Rows(fd[..], n, w)[v] == Members(fd[..][RowStart(v, w)..RowStart(v, w) + w]);
  }

  /** closure: `itemset[..end]` becomes the closure of the nucleus. */
  method Closure(g: Grammar, fd: array<bv32>, ruleset: array<bv32>, itemset: array<int>, nucleus: seq<int>)
    returns (end: nat)
    requires g.WellFormed() && Kernel(g, nucleus)
    requires Matrix(fd[..], NVars(g), WordSize(g.nrules)) && FirstDerives(g, Rows(fd[..], NVars(g), WordSize(g.nrules)))
    requires ruleset.Length == WordSize(g.nrules) && itemset.Length == |g.ritem| && ruleset != fd
    requires (itemset as object) != (ruleset as object)
    modifies ruleset, itemset
    ensures end <= itemset.Length && IsClosure(g, nucleus, itemset[..end])
  {
    CollectRules(g, fd, ruleset, nucleus);
    ghost var rules := Members(ruleset[..]);
    ghost var words := ruleset[..];
    RulesInRange(g, nucleus, rules);
    assert Merged(g, nucleus, 0, rules, 0, []);
    var c: nat, rsp: nat := 0, 0;
    end := 0;
    while rsp < ruleset.Length
      invariant 0 <= rsp <= ruleset.Length && end <= itemset.Length
      invariant ruleset[..] == words
      invariant Merged(g, nucleus, c, rules, 32 * rsp, itemset[..end])
      decreases ruleset.Length - rsp
    {
      c, end := MergeWord(g, nucleus, c, words, rsp, ruleset[rsp], itemset, end);
      rsp := rsp + 1;
    }
    c, end := CopyRest(g, nucleus, c, rules, 32 * rsp, itemset, end);
    MergedIsClosure(g, nucleus, rules, 32 * rsp + 1, itemset[..end]);
  }

  /** The kernel items after the last rule. */
  method CopyRest(g: Grammar, nucleus: seq<int>, c0: nat, ghost rules: set<nat>, ghost k: nat, itemset: array<int>, end0: nat)
    returns (c: nat, end: nat)
    requires g.WellFormed() && Kernel(g, nucleus) && itemset.Length == |g.ritem| && end0 <= itemset.Length
    requires g.nrules <= k && (forall r :: r in rules ==> r < g.nrules)
    requires Merged(g, nucleus, c0, rules, k, itemset[..end0])
    modifies itemset
    ensures end <= itemset.Length && c == |nucleus|
    ensures Merged(g, nucleus, c, rules, k + 1, itemset[..end])
  {
    c, end := c0, end0;
    MergeNothing(g, nucleus, c, rules, k, k + 1, itemset[..end]);
    while c < |nucleus|
      invariant c <= |nucleus| && end <= itemset.Length
      invariant Merged(g, nucleus, c, rules, k + 1, itemset[..end])
      decreases |nucleus| - c
    {
      assert nucleus[c] in nucleus;
      MergeKernelItem(g, nucleus, c, rules, k + 1, itemset[..end]);
      itemset[end] := nucleus[c];
      assert itemset[..end + 1] == itemset[..end] + [nucleus[c]];
      c, end := c + 1, end + 1;
    }
  }

  /** The rules of one word of the rule set. */
  method MergeWord(g: Grammar, nucleus: seq<int>, c0: nat, ghost words: seq<bv32>, k: nat, word: bv32,
                   itemset: array<int>, end0: nat)
    returns (c: nat, end: nat)
    requires g.WellFormed() && Kernel(g, nucleus) && itemset.Length == |g.ritem| && end0 <= itemset.Length
    requires k < |words| && word == words[k]
    requires forall r :: r in Members(words) ==> 2 <= r < g.nrules
    requires Merged(g, nucleus, c0, Members(words), 32 * k, itemset[..end0])
    modifies itemset
    ensures end <= itemset.Length
    ensures Merged(g, nucleus, c, Members(words), 32 * (k + 1), itemset[..end])
  {
    hide Merged, BitIn, Members;
    c, end := c0, end0;
    ghost var rules := Members(words);
    if word != 0 {
      var i := 0;
      while i < 32
        invariant 0 <= i <= 32 && end <= itemset.Length
        invariant Merged(g, nucleus, c, rules, 32 * k + i, itemset[..end])
      {
        assert (32 * k + i) / 32 == k && (32 * k + i) % 32 == i;
        if BitIn(word, i) {
          c, end := EmitRule(g, nucleus, c, rules, 32 * k + i, itemset, end);
        } else {
          MergeNothing(g, nucleus, c, rules, 32 * k + i, 32 * k + i + 1, itemset[..end]);
        }
        i := i + 1;
      }
    } else {
      forall r | 32 * k <= r < 32 * (k + 1) ensures r !in rules {
        BitOfZero(r % 32);
      }
      MergeNothing(g, nucleus, c, rules, 32 * k, 32 * (k + 1), itemset[..end]);
    }
  }

  /** Copy the kernel items before rule `k`, then its first item. */
  method EmitRule(g: Grammar, nucleus: seq<int>, c0: nat, ghost rules: set<nat>, k: nat, itemset: array<int>, end0: nat)
    returns (c: nat, end: nat)
    requires g.WellFormed() && Kernel(g, nucleus) && itemset.Length == |g.ritem| && end0 <= itemset.Length
    requires 2 <= k < g.nrules && k in rules
    requires Merged(g, nucleus, c0, rules, k, itemset[..end0])
    modifies itemset
    ensures end <= itemset.Length
    ensures Merged(g, nucleus, c, rules, k + 1, itemset[..end])
  {
    c, end := c0, end0;
    var itemno := g.rrhs[k];
    while c < |nucleus| && nucleus[c] < itemno
      invariant c <= |nucleus| && end <= itemset.Length
      invariant Merged(g, nucleus, c, rules, k, itemset[..end])
      decreases |nucleus| - c
    {
      MergeKernelItem(g, nucleus, c, rules, k, itemset[..end]);
      itemset[end] := nucleus[c];
      assert itemset[..end + 1] == itemset[..end] + [nucleus[c]];
      c, end := c + 1, end + 1;
    }
    MergeRule(g, nucleus, c, rules, k, itemset[..end]);
    itemset[end] := itemno;
    assert itemset[..end + 1] == itemset[..end] + [itemno];
    end := end + 1;
    ghost var c1 := c;
    while c < |nucleus| && nucleus[c] == itemno
      invariant c1 <= c <= |nucleus|
      invariant c == c1 || (c == c1 + 1 && nucleus[c1] == itemno)
      decreases |nucleus| - c
    {
      c := c + 1;
    }
  }
}
