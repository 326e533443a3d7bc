/** byacc/lr0.c: the canonical collection of LR(0) states, built by a worklist. */
module LR0 {
  import opened Bits
  import opened Grammars
  import opened Closures

  /** A state: the symbol it is entered on and its sorted kernel items. */
  datatype Core = Core(symbol: int, items: seq<int>)

  /** The states in order of their numbers, and for each state the targets of its
      shifts and the rules of its complete items. */
  datatype Automaton = Automaton(states: seq<Core>, shifts: seq<seq<nat>>, reductions: seq<seq<nat>>)

  // ---------------------------------------------------------------------
  // What the collection has to be
  // ---------------------------------------------------------------------

  /** Item `y` is an item of the closure of `k` moved over symbol `x`. */
  ghost predicate MovedOver(g: Grammar, k: seq<int>, x: int, y: int)
    requires g.WellFormed()
  {
    IsItem(g, y - 1) && InClosure(g, k, y - 1) && g.ritem[y - 1] == x
  }

  /** `t` is the kernel of the state entered from `k` on `x`. */
  ghost predicate GotoKernel(g: Grammar, k: seq<int>, x: int, t: seq<int>)
    requires g.WellFormed()
  {
    Kernel(g, t) && t != [] && forall y :: y in t <==> MovedOver(g, k, x, y)
  }

  /** Some item of the closure of `k` has `x` after its dot. */
  ghost predicate Shiftable(g: Grammar, k: seq<int>, x: int)
    requires g.WellFormed()
  {
    exists y :: MovedOver(g, k, x, y)
  }

  /** The targets are sorted by symbol, there is one for each symbol after a dot other
      than the end marker, and each has exactly the items moved over its symbol. */
  ghost predicate ShiftsOK(g: Grammar, states: seq<Core>, k: seq<int>, targets: seq<nat>)
    requires g.WellFormed()
  {
    (forall i :: 0 <= i < |targets| ==>
       0 < targets[i] < |states| && states[targets[i]].symbol > 0 &&
       GotoKernel(g, k, states[targets[i]].symbol, states[targets[i]].items)) &&
    (forall i, j :: 0 <= i < j < |targets| ==> states[targets[i]].symbol < states[targets[j]].symbol) &&
    (forall x :: x > 0 && Shiftable(g, k, x) ==> exists i :: 0 <= i < |targets| && states[targets[i]].symbol == x)
  }

  /** The rules of the complete items of the closure, in ascending order. */
  ghost predicate ReductionsOK(g: Grammar, k: seq<int>, rules: seq<nat>)
    requires g.WellFormed()
  {
    (forall r :: r in rules <==> 2 <= r < g.nrules && InClosure(g, k, EndOf(g, r))) &&
    forall i, j :: 0 <= i < j < |rules| ==> rules[i] < rules[j]
  }

  ghost predicate CoresOK(g: Grammar, states: seq<Core>)
    requires g.WellFormed()
  {
    |states| > 0 && states[0] == Core(0, [1]) &&
    (forall q :: 0 <= q < |states| ==> Kernel(g, states[q].items) && states[q].items != []) &&
    (forall q :: 0 < q < |states| ==>
       states[q].items[0] > 1 && states[q].symbol == SymAt(g, states[q].items[0] - 1)) &&
    (forall p, q :: 0 <= p < q < |states| ==> states[p].items != states[q].items)
  }

  /** Every state but the first is the target of a shift of an earlier state. */
  ghost predicate Entered(shifts: seq<seq<nat>>, q: nat) {
    exists p :: 0 <= p < |shifts| && p < q && q in shifts[p]
  }

  ghost predicate StateOK(g: Grammar, a: Automaton, q: nat)
    requires g.WellFormed() && q < |a.states| && |a.shifts| == |a.reductions| == |a.states|
  {
    Kernel(g, a.states[q].items) && a.states[q].items != [] &&
    (q == 0 ==> a.states[q] == Core(0, [1])) && (q > 0 ==> Entered(a.shifts, q)) &&
    ShiftsOK(g, a.states, a.states[q].items, a.shifts[q]) &&
    ReductionsOK(g, a.states[q].items, a.reductions[q])
  }

  /** The states below `n` are as they should be. */
  ghost predicate StatesOK(g: Grammar, a: Automaton, n: nat)
    requires g.WellFormed() && n <= |a.states| && |a.shifts| == |a.reductions| == |a.states|
  {
    n == 0 || (StatesOK(g, a, n - 1) && StateOK(g, a, n - 1))
  }

  /** `a` is the canonical LR(0) collection of `g`: every state has exactly the
      transitions and complete items of its closure, and is reached from state 0. */
  ghost predicate IsLR0(g: Grammar, a: Automaton)
  {
    g.WellFormed() && |a.states| > 0 && |a.shifts| == |a.reductions| == |a.states| && StatesOK(g, a, |a.states|)
  }

  lemma {:induction false} StateFactsBelow(g: Grammar, a: Automaton, n: nat, q: nat)
    requires g.WellFormed() && q < n <= |a.states| && |a.shifts| == |a.reductions| == |a.states|
    requires StatesOK(g, a, n)
    ensures StateOK(g, a, q)
  {
    if q < n - 1 {
      StateFactsBelow(g, a, n - 1, q);
    }
  }

  lemma StateFacts(g: Grammar, a: Automaton, q: nat)
    requires IsLR0(g, a) && q < |a.states|
    ensures StateOK(g, a, q)
  {
    StateFactsBelow(g, a, |a.states|, q);
  }

  lemma {:induction false} AllProcessed(g: Grammar, a: Automaton, n: nat)
    requires Processed(g, a, |a.states|) && n <= |a.states|
    ensures StatesOK(g, a, n)
  {
    hide ShiftsOK, ReductionsOK, GotoKernel, Shiftable;
    if n > 0 {
      AllProcessed(g, a, n - 1);
    }
  }

  // ---------------------------------------------------------------------
  // Item sets by symbol
  // ---------------------------------------------------------------------

  /** The items of `s` with `x` after the dot, moved over `x`. */
  function Moved(g: Grammar, s: seq<int>, x: int): seq<int>
  {
    if s == [] then []
    else Moved(g, s[..|s| - 1], x) + (if SymAt(g, s[|s| - 1]) == x then [s[|s| - 1] + 1] else [])
  }

  lemma {:induction false} MovedMembers(g: Grammar, s: seq<int>, x: int, y: int)
    ensures y in Moved(g, s, x) <==> y - 1 in s && SymAt(g, y - 1) == x
  {
    if s != [] {
      var n := |s| - 1;
      assert s == s[..n] + [s[n]];
      MovedMembers(g, s[..n], x, y);
    }
  }

  lemma {:induction false} MovedAscending(g: Grammar, s: seq<int>, x: int)
    requires Ascending(s)
    ensures Ascending(Moved(g, s, x))
  {
    if s != [] {
      var n := |s| - 1;
      var t := Moved(g, s[..n], x);
      MovedAscending(g, s[..n], x);
      forall i | 0 <= i < |t| ensures t[i] < s[n] + 1 {
        MovedMembers(g, s[..n], x, t[i]);
        assert t[i] in t;
      }
    }
  }

  lemma MovedIsGoto(g: Grammar, k: seq<int>, s: seq<int>, x: int)
    requires g.WellFormed() && Kernel(g, k) && IsClosure(g, k, s) && x >= 0
    requires forall i :: i in s ==> IsItem(g, i)
    ensures Kernel(g, Moved(g, s, x))
    ensures Moved(g, s, x) != [] ==> GotoKernel(g, k, x, Moved(g, s, x))
    ensures Moved(g, s, x) != [] <==> Shiftable(g, k, x)
    ensures forall y :: y in Moved(g, s, x) ==> y > 1 && SymAt(g, y - 1) == x
  {
    var t := Moved(g, s, x);
    MovedAscending(g, s, x);
    forall y ensures y in t <==> MovedOver(g, k, x, y) {
      MovedMembers(g, s, x, y);
      assert y - 1 in s <==> InClosure(g, k, y - 1);
    }
    forall y | y in t ensures IsItem(g, y) && y > 1 {
      NextItem(g, y - 1);
    }
    if t != [] {
      assert t[0] in t;
    }
  }

  lemma NextItem(g: Grammar, i: int)
    requires g.WellFormed() && IsItem(g, i) && g.ritem[i] >= 0
    ensures IsItem(g, i + 1) && g.ritem[i] < g.nsyms
  {
    var r := ItemExists(g, i, g.nrules);
    ItemSymbol(g, i, r);
    ItemSymbol(g, i + 1, r);
  }

  /** Every item of a closure is an item of the grammar. */
  lemma ClosureItems(g: Grammar, k: seq<int>, s: seq<int>)
    requires g.WellFormed() && Kernel(g, k) && IsClosure(g, k, s)
    ensures forall i :: i in s ==> IsItem(g, i)
  {
    forall i | i in s ensures IsItem(g, i) {
      assert InClosure(g, k, i);
      if i !in k {
        var j, r :| j in k && StartsIn(g, SymAt(g, j), r) && i == g.rrhs[r];
        RuleStart(g, r);
      }
    }
  }

  /** The symbols that occur after a dot in `s`. */
  ghost predicate ShiftSymbols(g: Grammar, s: seq<int>, symbols: seq<int>)
  {
    Distinct(symbols) && forall x :: x in symbols <==> x > 0 && Moved(g, s, x) != []
  }

  ghost predicate Distinct(s: seq<int>) {
    forall i, j :: 0 <= i < j < |s| ==> s[i] != s[j]
  }

  lemma {:induction false} DistinctBound(s: seq<int>, n: nat)
    requires Distinct(s) && forall x :: x in s ==> 0 <= x < n
    ensures |s| <= n
  {
    var t := Elements(s);
    SubsetSize(t, UpTo(n));
  }

  lemma {:induction false} Elements(s: seq<int>) returns (t: set<int>)
    requires Distinct(s)
    ensures |t| == |s|
    ensures forall x :: x in t <==> x in s
  {
    if s == [] {
      t := {};
    } else {
      var n := |s| - 1;
      t := Elements(s[..n]);
      assert s == s[..n] + [s[n]];
      assert forall k :: 0 <= k < n ==> s[..n][k] != s[n];
      assert s[n] !in s[..n] && s[n] !in t;
      t := t + {s[n]};
    }
  }

  /** new_itemsets: distribute the items of the closure over the symbols after the
      dot; the symbols met are collected in order of appearance. */
  method NewItemsets(g: Grammar, itemset: seq<int>, kernel: array<seq<int>>, shiftSymbol: array<int>) returns (nshifts: nat)
    requires g.WellFormed() && forall i :: i in itemset ==> IsItem(g, i)
    requires kernel.Length == g.nsyms && shiftSymbol.Length == g.nsyms
    requires (kernel as object) != (shiftSymbol as object)
    modifies kernel, shiftSymbol
    ensures nshifts <= shiftSymbol.Length && ShiftSymbols(g, itemset, shiftSymbol[..nshifts])
    ensures forall x :: x in shiftSymbol[..nshifts] ==> 0 < x < g.nsyms
    ensures forall x :: 0 < x < g.nsyms ==> kernel[x] == Moved(g, itemset, x)
  {
    for x := 0 to g.nsyms
      invariant forall y :: 0 <= y < x ==> kernel[y] == []
    {
      kernel[x] := [];
    }
    nshifts := 0;
    var isp := 0;
    while isp < |itemset|
      invariant 0 <= isp <= |itemset| && nshifts <= shiftSymbol.Length
      invariant forall x :: 0 < x < g.nsyms ==> kernel[x] == Moved(g, itemset[..isp], x)
      invariant ShiftSymbols(g, itemset[..isp], shiftSymbol[..nshifts])
      invariant forall x :: x in shiftSymbol[..nshifts] ==> 0 < x < g.nsyms
    {
      var i := itemset[isp];
      assert i in itemset;
      assert itemset[..isp + 1] == itemset[..isp] + [i];
      nshifts := AddItem(g, itemset[..isp], i, kernel, shiftSymbol, nshifts);
      isp := isp + 1;
    }
    assert itemset[..isp] == itemset;
  }

  /** One round of the loop of new_itemsets; `s` is the part already distributed. */
  method AddItem(g: Grammar, ghost s: seq<int>, i: int, kernel: array<seq<int>>, shiftSymbol: array<int>, n: nat)
    returns (nshifts: nat)
    requires g.WellFormed() && IsItem(g, i) && n <= shiftSymbol.Length
    requires kernel.Length == g.nsyms && shiftSymbol.Length == g.nsyms
    requires (kernel as object) != (shiftSymbol as object)
    requires forall x :: 0 < x < g.nsyms ==> kernel[x] == Moved(g, s, x)
    requires ShiftSymbols(g, s, shiftSymbol[..n]) && forall x :: x in shiftSymbol[..n] ==> 0 < x < g.nsyms
    modifies kernel, shiftSymbol
    ensures nshifts <= shiftSymbol.Length
    ensures forall x :: 0 < x < g.nsyms ==> kernel[x] == Moved(g, s + [i], x)
    ensures ShiftSymbols(g, s + [i], shiftSymbol[..nshifts])
    ensures forall x :: x in shiftSymbol[..nshifts] ==> 0 < x < g.nsyms
  {
    nshifts := n;
    var symbol := g.ritem[i];
    ghost var symbols := shiftSymbol[..n];
    if symbol > 0 {
      NextItem(g, i);
      if kernel[symbol] == [] {
        DistinctBound(symbols + [symbol], g.nsyms);
        shiftSymbol[nshifts] := symbol;
        nshifts := nshifts + 1;
        assert shiftSymbol[..nshifts] == symbols + [symbol];
      }
      kernel[symbol] := kernel[symbol] + [i + 1];
    }
    forall x ensures Moved(g, s + [i], x) == Moved(g, s, x) + (if g.ritem[i] == x then [i + 1] else []) {
      assert (s + [i])[..|s|] == s;
    }
  }

  // ---------------------------------------------------------------------
  // The insertion sort of append_states
  // ---------------------------------------------------------------------

  ghost predicate SameElements(s: seq<int>, t: seq<int>) {
    |s| == |t| && forall x :: x in s <==> x in t
  }

  /** Sort the first `n` symbols in place. */
  method SortSymbols(a: array<int>, n: nat)
    requires n <= a.Length && forall i, j :: 0 <= i < j < n ==> a[i] != a[j]
    modifies a
    ensures Ascending(a[..n]) && SameElements(old(a[..n]), a[..n])
  {
    ghost var before := a[..n];
    var i := 1;
    while i < n
      invariant 1 <= i && (i <= n || n == 0)
      invariant n > 0 ==> Ascending(a[..i])
      invariant SameElements(before, a[..n])
      invariant forall k, l :: 0 <= k < l < n ==> a[k] != a[l]
      decreases n - i
    {
      InsertSymbol(a, n, i);
      i := i + 1;
    }
  }

  method InsertSymbol(a: array<int>, n: nat, i: nat)
    requires 0 < i < n <= a.Length && Ascending(a[..i])
    requires forall k, l :: 0 <= k < l < n ==> a[k] != a[l]
    modifies a
    ensures Ascending(a[..i + 1]) && SameElements(old(a[..n]), a[..n])
    ensures forall k, l :: 0 <= k < l < n ==> a[k] != a[l]
  {
    ghost var s := a[..n];
    var symbol := a[i];
    var j := MakeRoom(a, i);
    a[j] := symbol;
    assert MovedDown(s, a[..n], i, j);
    assert s[..i] == old(a[..i]);
    assert j > 0 ==> s[j - 1] <= s[i];
    InsertedAscending(s, a[..n], i, j);
    InsertedSame(s, a[..n], i, j);
    assert a[..n][..i + 1] == a[..i + 1];
    assert forall k :: 0 <= k < n ==> a[k] == a[..n][k];
  }

  /** The inner loop: move the larger elements before `i` one place up. */
  method MakeRoom(a: array<int>, i: nat) returns (j: nat)
    requires i < a.Length
    modifies a
    ensures j <= i && (j > 0 ==> old(a[j - 1]) <= old(a[i]))
    ensures forall k :: 0 <= k < j || i < k < a.Length ==> a[k] == old(a[k])
    ensures forall k :: j < k <= i ==> a[k] == old(a[k - 1])
    ensures forall k :: j <= k < i ==> old(a[k]) > old(a[i])
  {
    var symbol := a[i];
    j := i;
    while j > 0 && a[j - 1] > symbol
      invariant 0 <= j <= i
      invariant forall k :: 0 <= k < j || i < k < a.Length ==> a[k] == old(a[k])
      invariant forall k :: j < k <= i ==> a[k] == old(a[k - 1])
      invariant forall k :: j <= k < i ==> old(a[k]) > symbol
    {
      a[j] := a[j - 1];
      j := j - 1;
    }
  }

  /** `t` is `s` with element `i` moved down to `j`. */
  ghost predicate MovedDown(s: seq<int>, t: seq<int>, i: nat, j: nat)
  {
    j <= i < |s| && |t| == |s| && t[j] == s[i] &&
    (forall k :: 0 <= k < j || i < k < |s| ==> t[k] == s[k]) &&
    (forall k :: j < k <= i ==> t[k] == s[k - 1])
  }

  lemma InsertedAscending(s: seq<int>, t: seq<int>, i: nat, j: nat)
    requires MovedDown(s, t, i, j) && Ascending(s[..i])
    requires Distinct(s)
    requires forall k :: j <= k < i ==> s[k] > s[i]
    requires j > 0 ==> s[j - 1] <= s[i]
    ensures Ascending(t[..i + 1])
  {
    forall k, l | 0 <= k < l < i + 1 ensures t[k] < t[l] {
      assert forall u, v :: 0 <= u < v < i ==> s[..i][u] < s[..i][v];
      if k < j && l == j {
        assert k < j - 1 ==> s[..i][k] < s[..i][j - 1];
      }
    }
  }

  lemma InsertedSame(s: seq<int>, t: seq<int>, i: nat, j: nat)
    requires MovedDown(s, t, i, j) && Distinct(s)
    ensures SameElements(s, t) && Distinct(t)
  {
    forall x | x in s ensures x in t {
      var k :| 0 <= k < |s| && s[k] == x;
      if j <= k < i {
        assert t[k + 1] == x;
      }
    }
  }

  // ---------------------------------------------------------------------
  // Finding and adding states
  // ---------------------------------------------------------------------

  ghost predicate ChainOK(states: seq<Core>, key: int, chain: seq<nat>)
    requires forall q :: 0 <= q < |states| ==> states[q].items != []
  {
    forall q :: q in chain ==> 0 < q < |states| && states[q].items[0] == key
  }

  /** The chains of states by first kernel item hold every state but the first. */
  ghost predicate ChainsOK(states: seq<Core>, stateSet: seq<seq<nat>>)
    requires forall q :: 0 <= q < |states| ==> states[q].items != []
  {
    (forall key :: 0 <= key < |stateSet| ==> ChainOK(states, key, stateSet[key])) &&
    (forall q :: 0 < q < |states| ==>
       0 <= states[q].items[0] < |stateSet| && q in stateSet[states[q].items[0]])
  }

  /** get_state: the number of the state with the given kernel, new or old. */
  method GetState(g: Grammar, states: seq<Core>, stateSet: array<seq<nat>>, symbol: int, items: seq<int>)
    returns (q: nat, states': seq<Core>)
    requires g.WellFormed() && CoresOK(g, states) && stateSet.Length == |g.ritem| && ChainsOK(states, stateSet[..])
    requires Kernel(g, items) && items != [] && items[0] > 1 && symbol == SymAt(g, items[0] - 1)
    modifies stateSet
    ensures 0 < q < |states'| && states'[q] == Core(symbol, items)
    ensures states' == states || (q == |states| && states' == states + [Core(symbol, items)])
    ensures CoresOK(g, states') && ChainsOK(states', stateSet[..])
  {
    var key := items[0];
    assert key in items;
    var found;
    found, q := FindState(states, stateSet[key], items, key, stateSet[..]);
    if found {
      return q, states;
    }
    q := |states|;
    states' := states + [Core(symbol, items)];
    AddCore(g, states, stateSet[..], symbol, items);
    ghost var chains := stateSet[..];
    stateSet[key] := stateSet[key] + [q];
    assert stateSet[..] == chains[key := chains[key] + [q]];
  }

  /** The search along one chain. */
  method FindState(states: seq<Core>, chain: seq<nat>, items: seq<int>, key: int, ghost stateSet: seq<seq<nat>>)
    returns (found: bool, q: nat)
    requires forall q :: 0 <= q < |states| ==> states[q].items != []
    requires ChainsOK(states, stateSet) && 0 <= key < |stateSet| && chain == stateSet[key]
    requires items != [] && items[0] == key
    ensures found ==> 0 < q < |states| && states[q].items == items
    ensures !found ==> forall p :: 0 < p < |states| ==> states[p].items != items
  {
    q := 0;
    for i := 0 to |chain|
      invariant forall p :: p in chain[..i] ==> 0 < p < |states| && states[p].items != items
    {
      var sp := chain[i];
      assert sp in chain && ChainOK(states, key, chain);
      assert chain[..i + 1] == chain[..i] + [sp];
      if |states[sp].items| == |items| && SameItems(states[sp].items, items) {
        return true, sp;
      }
    }
    assert chain[..|chain|] == chain;
    return false, 0;
  }

  lemma AddCore(g: Grammar, states: seq<Core>, stateSet: seq<seq<nat>>, symbol: int, items: seq<int>)
    requires g.WellFormed() && CoresOK(g, states)
    requires Kernel(g, items) && items != [] && items[0] > 1 && symbol == SymAt(g, items[0] - 1)
    requires forall p :: 0 < p < |states| ==> states[p].items != items
    ensures CoresOK(g, states + [Core(symbol, items)])
  {
  }

  function SameItems(s: seq<int>, t: seq<int>): (r: bool)
    requires |s| == |t|
    ensures r <==> s == t
  {
    if s == [] then true
    else
      assert s == [s[0]] + s[1..] && t == [t[0]] + t[1..];
      s[0] == t[0] && SameItems(s[1..], t[1..])
  }

  lemma MoreStates(g: Grammar, states: seq<Core>, states': seq<Core>, k: seq<int>, targets: seq<nat>)
    requires g.WellFormed() && Kernel(g, k) && ShiftsOK(g, states, k, targets) && states <= states'
    ensures ShiftsOK(g, states', k, targets)
  {
  }

  // ---------------------------------------------------------------------
  // One state
  // ---------------------------------------------------------------------

  /** The first `n` symbols have been given targets. */
  ghost predicate TargetsFor(states: seq<Core>, kernel: seq<seq<int>>, symbols: seq<int>, targets: seq<nat>)
  {
    |targets| <= |symbols| &&
    forall i :: 0 <= i < |targets| ==>
      0 < targets[i] < |states| && 0 <= symbols[i] < |kernel| &&
      states[targets[i]] == Core(symbols[i], kernel[symbols[i]])
  }

  /** Every state numbered `from` or later is among the targets. */
  ghost predicate NewOnesTargeted(states: seq<Core>, from: nat, targets: seq<nat>) {
    forall q :: from <= q < |states| ==> q in targets
  }

  /** `items` can be the kernel of a state entered on `x`. */
  ghost predicate KernelFor(g: Grammar, x: int, items: seq<int>) {
    Kernel(g, items) && items != [] && items[0] > 1 && x == SymAt(g, items[0] - 1)
  }

  /** The second loop of append_states. */
  method AppendStates(g: Grammar, states0: seq<Core>, stateSet: array<seq<nat>>, kernel: array<seq<int>>, symbols: seq<int>)
    returns (states: seq<Core>, targets: seq<nat>)
    requires g.WellFormed() && CoresOK(g, states0) && stateSet.Length == |g.ritem| && ChainsOK(states0, stateSet[..])
    requires (kernel as object) != (stateSet as object) && kernel.Length == g.nsyms
    requires forall x :: x in symbols ==> 0 < x < g.nsyms && KernelFor(g, x, kernel[x])
    modifies stateSet
    ensures CoresOK(g, states) && ChainsOK(states, stateSet[..]) && states0 <= states
    ensures |targets| == |symbols| && TargetsFor(states, kernel[..], symbols, targets)
    ensures NewOnesTargeted(states, |states0|, targets)
  {
    states, targets := states0, [];
    for i := 0 to |symbols|
      invariant CoresOK(g, states) && ChainsOK(states, stateSet[..]) && states0 <= states
      invariant |targets| == i && TargetsFor(states, kernel[..], symbols, targets)
      invariant NewOnesTargeted(states, |states0|, targets)
      invariant kernel[..] == old(kernel[..])
    {
      var symbol := symbols[i];
      assert symbol in symbols;
      ghost var before, targets0 := states, targets;
      var q;
      q, states := GetState(g, states, stateSet, symbol, kernel[symbol]);
      targets := targets + [q];
      TargetsForStep(before, states, kernel[..], symbols, targets0, q);
      NewOnesStep(before, states, |states0|, targets0, q);
    }
  }

  lemma TargetsForStep(states: seq<Core>, states': seq<Core>, kernel: seq<seq<int>>, symbols: seq<int>, targets: seq<nat>, q: nat)
    requires TargetsFor(states, kernel, symbols, targets) && states <= states' && |targets| < |symbols|
    requires 0 < q < |states'| && 0 <= symbols[|targets|] < |kernel|
    requires states'[q] == Core(symbols[|targets|], kernel[symbols[|targets|]])
    ensures TargetsFor(states', kernel, symbols, targets + [q])
  {
  }

  lemma NewOnesStep(states: seq<Core>, states': seq<Core>, from: nat, targets: seq<nat>, q: nat)
    requires NewOnesTargeted(states, from, targets)
    requires |states'| == |states| || (|states'| == |states| + 1 && q == |states|)
    ensures NewOnesTargeted(states', from, targets + [q])
  {
  }

  /** save_reductions: the rules of the complete items, in item order. */
  method SaveReductions(g: Grammar, k: seq<int>, itemset: seq<int>) returns (rules: seq<nat>)
    requires g.WellFormed() && Kernel(g, k) && IsClosure(g, k, itemset)
    ensures ReductionsOK(g, k, rules)
  {
    ClosureItems(g, k, itemset);
    rules := CollectReductions(g, itemset);
    CompleteIsReductions(g, k, itemset, rules);
  }

  method CollectReductions(g: Grammar, itemset: seq<int>) returns (rules: seq<nat>)
    requires g.WellFormed() && Ascending(itemset) && forall i :: i in itemset ==> IsItem(g, i)
    ensures CompleteRules(g, itemset, rules)
  {
    rules := [];
    for isp := 0 to |itemset|
      invariant CompleteRules(g, itemset[..isp], rules)
    {
      CompleteStepAt(g, itemset, isp, rules);
      rules := if SymAt(g, itemset[isp]) < 0 then rules + [-SymAt(g, itemset[isp])] else rules;
    }
    assert itemset[..|itemset|] == itemset;
  }

  lemma CompleteStepAt(g: Grammar, s: seq<int>, n: nat, rules: seq<nat>)
    requires g.WellFormed() && Ascending(s) && (forall i :: i in s ==> IsItem(g, i)) && n < |s|
    requires CompleteRules(g, s[..n], rules)
    ensures CompleteRules(g, s[..n + 1], if SymAt(g, s[n]) < 0 then rules + [-SymAt(g, s[n])] else rules)
  {
    hide CompleteRules, ItemOf;
    assert s[n] in s;
    assert s[..n + 1] == s[..n] + [s[n]];
    var r := SymbolAndRule(g, s[n]);
    CompleteStep(g, s[..n], s[n], rules, r);
  }

  /** `rules` are the rules whose complete item is in `s`, in ascending order. */
  ghost predicate CompleteRules(g: Grammar, s: seq<int>, rules: seq<nat>)
  {
    (forall r :: r in rules <==> 2 <= r < g.nrules && EndOf(g, r) in s) &&
    forall i, j :: 0 <= i < j < |rules| ==> rules[i] < rules[j]
  }

  lemma CompleteIsReductions(g: Grammar, k: seq<int>, s: seq<int>, rules: seq<nat>)
    requires g.WellFormed() && Kernel(g, k) && IsClosure(g, k, s) && CompleteRules(g, s, rules)
    ensures ReductionsOK(g, k, rules)
  {
  }

  lemma SymbolAndRule(g: Grammar, i: int) returns (r: nat)
    requires g.WellFormed() && IsItem(g, i)
    ensures ItemOf(g, i, r) && (g.ritem[i] < 0 <==> i == EndOf(g, r)) && (g.ritem[i] < 0 ==> g.ritem[i] == 0 - r)
  {
    r := ItemExists(g, i, g.nrules);
    ItemSymbol(g, i, r);
  }

  lemma EndsApart(g: Grammar, q: nat, r: nat)
    requires g.WellFormed() && 2 <= q < g.nrules && 2 <= r < g.nrules
    ensures EndOf(g, q) < EndOf(g, r) <==> q < r
  {
    if q < r {
      RulesApart(g, q + 1, r + 1);
    } else if r < q {
      RulesApart(g, r + 1, q + 1);
    }
  }

  lemma CompleteStep(g: Grammar, s: seq<int>, i: int, rules: seq<nat>, r: nat)
    requires g.WellFormed() && CompleteRules(g, s, rules) && IsItem(g, i) && ItemOf(g, i, r)
    requires Ascending(s + [i]) && (g.ritem[i] < 0 <==> i == EndOf(g, r))
    ensures CompleteRules(g, s + [i], if g.ritem[i] < 0 then rules + [r] else rules)
  {
    forall q | 2 <= q < g.nrules && EndOf(g, q) == i ensures q == r {
      OwnEnd(g, q, r, i);
    }
    if g.ritem[i] < 0 {
      forall m | 0 <= m < |rules| ensures rules[m] < r {
        var q := rules[m];
        assert q in rules;
        BeforeLast(s, EndOf(g, q), i);
        EndsApart(g, q, r);
      }
    }
  }

  lemma OwnEnd(g: Grammar, q: nat, r: nat, i: int)
    requires g.WellFormed() && 2 <= q < g.nrules && ItemOf(g, i, r) && EndOf(g, q) == i
    ensures q == r
  {
    g.GetRule(q);
    if q < r {
      RulesApart(g, q, r);
    } else if r < q {
      RulesApart(g, r, q);
    }
  }

  lemma BeforeLast(s: seq<int>, x: int, i: int)
    requires Ascending(s + [i]) && x in s
    ensures x < i
  {
    var n :| 0 <= n < |s| && s[n] == x;
    assert (s + [i])[n] < (s + [i])[|s|];
  }

  // ---------------------------------------------------------------------
  // The worklist
  // ---------------------------------------------------------------------

  /** The states below `t` have been processed. */
  ghost predicate Processed(g: Grammar, a: Automaton, t: nat)
  {
    g.WellFormed() && CoresOK(g, a.states) && t <= |a.states| && |a.shifts| == |a.reductions| == t &&
    (forall q :: 0 <= q < t ==> ShiftsOK(g, a.states, a.states[q].items, a.shifts[q])) &&
    (forall q :: 0 <= q < t ==> ReductionsOK(g, a.states[q].items, a.reductions[q])) &&
    (forall q :: 0 < q < |a.states| ==> Entered(a.shifts, q))
  }

  /** Sorted symbols and their targets make up the shifts of a state. */
  lemma TargetsAreShifts(g: Grammar, k: seq<int>, s: seq<int>, states: seq<Core>, kernel: seq<seq<int>>,
                         symbols: seq<int>, targets: seq<nat>)
    requires g.WellFormed() && Kernel(g, k) && IsClosure(g, k, s) && CoresOK(g, states)
    requires |kernel| == g.nsyms && forall x :: 0 < x < g.nsyms ==> kernel[x] == Moved(g, s, x)
    requires Ascending(symbols) && ShiftSymbols(g, s, symbols) && forall x :: x in symbols ==> 0 < x < g.nsyms
    requires |targets| == |symbols| && TargetsFor(states, kernel, symbols, targets)
    ensures ShiftsOK(g, states, k, targets)
  {
    ClosureItems(g, k, s);
    forall i | 0 <= i < |targets|
      ensures states[targets[i]].symbol == symbols[i] > 0
      ensures GotoKernel(g, k, states[targets[i]].symbol, states[targets[i]].items)
    {
      assert symbols[i] in symbols;
      MovedIsGoto(g, k, s, symbols[i]);
    }
    forall x | x > 0 && Shiftable(g, k, x)
      ensures exists i :: 0 <= i < |targets| && states[targets[i]].symbol == x
    {
      SymbolOfShift(g, k, s, symbols, x);
      var i :| 0 <= i < |symbols| && symbols[i] == x;
      assert states[targets[i]].symbol == x;
    }
  }

  lemma SymbolOfShift(g: Grammar, k: seq<int>, s: seq<int>, symbols: seq<int>, x: int)
    requires g.WellFormed() && Kernel(g, k) && IsClosure(g, k, s) && ShiftSymbols(g, s, symbols)
    requires x > 0 && Shiftable(g, k, x)
    ensures x in symbols
  {
    ClosureItems(g, k, s);
    MovedIsGoto(g, k, s, x);
  }

  lemma KernelsForSymbols(g: Grammar, k: seq<int>, s: seq<int>, kernel: seq<seq<int>>, symbols: seq<int>)
    requires g.WellFormed() && Kernel(g, k) && IsClosure(g, k, s)
    requires |kernel| == g.nsyms && forall x :: 0 < x < g.nsyms ==> kernel[x] == Moved(g, s, x)
    requires ShiftSymbols(g, s, symbols) && forall x :: x in symbols ==> 0 < x < g.nsyms
    ensures forall x :: x in symbols ==> 0 < x < g.nsyms && KernelFor(g, x, kernel[x])
  {
    ClosureItems(g, k, s);
    forall x | x in symbols ensures KernelFor(g, x, kernel[x]) {
      MovedIsGoto(g, k, s, x);
      assert kernel[x][0] in kernel[x];
    }
  }

  /** Pairwise different objects. */
  ghost predicate Separate(a: object, b: object, c: object, d: object, e: object, f: object) {
    a != b && a != c && a != d && a != e && a != f && b != c && b != d && b != e && b != f &&
    c != d && c != e && c != f && d != e && d != f && e != f
  }

  /** The body of the loop of generate_states for state number `t`. */
  method ProcessState(g: Grammar, a: Automaton, t: nat, fd: array<bv32>, ruleset: array<bv32>, itemset: array<int>,
                      kernel: array<seq<int>>, shiftSymbol: array<int>, stateSet: array<seq<nat>>)
    returns (a': Automaton)
    requires Processed(g, a, t) && t < |a.states|
    requires Matrix(fd[..], NVars(g), WordSize(g.nrules)) && FirstDerives(g, Rows(fd[..], NVars(g), WordSize(g.nrules)))
    requires ruleset.Length == WordSize(g.nrules) && itemset.Length == |g.ritem|
    requires kernel.Length == g.nsyms && shiftSymbol.Length == g.nsyms
    requires stateSet.Length == |g.ritem| && ChainsOK(a.states, stateSet[..])
    requires Separate(fd, ruleset, itemset, kernel, shiftSymbol, stateSet)
    modifies ruleset, itemset, kernel, shiftSymbol, stateSet
    ensures Processed(g, a', t + 1) && ChainsOK(a'.states, stateSet[..])
  {
    var core := a.states[t];
    var end := Closure(g, fd, ruleset, itemset, core.items);
    var items := itemset[..end];
    ClosureItems(g, core.items, items);
    var rules := SaveReductions(g, core.items, items);
    var nshifts := NewItemsets(g, items, kernel, shiftSymbol);
    ghost var unsorted := shiftSymbol[..nshifts];
    SortSymbols(shiftSymbol, nshifts);
    var symbols := shiftSymbol[..nshifts];
    KernelsForSymbols(g, core.items, items, kernel[..], symbols);
    var states, targets := AppendStates(g, a.states, stateSet, kernel, symbols);
    TargetsAreShifts(g, core.items, items, states, kernel[..], symbols, targets);
    a' := Automaton(states, a.shifts + [targets], a.reductions + [rules]);
    ProcessedStep(g, a, t, a');
  }

  lemma ProcessedStep(g: Grammar, a: Automaton, t: nat, a': Automaton)
    requires Processed(g, a, t) && t < |a.states| && a.states <= a'.states && CoresOK(g, a'.states)
    requires |a'.shifts| == t + 1 && a'.shifts[..t] == a.shifts
    requires |a'.reductions| == t + 1 && a'.reductions[..t] == a.reductions
    requires ShiftsOK(g, a'.states, a.states[t].items, a'.shifts[t])
    requires ReductionsOK(g, a.states[t].items, a'.reductions[t])
    requires NewOnesTargeted(a'.states, |a.states|, a'.shifts[t])
    ensures Processed(g, a', t + 1)
  {
    hide ShiftsOK, ReductionsOK, CoresOK;
    forall q | 0 <= q < t ensures ShiftsOK(g, a'.states, a'.states[q].items, a'.shifts[q]) {
      ShiftsKept(g, a, t, a', q);
    }
    forall q | 0 <= q < t ensures ReductionsOK(g, a'.states[q].items, a'.reductions[q]) {
      assert a'.reductions[..t][q] == a'.reductions[q] && a'.states[q] == a.states[q];
    }
    EnteredStep(a.shifts, a'.shifts, t, a.states, a'.states);
  }

  lemma ShiftsKept(g: Grammar, a: Automaton, t: nat, a': Automaton, q: nat)
    requires Processed(g, a, t) && q < t < |a.states| && a.states <= a'.states && CoresOK(g, a'.states)
    requires |a'.shifts| == t + 1 && a'.shifts[..t] == a.shifts
    ensures ShiftsOK(g, a'.states, a'.states[q].items, a'.shifts[q])
  {
    hide GotoKernel, Shiftable, ReductionsOK, Entered;
    assert a'.shifts[..t][q] == a'.shifts[q] && a'.states[q] == a.states[q];
    MoreStates(g, a.states, a'.states, a.states[q].items, a.shifts[q]);
  }

  lemma EnteredStep(shifts: seq<seq<nat>>, shifts': seq<seq<nat>>, t: nat, states: seq<Core>, states': seq<Core>)
    requires |shifts| == t < |states| <= |states'| && |shifts'| == t + 1 && shifts'[..t] == shifts
    requires forall q :: 0 < q < |states| ==> Entered(shifts, q)
    requires NewOnesTargeted(states', |states|, shifts'[t])
    ensures forall q :: 0 < q < |states'| ==> Entered(shifts', q)
  {
    forall q | 0 < q < |states'| ensures Entered(shifts', q) {
      if q < |states| {
        assert Entered(shifts, q);
        var p :| 0 <= p < |shifts| && p < q && q in shifts[p];
        assert shifts'[..t][p] == shifts'[p];
      } else {
        assert q in shifts'[t];
      }
    }
  }

  // ---------------------------------------------------------------------
  // Termination: there are finitely many kernels
  // ---------------------------------------------------------------------

  ghost function ItemSet(s: seq<int>): (t: set<int>)
    ensures forall x :: x in t <==> x in s
  {
    set x | x in s
  }

  ghost function Subsets(n: nat): set<set<int>>
  {
    set s: set<int> | s <= UpTo(n)
  }

  /** There are no more states than sets of items. */
  lemma StatesBounded(g: Grammar, states: seq<Core>)
    requires g.WellFormed() && CoresOK(g, states)
    ensures |states| <= |Subsets(|g.ritem|)|
  {
    var sets := KernelSets(g, states, |states|);
    SubsetSize(sets, Subsets(|g.ritem|));
  }

  lemma {:induction false} KernelSets(g: Grammar, states: seq<Core>, n: nat) returns (sets: set<set<int>>)
    requires g.WellFormed() && CoresOK(g, states) && n <= |states|
    ensures |sets| == n && sets <= Subsets(|g.ritem|)
    ensures forall s :: s in sets ==> exists q :: 0 <= q < n && s == ItemSet(states[q].items)
  {
    if n == 0 {
      sets := {};
    } else {
      sets := KernelSets(g, states, n - 1);
      var s := ItemSet(states[n - 1].items);
      assert s !in sets by {
        if s in sets {
          var q :| 0 <= q < n - 1 && s == ItemSet(states[q].items);
          SameSetSameKernel(states[q].items, states[n - 1].items);
        }
      }
      assert s <= UpTo(|g.ritem|);
      sets := sets + {s};
    }
  }

  lemma SameSetSameKernel(s: seq<int>, t: seq<int>)
    requires Ascending(s) && Ascending(t) && ItemSet(s) == ItemSet(t)
    ensures s == t
  {
    forall x ensures x in s <==> x in t {
      assert x in ItemSet(s) <==> x in ItemSet(t);
    }
    AscendingUnique(s, t);
  }

  /** initialize_states: the state with the start items of `$accept`. */
  method InitializeStates(g: Grammar, derives: seq<seq<nat>>) returns (states: seq<Core>)
    requires g.WellFormed() && DerivesTable(g, derives)
    ensures states == [Core(0, [1])] && CoresOK(g, states)
  {
    var items := [];
    for i := 0 to |derives[g.start]|
      invariant |items| == i && forall k :: 0 <= k < i ==> items[k] == 1
    {
      assert derives[g.start][i] in derives[g.start];
      RuleRange(g, derives, g.start, derives[g.start][i]);
      items := items + [g.rrhs[derives[g.start][i]]];
    }
    StartRules(g, derives);
    states := [Core(0, items)];
    assert items == [1];
  }

  lemma StartRules(g: Grammar, derives: seq<seq<nat>>)
    requires g.WellFormed() && DerivesTable(g, derives)
    ensures |derives[g.start]| == 1
  {
    var l := derives[g.start];
    assert 2 in l;
    assert |l| > 1 ==> l[0] < l[1];
    forall i | 0 <= i < |l| ensures l[i] == 2 {
      assert l[i] in l;
      RuleRange(g, derives, g.start, l[i]);
    }
  }

  /** generate_states: the canonical LR(0) collection. */
  method GenerateStates(g: Grammar, derives: seq<seq<nat>>) returns (a: Automaton)
    requires g.WellFormed() && DerivesTable(g, derives)
    ensures IsLR0(g, a) && CoresOK(g, a.states)
  {
    var fd := SetFirstDerives(g, derives);
    var ruleset := new bv32[WordSize(g.nrules)];
    var itemset := new int[|g.ritem|];
    var kernel := new seq<int>[g.nsyms];
    var shiftSymbol := new int[g.nsyms];
    var stateSet := new seq<nat>[|g.ritem|](_ => []);
    var states := InitializeStates(g, derives);
    a := Automaton(states, [], []);
    var thisState := 0;
    while thisState < |a.states|
      invariant 0 <= thisState && Processed(g, a, thisState) && ChainsOK(a.states, stateSet[..])
      invariant Matrix(fd[..], NVars(g), WordSize(g.nrules)) && FirstDerives(g, Rows(fd[..], NVars(g), WordSize(g.nrules)))
      invariant fresh(ruleset) && fresh(itemset) && fresh(kernel) && fresh(shiftSymbol) && fresh(stateSet)
      decreases |Subsets(|g.ritem|)| - thisState
    {
      StatesBounded(g, a.states);
      ghost var rows := fd[..];
      a := ProcessState(g, a, thisState, fd, ruleset, itemset, kernel, shiftSymbol, stateSet);
      assert fd[..] == rows;
      thisState := thisState + 1;
    }
    AllProcessed(g, a, |a.states|);
  }
}
