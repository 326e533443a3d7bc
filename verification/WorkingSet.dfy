/** eyacc/ey3.c, closure: the items of a state with their lookahead sets, completed in
    the working set until no set grows. */
module WorkingSets {
  import opened Grammars
  import opened Closures
  import Graph
  import LR0
  import opened Firsts
  import opened Propagation
  import opened Eyacc

  /** An entry of `wsets`; the flag says that the item still has to be closed. */
  datatype WSet = WSet(pitem: int, flag: bool, ws: set<nat>)

  // ---------------------------------------------------------------------
  // What the working set has to hold
  // ---------------------------------------------------------------------

  /** The kernel items with their own sets come first; every item is listed once. */
  ghost predicate Entries(g: Grammar, k: seq<int>, looks: seq<set<nat>>, ws: seq<WSet>)
    requires g.WellFormed()
  {
    |looks| == |k| <= |ws| &&
    (forall i :: 0 <= i < |k| ==> ws[i].pitem == k[i] && ws[i].ws == looks[i]) &&
    (forall i, j :: 0 <= i < j < |ws| ==> ws[i].pitem != ws[j].pitem) &&
    (forall i :: 0 <= i < |ws| ==> IsItem(g, ws[i].pitem) && InClosure(g, k, ws[i].pitem)) &&
    (forall i, t :: 0 <= i < |ws| && t in ws[i].ws ==> t < g.start)
  }

  /** Item `x` is there with at least the tokens of `s`. */
  ghost predicate Has(ws: seq<WSet>, x: int, s: set<nat>) {
    exists m :: 0 <= m < |ws| && ws[m].pitem == x && s <= ws[m].ws
  }

  /** What entry `i` passes on has arrived. */
  ghost predicate Served(g: Grammar, ws: seq<WSet>, i: nat)
    requires g.WellFormed()
  {
    i < |ws| && forall r :: CallsFor(g, ws[i].pitem, r) ==> Has(ws, g.rrhs[r], Contribution(g, ws[i].pitem, ws[i].ws))
  }

  ghost predicate LocalSolution(g: Grammar, k: seq<int>, looks: seq<set<nat>>, m: int -> set<nat>)
    requires g.WellFormed()
  {
    |looks| == |k| && (forall i :: 0 <= i < |k| ==> looks[i] <= m(k[i])) && LocalClosed(g, k, m)
  }

  ghost predicate Below(ws: seq<WSet>, m: int -> set<nat>) {
    forall i :: 0 <= i < |ws| ==> ws[i].ws <= m(ws[i].pitem)
  }

  /** No set is larger than the kernel forces it to be. */
  ghost predicate Least(g: Grammar, k: seq<int>, looks: seq<set<nat>>, ws: seq<WSet>)
    requires g.WellFormed()
  {
    forall m :: LocalSolution(g, k, looks, m) ==> Below(ws, m)
  }

  /** The closure with the least sets that contain those of the kernel. */
  ghost predicate LeastClosure(g: Grammar, k: seq<int>, looks: seq<set<nat>>, ws: seq<WSet>)
    requires g.WellFormed()
  {
    Entries(g, k, looks, ws) && Least(g, k, looks, ws) && forall i :: 0 <= i < |ws| ==> Served(g, ws, i)
  }

  /** Every item of the closure is there. */
  lemma ClosureComplete(g: Grammar, k: seq<int>, looks: seq<set<nat>>, ws: seq<WSet>, x: int) returns (m: nat)
    requires g.WellFormed() && LeastClosure(g, k, looks, ws) && InClosure(g, k, x)
    ensures m < |ws| && ws[m].pitem == x
  {
    hide Least, Contribution, FirstAt, EmptyAt;
    if x in k {
      m :| 0 <= m < |k| && k[m] == x;
    } else {
      var i, r :| i in k && StartsIn(g, SymAt(g, i), r) && x == g.rrhs[r];
      var e :| 0 <= e < |k| && k[e] == i;
      StartReached(g, ws, e, r);
      m :| 0 <= m < |ws| && ws[m].pitem == x;
    }
  }

  /** Rules that the nonterminal after a dot can start with are there. */
  lemma StartReached(g: Grammar, ws: seq<WSet>, e: nat, r: int)
    requires g.WellFormed() && e < |ws| && StartsIn(g, SymAt(g, ws[e].pitem), r) && forall i :: 0 <= i < |ws| ==> Served(g, ws, i)
    ensures StartPresent(g, ws, r)
  {
    hide Served, LeadsTo;
    var u, v := SymAt(g, ws[e].pitem) - g.start, g.rlhs[r] - g.start;
    var n: nat :| Graph.Walk(Leads(g), u, v, n);
    StartsThere(g, ws, u, e);
    PresentClosed(g, ws);
    Graph.WalkStays(Leads(g), Present(g, ws), u, v, n);
    assert RulesPresent(g, ws, v);
  }

  ghost predicate StartPresent(g: Grammar, ws: seq<WSet>, r: int)
    requires g.WellFormed() && 2 <= r < g.nrules
  {
    exists m :: 0 <= m < |ws| && ws[m].pitem == g.rrhs[r]
  }

  /** The nonterminals whose rules are all in the working set. */
  ghost function Present(g: Grammar, ws: seq<WSet>): (s: set<nat>)
    requires g.WellFormed()
    ensures forall v: nat :: v in s <==> v < NVars(g) && RulesPresent(g, ws, v)
  {
    set v: nat | v < NVars(g) && RulesPresent(g, ws, v)
  }

  ghost predicate RulesPresent(g: Grammar, ws: seq<WSet>, v: nat)
    requires g.WellFormed()
  {
    forall r :: 2 <= r < g.nrules && g.rlhs[r] == v + g.start ==> StartPresent(g, ws, r)
  }

  lemma StartsThere(g: Grammar, ws: seq<WSet>, v: int, i: nat)
    requires g.WellFormed() && Served(g, ws, i) && v == SymAt(g, ws[i].pitem) - g.start && 0 <= v < NVars(g)
    ensures v in Present(g, ws)
  {
    forall r | 2 <= r < g.nrules && g.rlhs[r] == v + g.start ensures StartPresent(g, ws, r) {
      assert CallsFor(g, ws[i].pitem, r);
    }
  }

  lemma PresentClosed(g: Grammar, ws: seq<WSet>)
    requires g.WellFormed() && forall i :: 0 <= i < |ws| ==> Served(g, ws, i)
    ensures forall u: nat, v: nat :: u in Present(g, ws) && u < |Leads(g)| && v in Leads(g)[u] ==> v in Present(g, ws)
  {
    hide Served;
    forall u: nat, v: nat | u in Present(g, ws) && u < |Leads(g)| && v in Leads(g)[u] ensures v in Present(g, ws) {
      assert LeadsTo(g, u, v);
      var r :| 2 <= r < g.nrules && g.rlhs[r] == u + g.start && FirstSymbol(g, r) == v + g.start;
      assert StartPresent(g, ws, r);
      var m :| 0 <= m < |ws| && ws[m].pitem == g.rrhs[r];
      StartsThere(g, ws, v, m);
    }
  }

  // ---------------------------------------------------------------------
  // How the working set changes
  // ---------------------------------------------------------------------

  /** Sets only grow; an entry without a flag is as it was. */
  ghost predicate Grown(ws: seq<WSet>, ws': seq<WSet>) {
    |ws| <= |ws'| && (forall i :: |ws| <= i < |ws'| ==> ws'[i].flag) &&
    forall i :: 0 <= i < |ws| ==>
      ws'[i].pitem == ws[i].pitem && ws[i].ws <= ws'[i].ws && (!ws'[i].flag ==> ws'[i] == ws[i])
  }

  lemma HasGrows(ws: seq<WSet>, ws': seq<WSet>, x: int, s: set<nat>)
    requires Grown(ws, ws') && Has(ws, x, s)
    ensures Has(ws', x, s)
  {
    var m :| 0 <= m < |ws| && ws[m].pitem == x && s <= ws[m].ws;
    assert ws'[m].pitem == x;
  }

  /** While the items before `c` are expanded: what an entry without a flag passes on has
      arrived, or is about to, being part of `clset`. */
  ghost predicate Pending(g: Grammar, ws: seq<WSet>, c: int, clset: set<nat>, i: nat)
    requires g.WellFormed()
  {
    i < |ws| &&
    (!ws[i].flag ==> Served(g, ws, i) || (SymAt(g, ws[i].pitem) == c && Contribution(g, ws[i].pitem, ws[i].ws) <= clset))
  }

  lemma PendingKept(g: Grammar, ws: seq<WSet>, ws': seq<WSet>, c: int, clset: set<nat>, i: nat)
    requires g.WellFormed() && Grown(ws, ws') && i < |ws'| && (i < |ws| ==> Pending(g, ws, c, clset, i))
    ensures Pending(g, ws', c, clset, i)
  {
    hide Contribution, Has;
    if !ws'[i].flag && Served(g, ws, i) {
      forall r | CallsFor(g, ws'[i].pitem, r) ensures Has(ws', g.rrhs[r], Contribution(g, ws'[i].pitem, ws'[i].ws)) {
        HasGrows(ws, ws', g.rrhs[r], Contribution(g, ws[i].pitem, ws[i].ws));
      }
    }
  }

  /** Once every rule of `c` has `clset`, nothing is pending. */
  lemma PendingServed(g: Grammar, ws: seq<WSet>, c: int, clset: set<nat>, i: nat)
    requires g.WellFormed() && i < |ws| && Pending(g, ws, c, clset, i) && !ws[i].flag
    requires forall r :: 2 <= r < g.nrules && g.rlhs[r] == c ==> Has(ws, g.rrhs[r], clset)
    ensures Served(g, ws, i)
  {
    hide Contribution;
  }

  /** Every solution has `s` at the rules of `c`. */
  ghost predicate Owed(g: Grammar, k: seq<int>, looks: seq<set<nat>>, c: int, s: set<nat>)
    requires g.WellFormed()
  {
    forall m, r :: LocalSolution(g, k, looks, m) && 2 <= r < g.nrules && g.rlhs[r] == c ==> s <= m(g.rrhs[r])
  }

  lemma ContributionOwed(g: Grammar, k: seq<int>, looks: seq<set<nat>>, ws: seq<WSet>, i: nat, c: int, s: set<nat>)
    requires g.WellFormed() && Entries(g, k, looks, ws) && Least(g, k, looks, ws) && i < |ws| && SymAt(g, ws[i].pitem) == c
    requires c >= g.start && Owed(g, k, looks, c, s)
    ensures Owed(g, k, looks, c, s + Contribution(g, ws[i].pitem, ws[i].ws))
  {
    hide Contribution;
    var x := ws[i].pitem;
    forall m, r | LocalSolution(g, k, looks, m) && 2 <= r < g.nrules && g.rlhs[r] == c
      ensures s + Contribution(g, x, ws[i].ws) <= m(g.rrhs[r])
    {
      assert Below(ws, m);
      ContributionGrows(g, x, ws[i].ws, m(x));
      assert CallsFor(g, x, r);
    }
  }

  // The sets as a sequence, and how much they can still grow.

  ghost function Sets(ws: seq<WSet>): (p: seq<set<nat>>)
    ensures |p| == |ws| && forall i :: 0 <= i < |ws| ==> p[i] == ws[i].ws
  {
    seq(|ws|, i requires 0 <= i < |ws| => ws[i].ws)
  }

  ghost predicate Ahead(g: Grammar, ws: seq<WSet>, ws': seq<WSet>) {
    |ws'| > |ws| || (|ws'| == |ws| && Room(g.start, Sets(ws')) < Room(g.start, Sets(ws)))
  }

  /** There are no more entries than items. */
  lemma EntriesBound(g: Grammar, k: seq<int>, looks: seq<set<nat>>, ws: seq<WSet>)
    requires g.WellFormed() && Entries(g, k, looks, ws)
    ensures |ws| <= |g.ritem|
  {
    var items := seq(|ws|, i requires 0 <= i < |ws| => ws[i].pitem);
    LR0.DistinctBound(items, |g.ritem|);
  }

  // ---------------------------------------------------------------------
  // closure
  // ---------------------------------------------------------------------

  /** No kernel item starts a rule other than that of `$accept`. */
  ghost predicate NoStarts(g: Grammar, k: seq<int>)
    requires g.WellFormed()
  {
    forall i, r :: 0 <= i < |k| && 2 < r < g.nrules ==> k[i] != g.rrhs[r]
  }

  /** The working set and the tables that closure reads. */
  class WorkingSet {
    const g: Grammar
    const pempty: seq<bool>
    const pfirst: seq<set<nat>>
    const pres: seq<seq<nat>>
    var wsets: seq<WSet>

    ghost predicate Tables() {
      g.WellFormed() && NullTable(g, pempty) && DerivesTable(g, pres) &&
      |pfirst| == g.nsyms && forall x :: g.start <= x < g.nsyms ==> pfirst[x] == FirstOf(g, x)
    }

    constructor (g0: Grammar, pempty0: seq<bool>, pfirst0: seq<set<nat>>, pres0: seq<seq<nat>>)
      ensures g == g0 && pempty == pempty0 && pfirst == pfirst0 && pres == pres0
    {
      g, pempty, pfirst, pres, wsets := g0, pempty0, pfirst0, pres0, [];
    }

    /** The state of the working set during the closure of kernel `k`. */
    ghost predicate Closing(k: seq<int>, looks: seq<set<nat>>)
      reads this
    {
      Tables() && Kernel(g, k) && NoStarts(g, k) && Entries(g, k, looks, wsets) && Least(g, k, looks, wsets)
    }

    /** Add to `clset` what follows the dot of `pi` can begin with, and `look` if it can
        be empty. */
    method Lookahead(pi0: int, clset0: set<nat>, look: set<nat>) returns (clset: set<nat>)
      requires Tables() && IsItem(g, pi0) && g.IsVar(g.ritem[pi0])
      ensures clset == clset0 + Contribution(g, pi0, look)
    {
      hide Contribution, Passes, Vanishes, Begins, FirstAt, EmptyAt, FirstBefore, NullTable, FirstOf;
      clset := clset0;
      LR0.NextItem(g, pi0);
      ghost var y := pi0 + 1;
      NoneBefore(g, y);
      var pi := pi0 + 1;
      while g.ritem[pi] >= 0
        invariant IsItem(g, pi) && Passes(g, y, pi)
        invariant forall t: nat :: t in clset <==> t in clset0 || FirstBefore(g, y, pi, t)
        decreases |g.ritem| - pi
      {
        var ch := g.ritem[pi];
        LR0.NextItem(g, pi);
        OneFurther(g, y, pi);
        if ch < g.start {
          TokenIsFirst(g, ch);
          StopsAt(g, y, pi);
          clset := clset + {ch};
          Collected(g, pi0, clset0, look, clset, y, pi + 1);
          return;
        }
        clset := clset + pfirst[ch];
        PemptyIs(g, pempty, ch);
        if !pempty[ch] {
          StopsAt(g, y, pi);
          Collected(g, pi0, clset0, look, clset, y, pi + 1);
          return;
        }
        pi := pi + 1;
      }
      TokenStays(g, g.ritem[pi]);
      StopsAt(g, y, pi);
      EndBeginsNothing(g, y, pi);
      Collected(g, pi0, clset0, look, clset, y, pi + 1);
      clset := clset + look;
    }

    /** The items with `c` after the dot give up their flags; what they pass on. */
    method Gather(ghost k: seq<int>, ghost looks: seq<set<nat>>, j: nat, c: int) returns (clset: set<nat>)
      requires Closing(k, looks) && j < |wsets| && c >= g.start && SymAt(g, wsets[j].pitem) == c
      requires forall i :: 0 <= i < |wsets| && !wsets[i].flag ==> Served(g, wsets, i)
      modifies this`wsets
      ensures Closing(k, looks) && Unflagged(old(wsets), wsets) && !wsets[j].flag
      ensures forall i :: 0 <= i < |wsets| ==> Pending(g, wsets, c, clset, i)
      ensures Owed(g, k, looks, c, clset) && forall t :: t in clset ==> t < g.start
    {
      hide Served, Contribution, Owed, LocalSolution, Entries, Least, Has, Unflagged;
      clset := {};
      NothingOwed(g, k, looks, c, wsets);
      var n := j;
      while n < |wsets|
        invariant j <= n <= |wsets| && |wsets| == |old(wsets)| && (n > j ==> !wsets[j].flag) && SymAt(g, wsets[j].pitem) == c
        invariant Closing(k, looks) && Unflagged(old(wsets), wsets)
        invariant forall i :: 0 <= i < |wsets| ==> Pending(g, wsets, c, clset, i)
        invariant Owed(g, k, looks, c, clset) && forall t :: t in clset ==> t < g.start
      {
        EntryFacts(g, k, looks, wsets, n);
        if wsets[n].flag && g.ritem[wsets[n].pitem] == c {
          clset := GatherOne(k, looks, n, c, clset, old(wsets));
        }
        n := n + 1;
      }
    }

    /** One item of `Gather`. */
    method GatherOne(ghost k: seq<int>, ghost looks: seq<set<nat>>, n: nat, ghost c: int, clset: set<nat>, ghost ws0: seq<WSet>)
      returns (clset': set<nat>)
      requires Closing(k, looks) && n < |wsets| && c >= g.start && SymAt(g, wsets[n].pitem) == c && Unflagged(ws0, wsets)
      requires forall i :: 0 <= i < |wsets| ==> Pending(g, wsets, c, clset, i)
      requires Owed(g, k, looks, c, clset) && forall t :: t in clset ==> t < g.start
      modifies this`wsets
      ensures Closing(k, looks) && Unflagged(ws0, wsets) && wsets == old(wsets)[n := old(wsets[n]).(flag := false)]
      ensures forall i :: 0 <= i < |wsets| ==> Pending(g, wsets, c, clset', i)
      ensures Owed(g, k, looks, c, clset') && forall t :: t in clset' ==> t < g.start
    {
      hide Served, Contribution, Owed, LocalSolution, Entries, Least, Has, Unflagged, Pending;
      EntryFacts(g, k, looks, wsets, n);
      clset' := Lookahead(wsets[n].pitem, clset, wsets[n].ws);
      ContributionTokens(g, wsets[n].pitem, wsets[n].ws);
      ContributionOwed(g, k, looks, wsets, n, c, clset);
      ghost var was := wsets;
      wsets := wsets[n := wsets[n].(flag := false)];
      OneUnflagged(ws0, was, n);
      UnflaggedSame(g, k, looks, was, wsets);
      forall i | 0 <= i < |wsets| ensures Pending(g, wsets, c, clset', i) {
        PendingMore(g, was, wsets, c, clset, clset', i);
      }
    }

    /** Put the first item of rule `r` with `clset` into the closure. */
    method AddItem(ghost k: seq<int>, ghost looks: seq<set<nat>>, ghost c: int, r: nat, clset: set<nat>) returns (more: bool)
      requires Closing(k, looks) && 2 < r < g.nrules && g.rlhs[r] == c && InClosure(g, k, g.rrhs[r])
      requires Owed(g, k, looks, c, clset) && forall t :: t in clset ==> t < g.start
      modifies this`wsets
      ensures Closing(k, looks) && Grown(old(wsets), wsets) && Has(wsets, g.rrhs[r], clset)
      ensures if more then Ahead(g, old(wsets), wsets) else wsets == old(wsets)
    {
      hide Owed, LocalSolution, Least, Has, Ahead, Grown, InClosure, DerivesTable, NullTable;
      var x := g.rrhs[r];
      var i := 0;
      while i < |wsets| && wsets[i].pitem != x
        invariant 0 <= i <= |wsets| && forall e :: 0 <= e < i ==> wsets[e].pitem != x
      {
        i := i + 1;
      }
      if i < |wsets| {
        EntryGrows(g, k, looks, wsets, i, c, r, clset);
        var a;
        a, more := Union(wsets[i].ws, clset);
        if more {
          wsets := wsets[i := WSet(x, true, a)];
        } else {
          AlreadyThere(wsets, i, clset);
        }
      } else {
        EntryAdded(g, k, looks, wsets, c, r, clset);
        wsets := wsets + [WSet(x, true, clset)];
        more := true;
      }
    }

    /** The items before nonterminal `c` pass on what they have to all its rules. */
    method Expand(ghost k: seq<int>, ghost looks: seq<set<nat>>, j: nat, c: int) returns (work: bool)
      requires Closing(k, looks) && j < |wsets| && c >= g.start && SymAt(g, wsets[j].pitem) == c
      requires forall i :: 0 <= i < |wsets| && !wsets[i].flag ==> Served(g, wsets, i)
      modifies this`wsets
      ensures Closing(k, looks) && forall i :: 0 <= i < |wsets| && !wsets[i].flag ==> Served(g, wsets, i)
      ensures if work then Ahead(g, old(wsets), wsets) else Unflagged(old(wsets), wsets) && !wsets[j].flag
    {
      hide Served, Contribution, Owed, LocalSolution, Entries, Least, Has, Unflagged, Pending, Grown, Ahead, CallsFor;
      EntryFacts(g, k, looks, wsets, j);
      RulesCalled(g, k, looks, wsets, j, c);
      var clset := Gather(k, looks, j, c);
      ghost var mid := wsets;
      work := false;
      for s := 0 to |pres[c]|
        invariant Closing(k, looks) && |mid| <= |wsets| && forall i :: 0 <= i < |wsets| ==> Pending(g, wsets, c, clset, i)
        invariant forall e :: 0 <= e < s ==> HasRule(g, wsets, pres[c][e], clset)
        invariant if work then Ahead(g, mid, wsets) else wsets == mid
      {
        var r := pres[c][s];
        assert r in pres[c];
        RuleRange(g, pres, c, r);
        ghost var was := wsets;
        var more := AddItem(k, looks, c, r, clset);
        AfterAdd(g, was, wsets, c, clset, pres[c], s);
        AheadTwice(g, mid, was, wsets);
        work := work || more;
      }
      forall i | 0 <= i < |wsets| && !wsets[i].flag ensures Served(g, wsets, i) {
        AllRules(g, pres, wsets, c, clset);
        PendingServed(g, wsets, c, clset, i);
      }
      AheadUnflagged(g, old(wsets), mid, wsets);
    }

    /** One pass over the working set. */
    method Pass(ghost k: seq<int>, ghost looks: seq<set<nat>>) returns (work: bool)
      requires Closing(k, looks) && forall i :: 0 <= i < |wsets| && !wsets[i].flag ==> Served(g, wsets, i)
      modifies this`wsets
      ensures Closing(k, looks) && forall i :: 0 <= i < |wsets| && !wsets[i].flag ==> Served(g, wsets, i)
      ensures if work then Ahead(g, old(wsets), wsets) else Unflagged(old(wsets), wsets) && forall i :: 0 <= i < |wsets| ==> !wsets[i].flag
    {
      hide Served, LocalSolution, Entries, Least, Ahead, Unflagged;
      work := false;
      var j := 0;
      EntriesBound(g, k, looks, wsets);
      NothingUnflagged(wsets);
      while j < |wsets|
        invariant 0 <= j <= |wsets| <= |g.ritem|
        invariant Closing(k, looks) && forall i :: 0 <= i < |wsets| && !wsets[i].flag ==> Served(g, wsets, i)
        invariant if work then Ahead(g, old(wsets), wsets) else Unflagged(old(wsets), wsets) && forall i :: 0 <= i < j ==> !wsets[i].flag
        decreases |g.ritem| - |wsets|, |wsets| - j
      {
        ghost var was := wsets;
        var more := PassOne(k, looks, j);
        PassStep(g, old(wsets), was, wsets, j);
        EntriesBound(g, k, looks, wsets);
        work := work || more;
        j := j + 1;
      }
    }

    method PassOne(ghost k: seq<int>, ghost looks: seq<set<nat>>, j: nat) returns (work: bool)
      requires Closing(k, looks) && j < |wsets| && forall i :: 0 <= i < |wsets| && !wsets[i].flag ==> Served(g, wsets, i)
      modifies this`wsets
      ensures Closing(k, looks) && forall i :: 0 <= i < |wsets| && !wsets[i].flag ==> Served(g, wsets, i)
      ensures if work then Ahead(g, old(wsets), wsets) else Unflagged(old(wsets), wsets) && !wsets[j].flag
    {
      hide LocalSolution, Entries, Least, Ahead;
      EntryFacts(g, k, looks, wsets, j);
      work := false;
      if wsets[j].flag {
        var c := g.ritem[wsets[j].pitem];
        if c < g.start {
          ghost var was := wsets;
          wsets := wsets[j := wsets[j].(flag := false)];
          UnflaggedSame(g, k, looks, was, wsets);
          forall i | 0 <= i < |wsets| && !wsets[i].flag ensures Served(g, wsets, i) {
            if i != j {
              UnflaggedServed(g, was, wsets, i);
            }
          }
        } else {
          work := Expand(k, looks, j, c);
        }
      }
    }

    /** closure: the kernel `k` with the sets `looks` is completed until nothing grows. */
    method Closure(k: seq<int>, looks: seq<set<nat>>)
      requires Tables() && Kernel(g, k) && NoStarts(g, k) && |looks| == |k|
      requires forall i, t :: 0 <= i < |looks| && t in looks[i] ==> t < g.start
      modifies this`wsets
      ensures LeastClosure(g, k, looks, wsets) && forall i :: 0 <= i < |wsets| ==> !wsets[i].flag
    {
      hide LocalSolution, Served, InClosure;
      wsets := [];
      while |wsets| < |k|
        invariant |wsets| <= |k|
        invariant forall i :: 0 <= i < |wsets| ==> wsets[i] == WSet(k[i], true, looks[i])
      {
        wsets := wsets + [WSet(k[|wsets|], true, looks[|wsets|])];
      }
      KernelEntries(g, k, looks, wsets);
      var work := true;
      while work
        invariant Closing(k, looks) && |wsets| <= |g.ritem|
        invariant forall i :: 0 <= i < |wsets| && !wsets[i].flag ==> Served(g, wsets, i)
        invariant !work ==> forall i :: 0 <= i < |wsets| ==> !wsets[i].flag
        decreases |g.ritem| - |wsets|, Room(g.start, Sets(wsets)), work
      {
        ghost var was := wsets;
        work := Pass(k, looks);
        EntriesBound(g, k, looks, wsets);
        if !work {
          UnflaggedSame(g, k, looks, was, wsets);
        }
      }
    }
  }

  /** The same entries, some of them without their flags. */
  ghost predicate Unflagged(ws: seq<WSet>, ws': seq<WSet>) {
    |ws'| == |ws| && forall i :: 0 <= i < |ws| ==> ws'[i] == ws[i] || ws'[i] == ws[i].(flag := false)
  }

  lemma UnflaggedSame(g: Grammar, k: seq<int>, looks: seq<set<nat>>, ws: seq<WSet>, ws': seq<WSet>)
    requires g.WellFormed() && Unflagged(ws, ws') && Entries(g, k, looks, ws)
    ensures Entries(g, k, looks, ws') && (Least(g, k, looks, ws) ==> Least(g, k, looks, ws')) && Sets(ws') == Sets(ws)
  {
    hide LocalSolution;
    assert forall i :: 0 <= i < |ws| ==> ws'[i].pitem == ws[i].pitem && ws'[i].ws == ws[i].ws;
    assert Sets(ws') == Sets(ws);
  }

  /** Clearing flags keeps what has been served. */
  lemma UnflaggedServed(g: Grammar, ws: seq<WSet>, ws': seq<WSet>, i: nat)
    requires g.WellFormed() && Unflagged(ws, ws') && Served(g, ws, i)
    ensures Served(g, ws', i)
  {
    hide Contribution;
    forall r | CallsFor(g, ws'[i].pitem, r) ensures Has(ws', g.rrhs[r], Contribution(g, ws'[i].pitem, ws'[i].ws)) {
      var m :| 0 <= m < |ws| && ws[m].pitem == g.rrhs[r] && Contribution(g, ws[i].pitem, ws[i].ws) <= ws[m].ws;
      assert ws'[m].pitem == g.rrhs[r];
    }
  }

  lemma PendingMore(g: Grammar, ws: seq<WSet>, ws': seq<WSet>, c: int, clset: set<nat>, clset': set<nat>, i: nat)
    requires g.WellFormed() && Unflagged(ws, ws') && Pending(g, ws, c, clset, i) && clset <= clset'
    requires ws'[i].flag == ws[i].flag || (SymAt(g, ws[i].pitem) == c && Contribution(g, ws[i].pitem, ws[i].ws) <= clset')
    ensures Pending(g, ws', c, clset', i)
  {
    hide Contribution;
    if Served(g, ws, i) {
      UnflaggedServed(g, ws, ws', i);
    }
  }

  /** The union at an entry that is there already. */
  lemma EntryGrows(g: Grammar, k: seq<int>, looks: seq<set<nat>>, ws: seq<WSet>, i: nat, c: int, r: nat, clset: set<nat>)
    requires g.WellFormed() && Entries(g, k, looks, ws) && Least(g, k, looks, ws) && |k| <= i < |ws| && 2 <= r < g.nrules
    requires g.rlhs[r] == c && ws[i].pitem == g.rrhs[r] && Owed(g, k, looks, c, clset) && forall t :: t in clset ==> t < g.start
    ensures var ws' := ws[i := WSet(ws[i].pitem, true, ws[i].ws + clset)];
      Entries(g, k, looks, ws') && Least(g, k, looks, ws') && Grown(ws, ws') && Has(ws', g.rrhs[r], clset) &&
      (!(clset <= ws[i].ws) ==> Ahead(g, ws, ws'))
  {
    hide LocalSolution, Room;
    var ws' := ws[i := WSet(ws[i].pitem, true, ws[i].ws + clset)];
    assert Sets(ws') == Sets(ws)[i := ws[i].ws + clset];
    OneMore(g.start, Sets(ws), i, ws[i].ws + clset);
    assert ws'[i].pitem == g.rrhs[r];
    forall m | LocalSolution(g, k, looks, m) ensures Below(ws', m) {
      assert Below(ws, m);
    }
  }

  /** A new entry. */
  lemma EntryAdded(g: Grammar, k: seq<int>, looks: seq<set<nat>>, ws: seq<WSet>, c: int, r: nat, clset: set<nat>)
    requires g.WellFormed() && Entries(g, k, looks, ws) && Least(g, k, looks, ws) && 2 <= r < g.nrules
    requires g.rlhs[r] == c && (forall i :: 0 <= i < |ws| ==> ws[i].pitem != g.rrhs[r]) && InClosure(g, k, g.rrhs[r])
    requires Owed(g, k, looks, c, clset) && forall t :: t in clset ==> t < g.start
    ensures var ws' := ws + [WSet(g.rrhs[r], true, clset)];
      Entries(g, k, looks, ws') && Least(g, k, looks, ws') && Grown(ws, ws') && Has(ws', g.rrhs[r], clset) && Ahead(g, ws, ws')
  {
    hide LocalSolution, InClosure;
    RuleStart(g, r);
    var ws' := ws + [WSet(g.rrhs[r], true, clset)];
    assert ws'[|ws|].pitem == g.rrhs[r];
    forall m | LocalSolution(g, k, looks, m) ensures Below(ws', m) {
      assert Below(ws, m);
    }
  }

  ghost predicate FirstBefore(g: Grammar, y: int, z: int, t: int)
    requires g.WellFormed()
  {
    exists e :: e < z && Passes(g, y, e) && Begins(g, [SymAt(g, e)], t)
  }

  lemma NoneBefore(g: Grammar, y: int)
    requires g.WellFormed()
    ensures Passes(g, y, y) && forall t :: !FirstBefore(g, y, y, t)
  {
  }

  lemma OneFurther(g: Grammar, y: int, z: int)
    requires g.WellFormed() && Passes(g, y, z)
    ensures forall t :: FirstBefore(g, y, z + 1, t) <==> FirstBefore(g, y, z, t) || Begins(g, [SymAt(g, z)], t)
    ensures Vanishes(g, SymAt(g, z)) ==> Passes(g, y, z + 1)
  {
    hide Begins, Vanishes;
    forall t ensures FirstBefore(g, y, z + 1, t) <==> FirstBefore(g, y, z, t) || Begins(g, [SymAt(g, z)], t) {
    }
  }

  lemma TokenIsFirst(g: Grammar, ch: int)
    requires g.WellFormed() && 0 <= ch < g.start
    ensures !Vanishes(g, ch) && forall t: nat :: Begins(g, [ch], t) <==> t == ch
  {
    TokenStays(g, ch);
    forall t: nat ensures Begins(g, [ch], t) <==> t == ch {
      TokenBegins(g, ch, t);
    }
  }

  /** Nothing is seen behind a symbol that does not vanish. */
  lemma StopsAt(g: Grammar, y: int, z: int)
    requires g.WellFormed() && Passes(g, y, z) && !Vanishes(g, SymAt(g, z))
    ensures forall t :: FirstAt(g, y, t) <==> FirstBefore(g, y, z + 1, t)
    ensures EmptyAt(g, y) <==> SymAt(g, z) < 0
  {
    hide Begins, Vanishes;
    forall t ensures FirstAt(g, y, t) <==> FirstBefore(g, y, z + 1, t) {
    }
    if EmptyAt(g, y) {
      var e :| Passes(g, y, e) && SymAt(g, e) < 0;
      if e < z {
        TokenStays(g, SymAt(g, e));
      }
    }
  }

  lemma EndBeginsNothing(g: Grammar, y: int, z: int)
    requires g.WellFormed() && Passes(g, y, z) && SymAt(g, z) < 0
    ensures forall t :: FirstBefore(g, y, z + 1, t) <==> FirstBefore(g, y, z, t)
  {
    OneFurther(g, y, z);
    forall t ensures FirstBefore(g, y, z + 1, t) <==> FirstBefore(g, y, z, t) {
      TokenBegins(g, SymAt(g, z), t);
    }
  }

  lemma Collected(g: Grammar, x: int, clset0: set<nat>, look: set<nat>, clset: set<nat>, y: int, e: int)
    requires g.WellFormed() && y == x + 1 && e > y
    requires forall t :: FirstAt(g, y, t) <==> FirstBefore(g, y, e, t)
    requires EmptyAt(g, y) <==> SymAt(g, e - 1) < 0
    requires forall t: nat :: t in clset <==> t in clset0 || FirstBefore(g, y, e, t)
    ensures clset + (if SymAt(g, e - 1) < 0 then look else {}) == clset0 + Contribution(g, x, look)
  {
  }

  lemma NothingOwed(g: Grammar, k: seq<int>, looks: seq<set<nat>>, c: int, ws: seq<WSet>)
    requires g.WellFormed()
    ensures Owed(g, k, looks, c, {}) && Unflagged(ws, ws)
  {
  }

  lemma NothingUnflagged(ws: seq<WSet>)
    ensures Unflagged(ws, ws)
  {
  }

  lemma EntryFacts(g: Grammar, k: seq<int>, looks: seq<set<nat>>, ws: seq<WSet>, i: nat)
    requires g.WellFormed() && Entries(g, k, looks, ws) && i < |ws|
    ensures IsItem(g, ws[i].pitem) && SymAt(g, ws[i].pitem) == g.ritem[ws[i].pitem] && InClosure(g, k, ws[i].pitem)
    ensures SymAt(g, ws[i].pitem) >= g.start ==> g.start < SymAt(g, ws[i].pitem) < g.nsyms
    ensures forall t :: t in ws[i].ws ==> t < g.start
    ensures |ws| <= |g.ritem|
  {
    if SymAt(g, ws[i].pitem) >= g.start {
      VarRange(g, ws[i].pitem);
    }
    EntriesBound(g, k, looks, ws);
  }

  lemma OneUnflagged(ws0: seq<WSet>, ws: seq<WSet>, n: nat)
    requires Unflagged(ws0, ws) && n < |ws|
    ensures Unflagged(ws0, ws[n := ws[n].(flag := false)]) && Unflagged(ws, ws[n := ws[n].(flag := false)])
  {
  }

  lemma AlreadyThere(ws: seq<WSet>, i: nat, s: set<nat>)
    requires i < |ws| && s <= ws[i].ws
    ensures Has(ws, ws[i].pitem, s) && Grown(ws, ws)
  {
  }

  ghost predicate HasRule(g: Grammar, ws: seq<WSet>, r: nat, s: set<nat>) {
    r < |g.rrhs| && Has(ws, g.rrhs[r], s)
  }

  /** The rules of the nonterminal after the dot of an entry are in the closure. */
  lemma RulesCalled(g: Grammar, k: seq<int>, looks: seq<set<nat>>, ws: seq<WSet>, j: nat, c: int)
    requires g.WellFormed() && Kernel(g, k) && Entries(g, k, looks, ws) && j < |ws| && SymAt(g, ws[j].pitem) == c && c >= g.start
    ensures forall r :: 2 <= r < g.nrules && g.rlhs[r] == c ==> InClosure(g, k, g.rrhs[r]) && r > 2
  {
    hide InClosure;
    EntryFacts(g, k, looks, ws, j);
    forall r | 2 <= r < g.nrules && g.rlhs[r] == c ensures InClosure(g, k, g.rrhs[r]) && r > 2 {
      ClosureExpands(g, k, ws[j].pitem, r);
    }
  }

  lemma AfterAdd(g: Grammar, ws: seq<WSet>, ws': seq<WSet>, c: int, clset: set<nat>, l: seq<nat>, s: nat)
    requires g.WellFormed() && Grown(ws, ws') && s < |l| && HasRule(g, ws', l[s], clset)
    requires forall i :: 0 <= i < |ws| ==> Pending(g, ws, c, clset, i)
    requires forall e :: 0 <= e < s ==> HasRule(g, ws, l[e], clset)
    ensures |ws| <= |ws'| && forall i :: 0 <= i < |ws'| ==> Pending(g, ws', c, clset, i)
    ensures forall e :: 0 <= e <= s ==> HasRule(g, ws', l[e], clset)
  {
    hide Pending, Has;
    forall i | 0 <= i < |ws'| ensures Pending(g, ws', c, clset, i) {
      PendingKept(g, ws, ws', c, clset, i);
    }
    forall e | 0 <= e < s ensures HasRule(g, ws', l[e], clset) {
      HasGrows(ws, ws', g.rrhs[l[e]], clset);
    }
  }

  lemma AheadTwice(g: Grammar, a: seq<WSet>, b: seq<WSet>, c: seq<WSet>)
    ensures (a == b || Ahead(g, a, b)) && (b == c || Ahead(g, b, c)) ==> a == c || Ahead(g, a, c)
    ensures (a == b && Ahead(g, b, c)) || (Ahead(g, a, b) && (b == c || Ahead(g, b, c))) ==> Ahead(g, a, c)
  {
  }

  lemma AheadUnflagged(g: Grammar, a: seq<WSet>, b: seq<WSet>, c: seq<WSet>)
    requires Unflagged(a, b)
    ensures Ahead(g, b, c) ==> Ahead(g, a, c)
  {
    assert Sets(a) == Sets(b);
  }

  lemma AllRules(g: Grammar, pres: seq<seq<nat>>, ws: seq<WSet>, c: int, clset: set<nat>)
    requires g.WellFormed() && DerivesTable(g, pres) && g.start <= c < g.nsyms
    requires forall e :: 0 <= e < |pres[c]| ==> HasRule(g, ws, pres[c][e], clset)
    ensures forall r :: 2 <= r < g.nrules && g.rlhs[r] == c ==> Has(ws, g.rrhs[r], clset)
  {
    hide Has;
    forall r | 2 <= r < g.nrules && g.rlhs[r] == c ensures Has(ws, g.rrhs[r], clset) {
      assert RuleList(g, c, pres[c], g.nrules);
      assert r in pres[c];
      var e :| 0 <= e < |pres[c]| && pres[c][e] == r;
      assert HasRule(g, ws, pres[c][e], clset);
    }
  }

  lemma PassStep(g: Grammar, a: seq<WSet>, b: seq<WSet>, c: seq<WSet>, j: nat)
    requires (Unflagged(b, c) || Ahead(g, b, c)) && (Unflagged(a, b) || Ahead(g, a, b))
    ensures |b| <= |c|
    ensures Unflagged(a, b) && Unflagged(b, c) ==> Unflagged(a, c) && forall i :: 0 <= i < |b| && !b[i].flag ==> !c[i].flag
    ensures Ahead(g, a, b) || Ahead(g, b, c) ==> Ahead(g, a, c)
  {
    if Unflagged(a, b) {
      assert Sets(a) == Sets(b);
    }
    if Unflagged(b, c) {
      assert Sets(b) == Sets(c);
    }
  }

  lemma KernelEntries(g: Grammar, k: seq<int>, looks: seq<set<nat>>, ws: seq<WSet>)
    requires g.WellFormed() && Kernel(g, k) && |looks| == |k| == |ws|
    requires forall i :: 0 <= i < |ws| ==> ws[i] == WSet(k[i], true, looks[i])
    requires forall i, t :: 0 <= i < |looks| && t in looks[i] ==> t < g.start
    ensures Entries(g, k, looks, ws) && Least(g, k, looks, ws) && |ws| <= |g.ritem|
  {
    forall i | 0 <= i < |ws| ensures IsItem(g, ws[i].pitem) && InClosure(g, k, ws[i].pitem) {
      assert k[i] in k;
    }
    EntriesBound(g, k, looks, ws);
  }
}
