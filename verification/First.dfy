/** The tokens that can come first in what a string of symbols derives: what they mean,
    and that any family of sets closed under the rules contains them. */
module Firsts {
  import opened Grammars
  import opened Closures

  ghost predicate Vanishes(g: Grammar, x: int)
    requires g.WellFormed()
  {
    Derives(g, [x], [])
  }

  /** Tokens do not vanish. */
  lemma TokenStays(g: Grammar, x: int)
    requires g.WellFormed() && x < g.start
    ensures !Vanishes(g, x)
  {
    if Vanishes(g, x) {
      var n: nat :| DerivesIn(g, [x], [], n);
      var c: seq<int>, i: nat, r: nat :| Step(g, [x], c, i, r) && DerivesIn(g, c, [], n - 1);
      NoStepFrom(g, x, c, i, r);
    }
  }

  lemma NoStepFrom(g: Grammar, x: int, c: seq<int>, i: nat, r: nat)
    requires g.WellFormed() && x < g.start
    ensures !Step(g, [x], c, i, r)
  {
    if 2 <= r < g.nrules {
      g.GetRule(r);
    }
  }

  /** `w` derives a string that begins with token `t`. */
  ghost predicate Begins(g: Grammar, w: seq<int>, t: int)
    requires g.WellFormed()
  {
    0 <= t < g.start && exists b :: Derives(g, w, [t] + b)
  }

  /** The first tokens of symbol `x`. */
  ghost function FirstOf(g: Grammar, x: int): (s: set<nat>)
    requires g.WellFormed()
    ensures forall t: nat :: t in s <==> Begins(g, [x], t)
  {
    set t: nat | t < g.start && Begins(g, [x], t)
  }

  /** Symbol `x` has `t` as a first token, as far as the sets in `p` know. */
  ghost predicate Knows(g: Grammar, p: seq<set<nat>>, x: int, t: nat) {
    if x < g.start then x == t else x < |p| && t in p[x]
  }

  /** The first `i` symbols of `w` vanish. */
  ghost predicate Vanishing(g: Grammar, w: seq<int>, i: nat)
    requires g.WellFormed()
  {
    i <= |w| && forall e :: 0 <= e < i ==> Vanishes(g, w[e])
  }

  /** Symbol `i` of `w` supplies token `t` and the ones before it vanish. */
  ghost predicate Supplies(g: Grammar, p: seq<set<nat>>, w: seq<int>, i: nat, t: nat)
    requires g.WellFormed()
  {
    i < |w| && Vanishing(g, w, i) && Knows(g, p, w[i], t)
  }

  /** The sets of the left sides contain what the right sides supply. */
  ghost predicate FirstClosed(g: Grammar, p: seq<set<nat>>)
    requires g.WellFormed()
  {
    |p| == g.nsyms &&
    forall r, i: nat, t: nat :: 2 <= r < g.nrules && g.start <= g.rlhs[r] < g.nsyms && t < g.start && Supplies(g, p, g.Rhs(r), i, t) ==>
      t in p[g.rlhs[r]]
  }

  /** Closed sets supply every token that a string can begin with. */
  lemma {:induction false} FirstInside(g: Grammar, p: seq<set<nat>>, w: seq<int>, t: nat, b: seq<int>, n: nat) returns (i: nat)
    requires g.WellFormed() && FirstClosed(g, p) && t < g.start && DerivesIn(g, w, [t] + b, n)
    ensures Supplies(g, p, w, i, t)
    decreases n
  {
    if n == 0 {
      i := 0;
    } else {
      var c: seq<int>, j: nat, r: nat :| Step(g, w, c, j, r) && DerivesIn(g, c, [t] + b, n - 1);
      var k := FirstInside(g, p, c, t, b, n - 1);
      i := StepBackFirst(g, p, w, c, j, r, k, t);
    }
  }

  lemma StepBackFirst(g: Grammar, p: seq<set<nat>>, w: seq<int>, c: seq<int>, j: nat, r: nat, k: nat, t: nat) returns (i: nat)
    requires g.WellFormed() && FirstClosed(g, p) && t < g.start && Step(g, w, c, j, r) && Supplies(g, p, c, k, t)
    ensures Supplies(g, p, w, i, t)
  {
    g.GetRule(r);
    Stepped(g, w, c, j, r);
    hide Vanishes, Knows, Step;
    var rhs := g.Rhs(r);
    if k < j {
      i := k;
    } else if k < j + |rhs| {
      i := j;
      forall e | 0 <= e < k - j ensures Vanishes(g, rhs[e]) {
        assert c[j + e] == rhs[e];
      }
      assert Supplies(g, p, rhs, k - j, t);
      KnownVar(g, p, w[j], t);
    } else {
      i := k - |rhs| + 1;
      forall e | 0 <= e < |rhs| ensures Vanishes(g, rhs[e]) {
        assert c[j + e] == rhs[e];
      }
      VanishingRule(g, r);
      forall e | 0 <= e < i ensures Vanishes(g, w[e]) {
        if e > j {
          assert c[e - 1 + |rhs|] == w[e];
        }
      }
    }
  }

  /** The symbols before and after a step. */
  lemma Stepped(g: Grammar, w: seq<int>, c: seq<int>, j: nat, r: nat)
    requires g.WellFormed() && Step(g, w, c, j, r)
    ensures 2 <= r < g.nrules && j < |w| && w[j] == g.rlhs[r] && |c| == |w| - 1 + |g.Rhs(r)|
    ensures forall e :: 0 <= e < j ==> c[e] == w[e]
    ensures forall e :: j <= e < j + |g.Rhs(r)| ==> c[e] == g.Rhs(r)[e - j]
    ensures forall e :: j + |g.Rhs(r)| <= e < |c| ==> c[e] == w[e - |g.Rhs(r)| + 1]
  {
  }

  lemma KnownVar(g: Grammar, p: seq<set<nat>>, x: int, t: nat)
    requires g.start <= x < |p| && t in p[x]
    ensures Knows(g, p, x, t)
  {
  }

  lemma VanishingRule(g: Grammar, r: nat)
    requires g.WellFormed() && 2 <= r < g.nrules && Vanishing(g, g.Rhs(r), |g.Rhs(r)|)
    ensures Vanishes(g, g.rlhs[r])
  {
    RuleVanishes(g, r);
  }

  // ---------------------------------------------------------------------
  // The sets of first tokens are closed themselves
  // ---------------------------------------------------------------------

  ghost function FirstSets(g: Grammar): (p: seq<set<nat>>)
    requires g.WellFormed()
    ensures |p| == g.nsyms && forall x :: 0 <= x < g.nsyms ==> p[x] == FirstOf(g, x)
  {
    seq(g.nsyms, x requires 0 <= x => FirstOf(g, x))
  }

  lemma TokenBegins(g: Grammar, x: int, t: int)
    requires g.WellFormed() && x < g.start
    ensures Begins(g, [x], t) <==> 0 <= x == t
  {
    if 0 <= x == t {
      DerivesRefl(g, [x]);
      assert [t] + [] == [x];
    }
    if Begins(g, [x], t) {
      var b, n := BeginsHow(g, [x], t);
      if n > 0 {
        var c: seq<int>, i: nat, r: nat :| Step(g, [x], c, i, r) && DerivesIn(g, c, [t] + b, n - 1);
        NoStepFrom(g, x, c, i, r);
      }
      assert [x][0] == ([t] + b)[0];
    }
  }

  /** A string begins with what one of its symbols begins with, if those before it vanish. */
  lemma BeginsAt(g: Grammar, w: seq<int>, i: nat, t: int)
    requires g.WellFormed() && i < |w| && Vanishing(g, w, i) && Begins(g, [w[i]], t)
    ensures Begins(g, w, t)
  {
    PrefixVanishes(g, w, i);
    hide Derives, DerivesIn, Vanishing;
    var b :| Derives(g, [w[i]], [t] + b);
    RestBegins(g, w, i, t, b);
    DropPrefix(g, w, i);
    Chain(g, w, w[i..], [t] + (b + w[i + 1..]));
  }

  lemma PrefixVanishes(g: Grammar, w: seq<int>, i: nat)
    requires g.WellFormed() && Vanishing(g, w, i)
    ensures Derives(g, w[..i], [])
  {
    AllVanish(g, w[..i]);
  }

  lemma RestBegins(g: Grammar, w: seq<int>, i: nat, t: int, b: seq<int>)
    requires g.WellFormed() && i < |w| && Derives(g, [w[i]], [t] + b)
    ensures Derives(g, w[i..], [t] + (b + w[i + 1..]))
  {
    var s := w[i + 1..];
    assert w[i..] == [] + [w[i]] + s;
    assert [t] + (b + s) == [] + ([t] + b) + s;
    InContext(g, [], [w[i]], [t] + b, s, w[i..], [t] + (b + s));
  }

  lemma DropPrefix(g: Grammar, w: seq<int>, i: nat)
    requires g.WellFormed() && i <= |w| && Derives(g, w[..i], [])
    ensures Derives(g, w, w[i..])
  {
    assert w == [] + w[..i] + w[i..] && w[i..] == [] + [] + w[i..];
    InContext(g, [], w[..i], [], w[i..], w, w[i..]);
  }

  lemma InContext(g: Grammar, p: seq<int>, a: seq<int>, b: seq<int>, s: seq<int>, whole: seq<int>, result: seq<int>)
    requires g.WellFormed() && Derives(g, a, b) && whole == p + a + s && result == p + b + s
    ensures Derives(g, whole, result)
  {
    DerivesContext(g, p, a, b, s);
  }

  lemma Chain(g: Grammar, a: seq<int>, b: seq<int>, c: seq<int>)
    requires g.WellFormed() && Derives(g, a, b) && Derives(g, b, c)
    ensures Derives(g, a, c)
  {
    var n: nat :| DerivesIn(g, a, b, n);
    DerivesInTrans(g, a, b, c, n);
  }

  lemma BeginsHow(g: Grammar, w: seq<int>, t: int) returns (b: seq<int>, n: nat)
    requires g.WellFormed() && Begins(g, w, t)
    ensures DerivesIn(g, w, [t] + b, n)
  {
    b :| Derives(g, w, [t] + b);
    n :| DerivesIn(g, w, [t] + b, n);
  }

  /** What a rule begins with, its left side begins with. */
  lemma RuleBegins(g: Grammar, r: nat, t: int)
    requires g.WellFormed() && 2 <= r < g.nrules && Begins(g, g.Rhs(r), t)
    ensures Begins(g, [g.rlhs[r]], t)
  {
    var b :| Derives(g, g.Rhs(r), [t] + b);
    assert [] + g.Rhs(r) == g.Rhs(r) && [] + [g.rlhs[r]] == [g.rlhs[r]];
    DerivesReduce(g, [], r, [t] + b);
  }

  lemma FirstSetsClosed(g: Grammar)
    requires g.WellFormed()
    ensures FirstClosed(g, FirstSets(g))
  {
    var p := FirstSets(g);
    forall r, i: nat, t: nat | 2 <= r < g.nrules && g.start <= g.rlhs[r] < g.nsyms && t < g.start && Supplies(g, p, g.Rhs(r), i, t)
      ensures t in p[g.rlhs[r]]
    {
      g.GetRule(r);
      SuppliedBegins(g, g.Rhs(r), i, t);
      RuleBegins(g, r, t);
    }
  }

  lemma SuppliedBegins(g: Grammar, w: seq<int>, i: nat, t: nat)
    requires g.WellFormed() && t < g.start && Supplies(g, FirstSets(g), w, i, t) && w[i] < g.nsyms
    ensures Begins(g, w, t)
  {
    if w[i] < g.start {
      TokenBegins(g, w[i], t);
    }
    BeginsAt(g, w, i, t);
  }

  /** The sets of a closed family contain all first tokens. */
  lemma ClosedHasFirsts(g: Grammar, p: seq<set<nat>>, x: int, t: nat)
    requires g.WellFormed() && FirstClosed(g, p) && g.start <= x < g.nsyms && Begins(g, [x], t)
    ensures t in p[x]
  {
    var b, n := BeginsHow(g, [x], t);
    var i := FirstInside(g, p, [x], t, b, n);
  }
}
