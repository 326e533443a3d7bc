/** Parse trees of the packed grammar. */
module Trees {
  import opened Grammars
  import opened Firsts

  datatype Tree = Leaf(token: int) | Node(rule: nat, kids: Forest)

  datatype Forest = Nil | Cons(tree: Tree, rest: Forest)

  function Root(g: Grammar, t: Tree): int {
    match t
    case Leaf(x) => x
    case Node(r, _) => if r < |g.rlhs| then g.rlhs[r] else -1
  }

  function Yield(t: Tree): seq<int> {
    match t
    case Leaf(x) => [x]
    case Node(_, kids) => Yields(kids)
  }

  function Yields(f: Forest): seq<int> {
    match f
    case Nil => []
    case Cons(t, rest) => Yield(t) + Yields(rest)
  }

  ghost predicate TreeOK(g: Grammar, t: Tree)
    requires g.WellFormed()
  {
    match t
    case Leaf(x) => 0 < x < g.start
    case Node(r, kids) => 2 < r < g.nrules && ForestOK(g, kids, g.Rhs(r))
  }

  /** The roots are the symbols `u`. */
  ghost predicate ForestOK(g: Grammar, f: Forest, u: seq<int>)
    requires g.WellFormed()
  {
    match f
    case Nil => u == []
    case Cons(t, rest) => u != [] && TreeOK(g, t) && Root(g, t) == u[0] && ForestOK(g, rest, u[1..])
  }

  // ---------------------------------------------------------------------
  // Trees are derivations
  // ---------------------------------------------------------------------

  lemma {:induction false} TreeDerives(g: Grammar, t: Tree)
    requires g.WellFormed() && TreeOK(g, t)
    ensures Derives(g, [Root(g, t)], Yield(t))
  {
    match t
    case Leaf(x) => DerivesRefl(g, [x]);
    case Node(r, kids) =>
      ForestDerives(g, kids, g.Rhs(r));
      OneStep(g, r);
      Chain(g, [g.rlhs[r]], g.Rhs(r), Yields(kids));
  }

  lemma OneStep(g: Grammar, r: nat)
    requires g.WellFormed() && 2 <= r < g.nrules
    ensures Derives(g, [g.rlhs[r]], g.Rhs(r))
  {
    DerivesRefl(g, g.Rhs(r));
    assert [] + g.Rhs(r) == g.Rhs(r) && [] + [g.rlhs[r]] == [g.rlhs[r]];
    DerivesReduce(g, [], r, g.Rhs(r));
  }

  lemma {:induction false} ForestDerives(g: Grammar, f: Forest, u: seq<int>)
    requires g.WellFormed() && ForestOK(g, f, u)
    ensures Derives(g, u, Yields(f))
  {
    match f
    case Nil => DerivesRefl(g, []);
    case Cons(t, rest) =>
      TreeDerives(g, t);
      ForestDerives(g, rest, u[1..]);
      hide Derives, TreeOK, ForestOK;
      assert u == [] + [u[0]] + u[1..] && Yield(t) + u[1..] == [] + Yield(t) + u[1..];
      InContext(g, [], [u[0]], Yield(t), u[1..], u, Yield(t) + u[1..]);
      assert Yield(t) + u[1..] == Yield(t) + u[1..] + [] && Yield(t) + Yields(rest) == Yield(t) + Yields(rest) + [];
      InContext(g, Yield(t), u[1..], Yields(rest), [], Yield(t) + u[1..], Yield(t) + Yields(rest));
      Chain(g, u, Yield(t) + u[1..], Yield(t) + Yields(rest));
  }

  // ---------------------------------------------------------------------
  // Derivations are trees
  // ---------------------------------------------------------------------

  /** The first `n` trees, and the others. */
  lemma {:induction false} CutForest(g: Grammar, f: Forest, u: seq<int>, v: seq<int>) returns (f1: Forest, f2: Forest)
    requires g.WellFormed() && ForestOK(g, f, u + v)
    ensures ForestOK(g, f1, u) && ForestOK(g, f2, v) && Yields(f) == Yields(f1) + Yields(f2)
    decreases |u|
  {
    if u == [] {
      assert u + v == v;
      f1, f2 := Nil, f;
    } else {
      assert (u + v)[1..] == u[1..] + v;
      f1, f2 := CutForest(g, f.rest, u[1..], v);
      f1 := Cons(f.tree, f1);
    }
  }

  /** A step of a derivation, undone: one more node. */
  lemma {:induction false} StepForest(g: Grammar, f: Forest, p: seq<int>, r: nat, s: seq<int>) returns (f': Forest)
    requires g.WellFormed() && 2 < r < g.nrules && ForestOK(g, f, p + g.Rhs(r) + s)
    ensures ForestOK(g, f', p + [g.rlhs[r]] + s) && Yields(f') == Yields(f)
    decreases |p|
  {
    if p == [] {
      assert p + g.Rhs(r) + s == g.Rhs(r) + s;
      var f1, f2 := CutForest(g, f, g.Rhs(r), s);
      f' := Cons(Node(r, f1), f2);
      assert (p + [g.rlhs[r]] + s)[1..] == s;
    } else {
      assert (p + g.Rhs(r) + s)[1..] == p[1..] + g.Rhs(r) + s;
      f' := StepForest(g, f.rest, p[1..], r, s);
      f' := Cons(f.tree, f');
      assert (p + [g.rlhs[r]] + s)[1..] == p[1..] + [g.rlhs[r]] + s;
    }
  }

  ghost predicate AreTokens(g: Grammar, w: seq<int>) {
    forall i :: 0 <= i < |w| ==> 0 < w[i] < g.start
  }

  lemma {:induction false} LeafForest(g: Grammar, w: seq<int>) returns (f: Forest)
    requires g.WellFormed() && AreTokens(g, w)
    ensures ForestOK(g, f, w) && Yields(f) == w
    decreases |w|
  {
    if w == [] {
      f := Nil;
    } else {
      f := LeafForest(g, w[1..]);
      f := Cons(Leaf(w[0]), f);
    }
  }

  lemma {:induction false} DerivedForest(g: Grammar, u: seq<int>, w: seq<int>, n: nat) returns (f: Forest)
    requires g.WellFormed() && DerivesIn(g, u, w, n) && AreTokens(g, w) && g.start !in u
    ensures ForestOK(g, f, u) && Yields(f) == w
    decreases n
  {
    if n == 0 {
      f := LeafForest(g, w);
    } else {
      var c: seq<int>, i: nat, r: nat :| Step(g, u, c, i, r) && DerivesIn(g, c, w, n - 1);
      NoStartIn(g, r);
      f := DerivedForest(g, c, w, n - 1);
      f := StepForest(g, f, u[..i], r, u[i + 1..]);
      assert u == u[..i] + [g.rlhs[r]] + u[i + 1..];
    }
  }

  lemma NoStartIn(g: Grammar, r: nat)
    requires g.WellFormed() && 2 <= r < g.nrules
    ensures g.start !in g.Rhs(r) && (r == 2 <==> g.rlhs[r] == g.start)
  {
    g.GetRule(r);
  }

  /** Every sentence has a parse tree. */
  lemma SentenceTree(g: Grammar, w: seq<int>) returns (t: Tree)
    requires g.WellFormed() && Derives(g, [g.Goal()], w) && AreTokens(g, w)
    ensures TreeOK(g, t) && Root(g, t) == g.Goal() && Yield(t) == w
  {
    var n: nat :| DerivesIn(g, [g.Goal()], w, n);
    var f := DerivedForest(g, [g.Goal()], w, n);
    t := f.tree;
    assert ForestOK(g, f.rest, []) && Yields(f) == Yield(t) + Yields(f.rest);
  }
}
