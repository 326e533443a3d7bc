/** ex/ex_re.c: the matcher for compiled regular expressions.  A program is a string of
    codes; a starred code matches some number of characters, and a choice of these
    numbers decides everything else.  The matcher finds the greediest choice that works,
    at the leftmost place where any does. */
module Regex {

  const STAR := 1
  const CBRA := 1
  const CDOT := 4
  const CCL := 8
  const NCCL := 12
  const CDOL := 16
  const CEOFC := 17
  const CKET := 18
  const CCHR := 20
  const CBRC := 24
  const CLET := 25
  const NBRA := 9

  // ---------------------------------------------------------------------
  // Characters
  // ---------------------------------------------------------------------

  predicate IsLower(c: int) { 97 <= c <= 122 }

  predicate IsUpper(c: int) { 65 <= c <= 90 }

  predicate IsDigit(c: int) { 48 <= c <= 57 }

  /** uletter: a letter or the underscore. */
  predicate ULetter(c: int) { IsLower(c) || IsUpper(c) || c == 95 }

  /** same, with the option ignorecase given. */
  predicate Same(ignorecase: bool, a: int, b: int) {
    a == b || (ignorecase && ((IsLower(a) && a - 32 == b) || (IsLower(b) && b - 32 == a)))
  }

  /** `c & TRIM` */
  function Trim(c: int): int { c % 128 }

  // ---------------------------------------------------------------------
  // Character classes
  // ---------------------------------------------------------------------

  /** The characters between the brackets: single ones, and ranges `a-b`. */
  ghost predicate InClass(s: seq<int>, c: int) {
    if s == [] then false
    else if |s| > 2 && s[1] == 45 then Trim(s[0]) <= c <= Trim(s[2]) || InClass(s[3..], c)
    else c == Trim(s[0]) || InClass(s[1..], c)
  }

  /** What a class accepts: never the end of the line; with ignorecase capitals count as
      small letters. */
  ghost predicate ClassAccepts(ignorecase: bool, s: seq<int>, c: int, positive: bool) {
    c != 0 && (InClass(s, if ignorecase && IsUpper(c) then c + 32 else c) == positive)
  }

  /** cclass: `set` is the place of the count, which includes itself. */
  method CClass(ignorecase: bool, buf: seq<int>, set_: nat, c0: int, af: bool) returns (r: bool)
    requires set_ < |buf| && buf[set_] >= 1 && set_ + buf[set_] <= |buf|
    ensures r == ClassAccepts(ignorecase, buf[set_ + 1..set_ + buf[set_]], c0, af)
  {
    var c := c0;
    if c == 0 {
      return false;
    }
    if ignorecase && IsUpper(c) {
      c := c + 32;
    }
    var n, p := buf[set_] - 1, set_ + 1;
    ghost var s := buf[set_ + 1..set_ + buf[set_]];
    while n != 0
      invariant 0 <= n && p + n == set_ + buf[set_] && set_ < p
      invariant InClass(s, c) <==> InClass(buf[p..p + n], c)
      decreases n
    {
      ghost var t := buf[p..p + n];
      if n > 2 && buf[p + 1] == 45 {
        if c >= Trim(buf[p]) && c <= Trim(buf[p + 2]) {
          return af;
        }
        assert t[3..] == buf[p + 3..p + n];
        p := p + 3;
        n := n - 3;
      } else {
        if Trim(buf[p]) == c {
          return af;
        }
        assert t[1..] == buf[p + 1..p + n];
        p := p + 1;
        n := n - 1;
      }
    }
    r := !af;
  }

  // ---------------------------------------------------------------------
  // Programs
  // ---------------------------------------------------------------------

  /** Codes that match one character, or with STAR any number. */
  predicate IsSingle(op: int) { op == CDOT || op == CCHR || op == CCL || op == NCCL }

  predicate IsStarred(op: int) { op == CDOT + STAR || op == CCHR + STAR || op == CCL + STAR || op == NCCL + STAR }

  /** The code without STAR. */
  function Plain(op: int): int { if IsStarred(op) then op - STAR else op }

  /** Where the next code is. */
  function Next(buf: seq<int>, ep: nat): int {
    if ep >= |buf| then ep
    else
      var op := Plain(buf[ep]);
      if op == CCHR || op == CBRA || op == CKET then ep + 2
      else if (op == CCL || op == NCCL) && ep + 1 < |buf| then ep + 1 + buf[ep + 1]
      else ep + 1
  }

  /** A program as compile leaves it: known codes, operands inside, an end. */
  ghost predicate Compiled(buf: seq<int>, ep: nat)
    decreases |buf| - ep
  {
    ep < |buf| && CodeOK(buf, ep) && (buf[ep] != CEOFC ==> Next(buf, ep) > ep && Compiled(buf, Next(buf, ep)))
  }

  ghost predicate CodeOK(buf: seq<int>, ep: nat)
    requires ep < |buf|
  {
    var op := Plain(buf[ep]);
    if op == CCHR then ep + 1 < |buf| && buf[ep + 1] > 0
    else if op == CCL || op == NCCL then ep + 1 < |buf| && buf[ep + 1] >= 1 && ep + 1 + buf[ep + 1] <= |buf|
    else if op == CBRA || op == CKET then ep + 1 < |buf| && 0 <= buf[ep + 1] < NBRA
    else op == CDOT || op == CDOL || op == CEOFC || op == CBRC || op == CLET
  }

  /** The code at `ep` accepts character `c`. */
  ghost predicate Accepts(ignorecase: bool, buf: seq<int>, ep: nat, c: int)
    requires ep < |buf| && CodeOK(buf, ep)
  {
    var op := Plain(buf[ep]);
    if op == CCHR then Same(ignorecase, buf[ep + 1], c)
    else if op == CDOT then c != 0
    else if op == CCL || op == NCCL then ClassAccepts(ignorecase, buf[ep + 2..ep + 1 + buf[ep + 1]], c, op == CCL)
    else false
  }

  /** A line is its characters, none of them 0, and a 0. */
  ghost predicate IsLinebuf(line: seq<int>) {
    |line| > 0 && line[|line| - 1] == 0 && forall i :: 0 <= i < |line| - 1 ==> line[i] > 0
  }

  /** Codes that look at a place without moving on. */
  ghost predicate HoldsAt(line: seq<int>, op: int, lp: nat)
    requires lp < |line|
  {
    if op == CDOL then line[lp] == 0
    else if op == CBRC then lp == 0 || ((IsDigit(line[lp]) || ULetter(line[lp])) && !ULetter(line[lp - 1]) && !IsDigit(line[lp - 1]))
    else if op == CLET then !ULetter(line[lp]) && !IsDigit(line[lp])
    else op == CBRA || op == CKET
  }

  ghost predicate AllAccepted(ignorecase: bool, line: seq<int>, buf: seq<int>, ep: nat, lp: nat, n: nat)
    requires ep < |buf| && CodeOK(buf, ep)
  {
    lp + n < |line| && forall i :: lp <= i < lp + n ==> Accepts(ignorecase, buf, ep, line[i])
  }

  // ---------------------------------------------------------------------
  // Matches
  // ---------------------------------------------------------------------

  /** The program from `ep` on matches from `lp` to `end`, its starred codes taking the
      numbers of characters in `counts`. */
  ghost predicate Matches(ignorecase: bool, line: seq<int>, buf: seq<int>, ep: nat, lp: nat, counts: seq<nat>, end: nat)
    requires Compiled(buf, ep)
    decreases |buf| - ep
  {
    lp < |line| &&
    var op := buf[ep];
    if op == CEOFC then counts == [] && end == lp
    else if IsSingle(op) then
      Accepts(ignorecase, buf, ep, line[lp]) && Matches(ignorecase, line, buf, Next(buf, ep), lp + 1, counts, end)
    else if IsStarred(op) then
      counts != [] && AllAccepted(ignorecase, line, buf, ep, lp, counts[0]) &&
      Matches(ignorecase, line, buf, Next(buf, ep), lp + counts[0], counts[1..], end)
    else HoldsAt(line, op, lp) && Matches(ignorecase, line, buf, Next(buf, ep), lp, counts, end)
  }

  /** `a` is as greedy as `b`: at the first difference `a` takes more. */
  ghost predicate AsGreedy(a: seq<nat>, b: seq<nat>) {
    a == [] || b == [] || a[0] > b[0] || (a[0] == b[0] && AsGreedy(a[1..], b[1..]))
  }

  ghost predicate CanMatch(ignorecase: bool, line: seq<int>, buf: seq<int>, ep: nat, lp: nat)
    requires Compiled(buf, ep)
  {
    exists counts, end :: Matches(ignorecase, line, buf, ep, lp, counts, end)
  }

  /** A match with the greediest choice of numbers. */
  ghost predicate Greediest(ignorecase: bool, line: seq<int>, buf: seq<int>, ep: nat, lp: nat, counts: seq<nat>, end: nat)
    requires Compiled(buf, ep)
  {
    Matches(ignorecase, line, buf, ep, lp, counts, end) &&
    forall other, e :: Matches(ignorecase, line, buf, ep, lp, other, e) ==> AsGreedy(counts, other)
  }

  /** The greediest choice is unique, and a choice leaves one end only. */
  lemma {:induction false} MatchEnd(ignorecase: bool, line: seq<int>, buf: seq<int>, ep: nat, lp: nat, counts: seq<nat>, e: nat, f: nat)
    requires Compiled(buf, ep) && Matches(ignorecase, line, buf, ep, lp, counts, e) && Matches(ignorecase, line, buf, ep, lp, counts, f)
    ensures e == f
    decreases |buf| - ep
  {
    var op := buf[ep];
    if op != CEOFC {
      var next := Next(buf, ep);
      if IsSingle(op) {
        MatchEnd(ignorecase, line, buf, next, lp + 1, counts, e, f);
      } else if IsStarred(op) {
        MatchEnd(ignorecase, line, buf, next, lp + counts[0], counts[1..], e, f);
      } else {
        MatchEnd(ignorecase, line, buf, next, lp, counts, e, f);
      }
    }
  }

  lemma {:induction false} MatchCounts(ignorecase: bool, line: seq<int>, buf: seq<int>, ep: nat, lp: nat, counts: seq<nat>, e: nat,
                                       lp': nat, counts': seq<nat>, e': nat)
    requires Compiled(buf, ep) && Matches(ignorecase, line, buf, ep, lp, counts, e) && Matches(ignorecase, line, buf, ep, lp', counts', e')
    ensures |counts| == |counts'|
    decreases |buf| - ep
  {
    var op := buf[ep];
    if op != CEOFC {
      var next := Next(buf, ep);
      if IsSingle(op) {
        MatchCounts(ignorecase, line, buf, next, lp + 1, counts, e, lp' + 1, counts', e');
      } else if IsStarred(op) {
        MatchCounts(ignorecase, line, buf, next, lp + counts[0], counts[1..], e, lp' + counts'[0], counts'[1..], e');
      } else {
        MatchCounts(ignorecase, line, buf, next, lp, counts, e, lp', counts', e');
      }
    }
  }

  lemma {:induction false} GreedyBoth(a: seq<nat>, b: seq<nat>)
    requires |a| == |b| && AsGreedy(a, b) && AsGreedy(b, a)
    ensures a == b
    decreases |a|
  {
    if a != [] {
      GreedyBoth(a[1..], b[1..]);
      assert a == [a[0]] + a[1..] && b == [b[0]] + b[1..];
    }
  }

  lemma GreediestUnique(ignorecase: bool, line: seq<int>, buf: seq<int>, ep: nat, lp: nat, counts: seq<nat>, e: nat, counts': seq<nat>, e': nat)
    requires Compiled(buf, ep) && Greediest(ignorecase, line, buf, ep, lp, counts, e) && Greediest(ignorecase, line, buf, ep, lp, counts', e')
    ensures counts == counts' && e == e'
  {
    MatchCounts(ignorecase, line, buf, ep, lp, counts, e, lp, counts', e');
    GreedyBoth(counts, counts');
    MatchEnd(ignorecase, line, buf, ep, lp, counts, e, e');
  }

  // ---------------------------------------------------------------------
  // The places of \( and \)
  // ---------------------------------------------------------------------

  /** braslist and braelist: where the parentheses by number begin and end. */
  datatype Marks = Marks(starts: seq<int>, ends: seq<int>)

  /** The marks after the program from `ep` on has been followed from `lp` with `counts`. */
  ghost function Marked(buf: seq<int>, ep: nat, lp: nat, counts: seq<nat>, m: Marks): (r: Marks)
    requires Compiled(buf, ep) && |m.starts| == |m.ends| == NBRA
    ensures |r.starts| == |r.ends| == NBRA
    decreases |buf| - ep
  {
    var op := buf[ep];
    if op == CEOFC then m
    else if IsStarred(op) && counts == [] then m
    else if IsStarred(op) then Marked(buf, Next(buf, ep), lp + counts[0], counts[1..], m)
    else if IsSingle(op) then Marked(buf, Next(buf, ep), lp + 1, counts, m)
    else Marked(buf, Next(buf, ep), lp, counts, MarkHere(buf, ep, lp, m))
  }

  ghost function MarkHere(buf: seq<int>, ep: nat, lp: nat, m: Marks): Marks
    requires ep < |buf| && CodeOK(buf, ep) && |m.starts| == |m.ends| == NBRA
  {
    if buf[ep] == CBRA then m.(starts := m.starts[buf[ep + 1] := lp])
    else if buf[ep] == CKET then m.(ends := m.ends[buf[ep + 1] := lp])
    else m
  }

  /** The marks differ only where the program from `ep` on sets them anyway. */
  ghost predicate SetLater(buf: seq<int>, ep: nat, m: Marks, n: Marks) {
    |m.starts| == |m.ends| == |n.starts| == |n.ends| == NBRA &&
    forall i :: 0 <= i < NBRA ==> (m.starts[i] == n.starts[i] || Sets(buf, ep, CBRA, i)) && (m.ends[i] == n.ends[i] || Sets(buf, ep, CKET, i))
  }

  /** The program from `ep` on has code `op` with number `i`. */
  ghost predicate Sets(buf: seq<int>, ep: nat, op: int, i: int)
    decreases |buf| - ep
  {
    ep < |buf| && ((buf[ep] == op && ep + 1 < |buf| && buf[ep + 1] == i) ||
                   (buf[ep] != CEOFC && Next(buf, ep) > ep && Sets(buf, Next(buf, ep), op, i)))
  }

  /** What a failed attempt has left behind in the marks does not matter. */
  lemma {:induction false} MarksForgotten(ignorecase: bool, line: seq<int>, buf: seq<int>, ep: nat, lp: nat, counts: seq<nat>, end: nat, m: Marks, n: Marks)
    requires Compiled(buf, ep) && Matches(ignorecase, line, buf, ep, lp, counts, end) && SetLater(buf, ep, m, n)
    ensures Marked(buf, ep, lp, counts, m) == Marked(buf, ep, lp, counts, n)
    decreases |buf| - ep
  {
    var op := buf[ep];
    var next := Next(buf, ep);
    if op == CEOFC {
      assert forall i :: !Sets(buf, ep, CBRA, i) && !Sets(buf, ep, CKET, i);
      assert m.starts == n.starts && m.ends == n.ends;
    } else if IsSingle(op) {
      MarksForgotten(ignorecase, line, buf, next, lp + 1, counts, end, m, n);
    } else if IsStarred(op) {
      MarksForgotten(ignorecase, line, buf, next, lp + counts[0], counts[1..], end, m, n);
    } else {
      MarksForgotten(ignorecase, line, buf, next, lp, counts, end, MarkHere(buf, ep, lp, m), MarkHere(buf, ep, lp, n));
    }
  }

  // ---------------------------------------------------------------------
  // Steps of the matcher
  // ---------------------------------------------------------------------

  /** Where advance has got to: matching from (`ep0`, `lp0`) has come down to matching from
      (`ep`, `lp`), with the marks `m` set so far. */
  ghost predicate Reached(ignorecase: bool, line: seq<int>, buf: seq<int>, ep0: nat, lp0: nat, m0: Marks, ep: nat, lp: nat, m: Marks)
    requires |m0.starts| == |m0.ends| == |m.starts| == |m.ends| == NBRA
  {
    Compiled(buf, ep0) && Compiled(buf, ep) && lp < |line| && SetLater(buf, ep0, m0, m) &&
    (forall op, i :: Sets(buf, ep, op, i) ==> Sets(buf, ep0, op, i)) &&
    forall counts, end :: SameMatch(ignorecase, line, buf, ep0, lp0, m0, ep, lp, m, counts, end)
  }

  ghost predicate SameMatch(ignorecase: bool, line: seq<int>, buf: seq<int>, ep0: nat, lp0: nat, m0: Marks, ep: nat, lp: nat, m: Marks,
                            counts: seq<nat>, end: nat)
    requires Compiled(buf, ep0) && Compiled(buf, ep) && |m0.starts| == |m0.ends| == |m.starts| == |m.ends| == NBRA
  {
    (Matches(ignorecase, line, buf, ep0, lp0, counts, end) <==> Matches(ignorecase, line, buf, ep, lp, counts, end)) &&
    Marked(buf, ep0, lp0, counts, m0) == Marked(buf, ep, lp, counts, m)
  }

  lemma ReachedStart(ignorecase: bool, line: seq<int>, buf: seq<int>, ep: nat, lp: nat, m: Marks)
    requires Compiled(buf, ep) && lp < |line| && |m.starts| == |m.ends| == NBRA
    ensures Reached(ignorecase, line, buf, ep, lp, m, ep, lp, m)
  {
  }

  /** A code that matches one way only. */
  lemma ReachedStep(ignorecase: bool, line: seq<int>, buf: seq<int>, ep0: nat, lp0: nat, m0: Marks, ep: nat, lp: nat, m: Marks, lp': nat)
    requires |m0.starts| == |m0.ends| == |m.starts| == |m.ends| == NBRA
    requires Reached(ignorecase, line, buf, ep0, lp0, m0, ep, lp, m) && buf[ep] != CEOFC && !IsStarred(buf[ep]) && lp' < |line|
    requires if IsSingle(buf[ep]) then Accepts(ignorecase, buf, ep, line[lp]) && lp' == lp + 1 else HoldsAt(line, buf[ep], lp) && lp' == lp
    ensures Next(buf, ep) > ep &&
      Reached(ignorecase, line, buf, ep0, lp0, m0, Next(buf, ep), lp', if IsSingle(buf[ep]) then m else MarkHere(buf, ep, lp, m))
  {
    var next := Next(buf, ep);
    var m' := if IsSingle(buf[ep]) then m else MarkHere(buf, ep, lp, m);
    forall op, i | Sets(buf, next, op, i) ensures Sets(buf, ep0, op, i) {
      assert Sets(buf, ep, op, i);
    }
    forall i | 0 <= i < NBRA
      ensures m0.starts[i] == m'.starts[i] || Sets(buf, ep0, CBRA, i)
      ensures m0.ends[i] == m'.ends[i] || Sets(buf, ep0, CKET, i)
    {
      assert m'.starts[i] != m.starts[i] ==> Sets(buf, ep, CBRA, i);
      assert m'.ends[i] != m.ends[i] ==> Sets(buf, ep, CKET, i);
    }
    forall counts, end ensures SameMatch(ignorecase, line, buf, ep0, lp0, m0, next, lp', m', counts, end) {
      assert SameMatch(ignorecase, line, buf, ep0, lp0, m0, ep, lp, m, counts, end);
    }
  }

  /** A code that does not match. */
  lemma ReachedStuck(ignorecase: bool, line: seq<int>, buf: seq<int>, ep0: nat, lp0: nat, m0: Marks, ep: nat, lp: nat, m: Marks)
    requires |m0.starts| == |m0.ends| == |m.starts| == |m.ends| == NBRA
    requires Reached(ignorecase, line, buf, ep0, lp0, m0, ep, lp, m) && !CanMatch(ignorecase, line, buf, ep, lp)
    ensures !CanMatch(ignorecase, line, buf, ep0, lp0)
  {
    forall counts, end ensures !Matches(ignorecase, line, buf, ep0, lp0, counts, end) {
      assert SameMatch(ignorecase, line, buf, ep0, lp0, m0, ep, lp, m, counts, end);
    }
  }

  lemma ReachedMatch(ignorecase: bool, line: seq<int>, buf: seq<int>, ep0: nat, lp0: nat, m0: Marks, ep: nat, lp: nat, m: Marks,
                     counts: seq<nat>, end: nat)
    requires |m0.starts| == |m0.ends| == |m.starts| == |m.ends| == NBRA
    requires Reached(ignorecase, line, buf, ep0, lp0, m0, ep, lp, m) && Greediest(ignorecase, line, buf, ep, lp, counts, end)
    ensures Greediest(ignorecase, line, buf, ep0, lp0, counts, end) && Marked(buf, ep0, lp0, counts, m0) == Marked(buf, ep, lp, counts, m)
  {
    assert SameMatch(ignorecase, line, buf, ep0, lp0, m0, ep, lp, m, counts, end);
    forall other, e | Matches(ignorecase, line, buf, ep0, lp0, other, e) ensures AsGreedy(counts, other) {
      assert SameMatch(ignorecase, line, buf, ep0, lp0, m0, ep, lp, m, other, e);
    }
  }

  // ---------------------------------------------------------------------
  // Starred codes
  // ---------------------------------------------------------------------

  /** No match takes more than `n` characters for the starred code at `ep`. */
  ghost predicate NoLonger(ignorecase: bool, line: seq<int>, buf: seq<int>, ep: nat, lp: nat, n: int)
    requires Compiled(buf, ep)
  {
    forall counts, end :: Matches(ignorecase, line, buf, ep, lp, counts, end) ==> counts != [] && counts[0] <= n
  }

  /** The run of accepted characters ends, so no match takes more. */
  lemma RunEnds(ignorecase: bool, line: seq<int>, buf: seq<int>, ep: nat, lp: nat, n: nat)
    requires Compiled(buf, ep) && IsStarred(buf[ep]) && AllAccepted(ignorecase, line, buf, ep, lp, n)
    requires !Accepts(ignorecase, buf, ep, line[lp + n])
    ensures NoLonger(ignorecase, line, buf, ep, lp, n)
  {
    hide AllAccepted, Accepts;
    forall counts, end | Matches(ignorecase, line, buf, ep, lp, counts, end) ensures counts != [] && counts[0] <= n {
      if counts[0] > n {
        RunCovers(ignorecase, line, buf, ep, lp, n, counts[0]);
      }
    }
  }

  lemma RunCovers(ignorecase: bool, line: seq<int>, buf: seq<int>, ep: nat, lp: nat, n: nat, k: nat)
    requires ep < |buf| && CodeOK(buf, ep) && AllAccepted(ignorecase, line, buf, ep, lp, k) && n < k
    ensures lp + n < |line| && Accepts(ignorecase, buf, ep, line[lp + n])
  {
  }

  /** Taking `n` characters leads nowhere. */
  lemma TakeFewer(ignorecase: bool, line: seq<int>, buf: seq<int>, ep: nat, lp: nat, n: nat)
    requires Compiled(buf, ep) && IsStarred(buf[ep]) && NoLonger(ignorecase, line, buf, ep, lp, n)
    requires !CanMatch(ignorecase, line, buf, Next(buf, ep), lp + n)
    ensures NoLonger(ignorecase, line, buf, ep, lp, n - 1)
  {
    hide CanMatch;
    forall counts, end | Matches(ignorecase, line, buf, ep, lp, counts, end) ensures counts != [] && counts[0] <= n - 1 {
      if counts[0] == n {
        MatchShown(ignorecase, line, buf, Next(buf, ep), lp + n, counts[1..], end);
      }
    }
  }

  lemma MatchShown(ignorecase: bool, line: seq<int>, buf: seq<int>, ep: nat, lp: nat, counts: seq<nat>, end: nat)
    requires Compiled(buf, ep) && Matches(ignorecase, line, buf, ep, lp, counts, end)
    ensures CanMatch(ignorecase, line, buf, ep, lp)
  {
  }

  lemma TakeNone(ignorecase: bool, line: seq<int>, buf: seq<int>, ep: nat, lp: nat)
    requires Compiled(buf, ep) && NoLonger(ignorecase, line, buf, ep, lp, -1)
    ensures !CanMatch(ignorecase, line, buf, ep, lp)
  {
  }

  /** Taking `n` characters works, and nothing longer does. */
  lemma TakeThese(ignorecase: bool, line: seq<int>, buf: seq<int>, ep: nat, lp: nat, n: nat, counts: seq<nat>, end: nat, m: Marks)
    requires Compiled(buf, ep) && IsStarred(buf[ep]) && NoLonger(ignorecase, line, buf, ep, lp, n) && lp < |line|
    requires AllAccepted(ignorecase, line, buf, ep, lp, n) && Greediest(ignorecase, line, buf, Next(buf, ep), lp + n, counts, end)
    requires |m.starts| == |m.ends| == NBRA
    ensures Greediest(ignorecase, line, buf, ep, lp, [n] + counts, end)
    ensures Marked(buf, ep, lp, [n] + counts, m) == Marked(buf, Next(buf, ep), lp + n, counts, m)
  {
    hide AllAccepted, CodeOK;
    var all := [n] + counts;
    assert all[1..] == counts;
    forall other, e | Matches(ignorecase, line, buf, ep, lp, other, e) ensures AsGreedy(all, other) {
      if other[0] == n {
        assert Matches(ignorecase, line, buf, Next(buf, ep), lp + n, other[1..], e);
      }
    }
  }

  // ---------------------------------------------------------------------
  // What programs mean
  // ---------------------------------------------------------------------

  /** What stands between brackets: a character, or a range of them. */
  datatype Member = Single(c: int) | Range(lo: int, hi: int)

  datatype Item = Lit(c: int) | Any | Class(members: seq<Member>, positive: bool) | Eol | WordStart | WordEnd | Open(i: nat) | Close(i: nat)

  /** One part of a regular expression, starred or not. */
  datatype Piece = One(item: Item) | Star(item: Item)

  /** A letter, a digit or the underscore, by their codes. */
  predicate IsWordChar(c: int) {
    48 <= c <= 57 || 65 <= c <= 90 || 97 <= c <= 122 || c == 95
  }

  ghost predicate Covers(m: Member, c: int) {
    match m
    case Single(x) => c == x % 128
    case Range(lo, hi) => lo % 128 <= c <= hi % 128
  }

  /** The characters that an item stands for. */
  ghost predicate Takes(ignorecase: bool, x: Item, c: int) {
    match x
    case Lit(d) => c == d || (ignorecase && 97 <= d <= 122 && c == d - 32) || (ignorecase && 97 <= c <= 122 && d == c - 32)
    case Any => c != 0
    case Class(members, positive) =>
      c != 0 && (positive <==> exists m :: m in members && Covers(m, if ignorecase && 65 <= c <= 90 then c + 32 else c))
    case _ => false
  }

  /** The part of the line from `a` to `b` is what the piece stands for. */
  ghost predicate Fits(ignorecase: bool, line: seq<int>, p: Piece, a: nat, b: nat) {
    a <= b < |line| &&
    match p
    case Star(x) => forall i :: a <= i < b ==> Takes(ignorecase, x, line[i])
    case One(Eol) => b == a && a == |line| - 1
    case One(WordStart) => b == a && (a == 0 || (IsWordChar(line[a]) && !IsWordChar(line[a - 1])))
    case One(WordEnd) => b == a && !IsWordChar(line[a])
    case One(Open(_)) => b == a
    case One(Close(_)) => b == a
    case One(x) => b == a + 1 && Takes(ignorecase, x, line[a])
  }

  /** The line is cut so that all pieces fit, one after another. */
  ghost predicate Placed(ignorecase: bool, line: seq<int>, ps: seq<Piece>, cuts: seq<nat>) {
    |cuts| == |ps| + 1 && cuts[0] < |line| && forall k :: 0 <= k < |ps| ==> Fits(ignorecase, line, ps[k], cuts[k], cuts[k + 1])
  }

  /** The codes of the members of a class. */
  function Spelled(members: seq<Member>): seq<int> {
    if members == [] then []
    else (match members[0] case Single(c) => [c] case Range(lo, hi) => [lo, 45, hi]) + Spelled(members[1..])
  }

  /** No single character is followed by what makes a range of it. */
  ghost predicate Unambiguous(members: seq<Member>) {
    members == [] ||
    (Unambiguous(members[1..]) && (members[0].Single? && |Spelled(members)| > 2 ==> Spelled(members)[1] != 45))
  }

  function Code(p: Piece): seq<int> {
    match p
    case One(Lit(c)) => [CCHR, c]
    case Star(Lit(c)) => [CCHR + STAR, c]
    case One(Any) => [CDOT]
    case Star(Any) => [CDOT + STAR]
    case One(Class(members, positive)) => [if positive then CCL else NCCL, |Spelled(members)| + 1] + Spelled(members)
    case Star(Class(members, positive)) => [(if positive then CCL else NCCL) + STAR, |Spelled(members)| + 1] + Spelled(members)
    case One(Eol) => [CDOL]
    case One(WordStart) => [CBRC]
    case One(WordEnd) => [CLET]
    case One(Open(i)) => [CBRA, i]
    case One(Close(i)) => [CKET, i]
    case _ => []
  }

  ghost predicate IsPiece(p: Piece) {
    match p.item
    case Lit(c) => c > 0
    case Any => true
    case Class(members, _) => Unambiguous(members)
    case Open(i) => p.One? && i < NBRA
    case Close(i) => p.One? && i < NBRA
    case _ => p.One?
  }

  ghost predicate ArePieces(ps: seq<Piece>) {
    forall k :: 0 <= k < |ps| ==> IsPiece(ps[k])
  }

  /** The program that stands for the pieces. */
  function Program(ps: seq<Piece>): seq<int> {
    if ps == [] then [CEOFC] else Code(ps[0]) + Program(ps[1..])
  }

  /** Membership in a class, read from its codes, is membership in one of its members. */
  lemma {:induction false} ClassMeans(members: seq<Member>, c: int)
    requires Unambiguous(members)
    ensures InClass(Spelled(members), c) <==> exists m :: m in members && Covers(m, c)
  {
    if members != [] {
      var m, rest, s := members[0], members[1..], Spelled(members);
      ClassMeans(rest, c);
      FirstMember(members, c);
      if Covers(m, c) {
        assert m in members;
      }
      forall x | x in rest && Covers(x, c) ensures x in members {
      }
      forall x | x in members && Covers(x, c) ensures x == m || x in rest {
      }
    }
  }

  lemma FirstMember(members: seq<Member>, c: int)
    requires Unambiguous(members) && members != []
    ensures InClass(Spelled(members), c) <==> Covers(members[0], c) || InClass(Spelled(members[1..]), c)
  {
    var rest, s := Spelled(members[1..]), Spelled(members);
    match members[0]
    case Single(x) =>
      assert s == [x] + rest && s[1..] == rest;
    case Range(lo, hi) =>
      assert s == [lo, 45, hi] + rest && s[3..] == rest;
  }

  /** What the first code of a program is. */
  lemma FirstPiece(ignorecase: bool, buf: seq<int>, ep: nat, ps: seq<Piece>)
    requires ArePieces(ps) && ps != [] && ep <= |buf| && buf[ep..] == Program(ps)
    ensures ep < |buf| && CodeOK(buf, ep) && Next(buf, ep) == ep + |Code(ps[0])| && buf[ep] != CEOFC && Code(ps[0]) != []
    ensures Next(buf, ep) <= |buf| && buf[ep..Next(buf, ep)] == Code(ps[0]) && buf[Next(buf, ep)..] == Program(ps[1..])
    ensures IsStarred(buf[ep]) <==> ps[0].Star?
    ensures IsSingle(buf[ep]) <==> ps[0].One? && (ps[0].item.Lit? || ps[0].item.Any? || ps[0].item.Class?)
  {
    hide Unambiguous, Spelled, IsPiece, CodeOK, Next, Code, IsStarred, IsSingle;
    assert IsPiece(ps[0]);
    PieceHasCode(ps[0]);
    CodeInFront(buf, ep, Code(ps[0]), Program(ps[1..]));
    CodeShape(buf, ep, ps[0]);
  }

  lemma PieceHasCode(p: Piece)
    requires IsPiece(p)
    ensures Code(p) != []
  {
  }

  lemma CodeShape(buf: seq<int>, ep: nat, p: Piece)
    requires IsPiece(p) && Code(p) != [] && ep + |Code(p)| <= |buf| && buf[ep] == Code(p)[0] && (|Code(p)| > 1 ==> buf[ep + 1] == Code(p)[1])
    ensures CodeOK(buf, ep) && Next(buf, ep) == ep + |Code(p)| && buf[ep] != CEOFC
    ensures IsStarred(buf[ep]) <==> p.Star?
    ensures IsSingle(buf[ep]) <==> p.One? && (p.item.Lit? || p.item.Any? || p.item.Class?)
  {
    hide Unambiguous, Spelled;
  }

  lemma CodeInFront(buf: seq<int>, ep: nat, code: seq<int>, rest: seq<int>)
    requires ep <= |buf| && buf[ep..] == code + rest
    ensures ep + |code| <= |buf| && buf[ep..ep + |code|] == code && buf[ep + |code|..] == rest
    ensures code != [] ==> buf[ep] == code[0]
    ensures |code| > 1 ==> buf[ep + 1] == code[1]
  {
    assert buf[ep..][..|code|] == code;
    assert buf[ep..][|code|..] == rest;
  }

  lemma FirstAccepts(ignorecase: bool, buf: seq<int>, ep: nat, ps: seq<Piece>, c: int)
    requires ArePieces(ps) && ps != [] && ep <= |buf| && buf[ep..] == Program(ps) && ep < |buf| && (IsStarred(buf[ep]) || IsSingle(buf[ep]))
    ensures CodeOK(buf, ep) && (Accepts(ignorecase, buf, ep, c) <==> Takes(ignorecase, ps[0].item, c))
  {
    hide Takes, Accepts, Code, CodeOK, Next;
    FirstPiece(ignorecase, buf, ep, ps);
    assert IsPiece(ps[0]);
    ItemMeans(ignorecase, buf, ep, ps[0], c);
  }

  /** A code accepts the characters that its item takes. */
  lemma ItemMeans(ignorecase: bool, buf: seq<int>, ep: nat, p: Piece, c: int)
    requires IsPiece(p) && ep + |Code(p)| <= |buf| && buf[ep..ep + |Code(p)|] == Code(p) && Code(p) != [] && CodeOK(buf, ep)
    requires p.item.Lit? || p.item.Any? || p.item.Class?
    ensures Accepts(ignorecase, buf, ep, c) <==> Takes(ignorecase, p.item, c)
  {
    var code := Code(p);
    assert buf[ep] == code[0] && (|code| > 1 ==> buf[ep + 1] == code[1]);
    if p.item.Class? {
      assert buf[ep + 2..ep + 1 + buf[ep + 1]] == code[2..];
      ClassTakes(ignorecase, p.item.members, c, p.item.positive);
    }
  }

  lemma ClassTakes(ignorecase: bool, members: seq<Member>, c: int, positive: bool)
    requires Unambiguous(members)
    ensures ClassAccepts(ignorecase, Spelled(members), c, positive) <==> Takes(ignorecase, Class(members, positive), c)
  {
    ClassMeans(members, if ignorecase && IsUpper(c) then c + 32 else c);
  }

  lemma LastCode(buf: seq<int>, ep: nat)
    requires ep <= |buf| && buf[ep..] == Program([])
    ensures ep < |buf| && buf[ep] == CEOFC && Compiled(buf, ep)
  {
    assert buf[ep..][0] == CEOFC;
  }

  /** How many characters the first piece takes when the starred ones take `counts`. */
  function Width(p: Piece, counts: seq<nat>): nat {
    match p
    case Star(_) => if counts == [] then 0 else counts[0]
    case One(x) => if x.Lit? || x.Any? || x.Class? then 1 else 0
  }

  function Later(p: Piece, counts: seq<nat>): seq<nat> {
    if p.Star? && counts != [] then counts[1..] else counts
  }

  /** The cuts that the numbers of characters make. */
  function Cuts(ps: seq<Piece>, lp: nat, counts: seq<nat>): (cuts: seq<nat>)
    ensures |cuts| == |ps| + 1 && cuts[0] == lp
  {
    if ps == [] then [lp] else [lp] + Cuts(ps[1..], lp + Width(ps[0], counts), Later(ps[0], counts))
  }

  function Stars(ps: seq<Piece>): nat {
    if ps == [] then 0 else (if ps[0].Star? then 1 else 0) + Stars(ps[1..])
  }

  /** The numbers of characters that cuts stand for. */
  function Counts(ps: seq<Piece>, cuts: seq<nat>): (counts: seq<nat>)
    requires |cuts| == |ps| + 1
  {
    if ps == [] then []
    else
      (if ps[0].Star? then [if cuts[1] >= cuts[0] then cuts[1] - cuts[0] else 0] else []) + Counts(ps[1..], cuts[1..])
  }

  lemma PlacedParts(ignorecase: bool, line: seq<int>, ps: seq<Piece>, cuts: seq<nat>)
    requires ps != [] && |cuts| == |ps| + 1
    ensures Placed(ignorecase, line, ps, cuts) <==>
      cuts[0] < |line| && Fits(ignorecase, line, ps[0], cuts[0], cuts[1]) && Placed(ignorecase, line, ps[1..], cuts[1..])
  {
    hide Fits;
    if Fits(ignorecase, line, ps[0], cuts[0], cuts[1]) && Placed(ignorecase, line, ps[1..], cuts[1..]) {
      forall k | 0 <= k < |ps| ensures Fits(ignorecase, line, ps[k], cuts[k], cuts[k + 1]) {
        if k > 0 {
          assert Fits(ignorecase, line, ps[1..][k - 1], cuts[1..][k - 1], cuts[1..][k]);
        }
      }
    }
    if Placed(ignorecase, line, ps, cuts) {
      FitsInside(ignorecase, line, ps[0], cuts[0], cuts[1]);
      forall k | 0 <= k < |ps[1..]| ensures Fits(ignorecase, line, ps[1..][k], cuts[1..][k], cuts[1..][k + 1]) {
        assert Fits(ignorecase, line, ps[k + 1], cuts[k + 1], cuts[k + 2]);
      }
    }
  }

  lemma FitsInside(ignorecase: bool, line: seq<int>, p: Piece, a: nat, b: nat)
    requires Fits(ignorecase, line, p, a, b)
    ensures a <= b < |line|
  {
  }

  /** The matcher's codes on a program mean what the pieces say. */
  lemma {:induction false} MatchesPlaced(ignorecase: bool, line: seq<int>, buf: seq<int>, ep: nat, ps: seq<Piece>, lp: nat, counts: seq<nat>, end: nat)
    requires IsLinebuf(line) && ArePieces(ps) && ep <= |buf| && buf[ep..] == Program(ps)
    ensures Compiled(buf, ep)
    ensures Matches(ignorecase, line, buf, ep, lp, counts, end) <==>
      |counts| == Stars(ps) && Placed(ignorecase, line, ps, Cuts(ps, lp, counts)) && end == Cuts(ps, lp, counts)[|ps|]
    decreases |ps|
  {
    if ps == [] {
      LastCode(buf, ep);
    } else {
      FirstPiece(ignorecase, buf, ep, ps);
      var next, rest := Next(buf, ep), ps[1..];
      var cuts := Cuts(ps, lp, counts);
      assert cuts[1..] == Cuts(rest, lp + Width(ps[0], counts), Later(ps[0], counts));
      MatchesPlaced(ignorecase, line, buf, next, rest, lp + Width(ps[0], counts), Later(ps[0], counts), end);
      PlacedParts(ignorecase, line, ps, cuts);
      StepMeans(ignorecase, line, buf, ep, ps, lp, counts, end);
    }
  }

  /** One step of a match, in terms of the first piece. */
  lemma StepMeans(ignorecase: bool, line: seq<int>, buf: seq<int>, ep: nat, ps: seq<Piece>, lp: nat, counts: seq<nat>, end: nat)
    requires IsLinebuf(line) && ArePieces(ps) && ps != [] && ep <= |buf| && buf[ep..] == Program(ps)
    requires Next(buf, ep) <= |buf| && Compiled(buf, ep) && Compiled(buf, Next(buf, ep))
    ensures Matches(ignorecase, line, buf, ep, lp, counts, end) <==>
      lp < |line| && (ps[0].Star? ==> counts != []) && Fits(ignorecase, line, ps[0], lp, lp + Width(ps[0], counts)) &&
      Matches(ignorecase, line, buf, Next(buf, ep), lp + Width(ps[0], counts), Later(ps[0], counts), end)
  {
    hide Accepts, Takes, CodeOK, Next, Program, Code, Matches, Fits, AllAccepted, HoldsAt, IsSingle, IsStarred;
    FirstPiece(ignorecase, buf, ep, ps);
    MatchesInside(ignorecase, line, buf, Next(buf, ep), lp + Width(ps[0], counts), Later(ps[0], counts), end);
    MatchesInside(ignorecase, line, buf, ep, lp, counts, end);
    if lp < |line| {
      MatchesHow(ignorecase, line, buf, ep, lp, counts, end);
      if ps[0].Star? {
        if counts != [] {
          RunMeans(ignorecase, line, buf, ep, ps, lp, counts[0]);
        }
      } else if IsSingle(buf[ep]) {
        SingleMeans(ignorecase, line, buf, ep, ps, lp);
      } else {
        PlaceMeans(ignorecase, line, buf, ep, ps, lp);
      }
    }
  }

  /** One step of a match, in terms of the code. */
  lemma MatchesHow(ignorecase: bool, line: seq<int>, buf: seq<int>, ep: nat, lp: nat, counts: seq<nat>, end: nat)
    requires Compiled(buf, ep) && lp < |line| && buf[ep] != CEOFC
    ensures CodeOK(buf, ep) && Compiled(buf, Next(buf, ep))
    ensures IsStarred(buf[ep]) ==>
      (Matches(ignorecase, line, buf, ep, lp, counts, end) <==>
       counts != [] && AllAccepted(ignorecase, line, buf, ep, lp, counts[0]) &&
       Matches(ignorecase, line, buf, Next(buf, ep), lp + counts[0], counts[1..], end))
    ensures IsSingle(buf[ep]) ==>
      (Matches(ignorecase, line, buf, ep, lp, counts, end) <==>
       Accepts(ignorecase, buf, ep, line[lp]) && Matches(ignorecase, line, buf, Next(buf, ep), lp + 1, counts, end))
    ensures !IsStarred(buf[ep]) && !IsSingle(buf[ep]) ==>
      (Matches(ignorecase, line, buf, ep, lp, counts, end) <==>
       HoldsAt(line, buf[ep], lp) && Matches(ignorecase, line, buf, Next(buf, ep), lp, counts, end))
  {
    hide Accepts, AllAccepted, HoldsAt, Next, CodeOK;
  }

  lemma SingleMeans(ignorecase: bool, line: seq<int>, buf: seq<int>, ep: nat, ps: seq<Piece>, lp: nat)
    requires IsLinebuf(line) && ArePieces(ps) && ps != [] && ep <= |buf| && buf[ep..] == Program(ps) && lp < |line|
    requires ep < |buf| && IsSingle(buf[ep])
    ensures CodeOK(buf, ep) && (Accepts(ignorecase, buf, ep, line[lp]) && lp + 1 < |line| <==> Fits(ignorecase, line, ps[0], lp, lp + 1))
    ensures Width(ps[0], []) == 1 && ps[0].One?
  {
    hide Accepts, Program, Code, CodeOK, Next;
    FirstPiece(ignorecase, buf, ep, ps);
    FirstAccepts(ignorecase, buf, ep, ps, line[lp]);
  }

  lemma PlaceMeans(ignorecase: bool, line: seq<int>, buf: seq<int>, ep: nat, ps: seq<Piece>, lp: nat)
    requires IsLinebuf(line) && ArePieces(ps) && ps != [] && ep <= |buf| && buf[ep..] == Program(ps) && lp < |line|
    requires ep < |buf| && !IsSingle(buf[ep]) && !IsStarred(buf[ep])
    ensures HoldsAt(line, buf[ep], lp) <==> Fits(ignorecase, line, ps[0], lp, lp)
    ensures Width(ps[0], []) == 0 && ps[0].One?
  {
    hide CodeOK, Next, Unambiguous, Spelled;
    assert IsPiece(ps[0]);
    FirstPiece(ignorecase, buf, ep, ps);
    assert buf[ep] == Code(ps[0])[0];
  }

  lemma MatchesInside(ignorecase: bool, line: seq<int>, buf: seq<int>, ep: nat, lp: nat, counts: seq<nat>, end: nat)
    requires Compiled(buf, ep)
    ensures Matches(ignorecase, line, buf, ep, lp, counts, end) ==> lp < |line|
  {
  }

  lemma RunMeans(ignorecase: bool, line: seq<int>, buf: seq<int>, ep: nat, ps: seq<Piece>, lp: nat, n: nat)
    requires ArePieces(ps) && ps != [] && ep <= |buf| && buf[ep..] == Program(ps) && ps[0].Star?
    ensures ep < |buf| && CodeOK(buf, ep)
    ensures AllAccepted(ignorecase, line, buf, ep, lp, n) <==> Fits(ignorecase, line, ps[0], lp, lp + n)
  {
    hide Accepts, Takes, Program, Code, CodeOK, Next;
    FirstPiece(ignorecase, buf, ep, ps);
    if lp + n < |line| {
      forall i | lp <= i < lp + n ensures Accepts(ignorecase, buf, ep, line[i]) <==> Takes(ignorecase, ps[0].item, line[i]) {
        FirstAccepts(ignorecase, buf, ep, ps, line[i]);
      }
    }
  }

  /** The numbers that cuts stand for give the cuts back. */
  lemma {:induction false} CountsOfCuts(ignorecase: bool, line: seq<int>, ps: seq<Piece>, cuts: seq<nat>)
    requires ArePieces(ps) && Placed(ignorecase, line, ps, cuts)
    ensures |Counts(ps, cuts)| == Stars(ps) && Cuts(ps, cuts[0], Counts(ps, cuts)) == cuts
    decreases |ps|
  {
    if ps != [] {
      hide Takes;
      var counts := Counts(ps, cuts);
      PlacedParts(ignorecase, line, ps, cuts);
      CountsOfCuts(ignorecase, line, ps[1..], cuts[1..]);
      assert IsPiece(ps[0]);
      assert cuts[1] == cuts[0] + Width(ps[0], counts);
      assert Later(ps[0], counts) == Counts(ps[1..], cuts[1..]);
      assert cuts == [cuts[0]] + cuts[1..];
    }
  }

  /** At the first difference `a` is greater. */
  ghost predicate NoLess(a: seq<nat>, b: seq<nat>) {
    a == b || exists k :: 0 <= k < |a| && k < |b| && a[..k] == b[..k] && a[k] > b[k]
  }

  lemma NoLessBehind(x: nat, a: seq<nat>, b: seq<nat>)
    requires NoLess(a, b)
    ensures NoLess([x] + a, [x] + b)
  {
    if a != b {
      var k :| 0 <= k < |a| && k < |b| && a[..k] == b[..k] && a[k] > b[k];
      var a', b', l := [x] + a, [x] + b, k + 1;
      assert a'[..l] == [x] + a[..k] && b'[..l] == [x] + b[..k] && a'[l] > b'[l];
    }
  }

  /** Greedier numbers make later cuts. */
  lemma {:induction false} GreedyCuts(ps: seq<Piece>, lp: nat, counts: seq<nat>, other: seq<nat>)
    requires |counts| == |other| == Stars(ps) && AsGreedy(counts, other)
    ensures NoLess(Cuts(ps, lp, counts), Cuts(ps, lp, other))
    decreases |ps|
  {
    if ps != [] {
      var rest := ps[1..];
      if ps[0].Star? && counts[0] > other[0] {
        var a, b := Cuts(ps, lp, counts), Cuts(ps, lp, other);
        assert a[..1] == b[..1] && a[1] > b[1];
      } else {
        GreedyCuts(rest, lp + Width(ps[0], counts), Later(ps[0], counts), Later(ps[0], other));
        NoLessBehind(lp, Cuts(rest, lp + Width(ps[0], counts), Later(ps[0], counts)), Cuts(rest, lp + Width(ps[0], counts), Later(ps[0], other)));
      }
    }
  }

  /** The last place of a piece, or -1. */
  ghost function LastAt(ps: seq<Piece>, p: Piece): (k: int)
    ensures -1 <= k < |ps| && (k >= 0 ==> ps[k] == p)
    ensures forall j :: k < j < |ps| ==> ps[j] != p
  {
    if ps == [] then -1
    else
      var r := LastAt(ps[1..], p);
      if r >= 0 then r + 1 else if ps[0] == p then 0 else -1
  }

  /** What a parenthesis records: the last cut that it made. */
  lemma {:induction false} MarkedCuts(ignorecase: bool, line: seq<int>, buf: seq<int>, ep: nat, ps: seq<Piece>, lp: nat, counts: seq<nat>, m: Marks, i: nat)
    requires IsLinebuf(line) && ArePieces(ps) && ep <= |buf| && buf[ep..] == Program(ps) && |counts| == Stars(ps)
    requires |m.starts| == |m.ends| == NBRA && i < NBRA
    ensures Compiled(buf, ep)
    ensures var k := LastAt(ps, One(Open(i)));
      Marked(buf, ep, lp, counts, m).starts[i] == if k < 0 then m.starts[i] else Cuts(ps, lp, counts)[k]
    ensures var k := LastAt(ps, One(Close(i)));
      Marked(buf, ep, lp, counts, m).ends[i] == if k < 0 then m.ends[i] else Cuts(ps, lp, counts)[k]
    decreases |ps|
  {
    hide Matches, Compiled, Marked, MarkHere, Program, Code, Next, LastAt, Cuts, Placed, Stars, ArePieces;
    MatchesPlaced(ignorecase, line, buf, ep, ps, lp, counts, 0);
    if ps == [] {
      NoMarks(buf, ep, lp, counts, m, i);
    } else {
      FirstPiece(ignorecase, buf, ep, ps);
      RestOf(ps, lp, counts, One(Open(i)));
      RestOf(ps, lp, counts, One(Close(i)));
      var m' := if IsStarred(buf[ep]) || IsSingle(buf[ep]) then m else MarkHere(buf, ep, lp, m);
      PieceMarks(buf, ep, ps, lp, m, i);
      MarkedHow(buf, ep, ps, lp, counts, m);
      MarksSize(buf, ep, lp, m);
      MarkedCuts(ignorecase, line, buf, Next(buf, ep), ps[1..], lp + Width(ps[0], counts), Later(ps[0], counts), m', i);
    }
  }

  lemma NoMarks(buf: seq<int>, ep: nat, lp: nat, counts: seq<nat>, m: Marks, i: nat)
    requires ep <= |buf| && buf[ep..] == Program([]) && |m.starts| == |m.ends| == NBRA && Compiled(buf, ep)
    ensures Marked(buf, ep, lp, counts, m) == m && LastAt([], One(Open(i))) == LastAt([], One(Close(i))) == -1
  {
    LastCode(buf, ep);
  }

  lemma MarksSize(buf: seq<int>, ep: nat, lp: nat, m: Marks)
    requires ep < |buf| && CodeOK(buf, ep) && |m.starts| == |m.ends| == NBRA
    ensures |MarkHere(buf, ep, lp, m).starts| == |MarkHere(buf, ep, lp, m).ends| == NBRA
  {
  }

  lemma RestOf(ps: seq<Piece>, lp: nat, counts: seq<nat>, p: Piece)
    requires ps != [] && |counts| == Stars(ps) && ArePieces(ps)
    ensures ArePieces(ps[1..]) && |Later(ps[0], counts)| == Stars(ps[1..])
    ensures var k := LastAt(ps[1..], p); LastAt(ps, p) == if k >= 0 then k + 1 else if ps[0] == p then 0 else -1
    ensures var rest := Cuts(ps[1..], lp + Width(ps[0], counts), Later(ps[0], counts));
      Cuts(ps, lp, counts)[0] == lp && forall k :: 0 <= k < |rest| ==> Cuts(ps, lp, counts)[k + 1] == rest[k]
  {
  }

  lemma PieceMarks(buf: seq<int>, ep: nat, ps: seq<Piece>, lp: nat, m: Marks, i: nat)
    requires ArePieces(ps) && ps != [] && ep <= |buf| && buf[ep..] == Program(ps) && |m.starts| == |m.ends| == NBRA && i < NBRA
    ensures ep < |buf| && CodeOK(buf, ep)
    ensures var m' := if IsStarred(buf[ep]) || IsSingle(buf[ep]) then m else MarkHere(buf, ep, lp, m);
      m'.starts[i] == (if ps[0] == One(Open(i)) then lp else m.starts[i]) && m'.ends[i] == if ps[0] == One(Close(i)) then lp else m.ends[i]
  {
    hide CodeOK, Next, Unambiguous, Spelled;
    assert IsPiece(ps[0]);
    FirstPiece(false, buf, ep, ps);
    CodeInFront(buf, ep, Code(ps[0]), Program(ps[1..]));
  }

  lemma MarkedHow(buf: seq<int>, ep: nat, ps: seq<Piece>, lp: nat, counts: seq<nat>, m: Marks)
    requires ArePieces(ps) && ps != [] && ep <= |buf| && buf[ep..] == Program(ps) && |m.starts| == |m.ends| == NBRA && |counts| == Stars(ps)
    requires Compiled(buf, ep)
    ensures Compiled(buf, Next(buf, ep)) && CodeOK(buf, ep)
    ensures Marked(buf, ep, lp, counts, m) ==
      Marked(buf, Next(buf, ep), lp + Width(ps[0], counts), Later(ps[0], counts),
             if IsStarred(buf[ep]) || IsSingle(buf[ep]) then m else MarkHere(buf, ep, lp, m))
  {
    hide MarkHere, Next, Code, Program;
    FirstPiece(false, buf, ep, ps);
  }

  /** The first place in the line: as far left as possible, and from there every cut in turn
      as far right as possible. */
  ghost predicate FirstPlaced(ignorecase: bool, line: seq<int>, ps: seq<Piece>, circfl: bool, cuts: seq<nat>) {
    Placed(ignorecase, line, ps, cuts) && (circfl ==> cuts[0] == 0) &&
    forall other :: Placed(ignorecase, line, ps, other) && (circfl ==> other[0] == 0) ==>
      cuts[0] < other[0] || (cuts[0] == other[0] && NoLess(cuts, other))
  }

  /** What a search for the pieces answers: whether they are in the line, where the first place
      begins and ends, and where its parentheses are. */
  ghost predicate Answers(ignorecase: bool, line: seq<int>, ps: seq<Piece>, circfl: bool, found: bool, loc1: nat, loc2: nat, marks: Marks) {
    if found then exists cuts :: FirstPlaced(ignorecase, line, ps, circfl, cuts) && IsAnswer(ps, cuts, loc1, loc2, marks)
    else forall cuts :: Placed(ignorecase, line, ps, cuts) ==> circfl && cuts[0] > 0
  }

  ghost predicate IsAnswer(ps: seq<Piece>, cuts: seq<nat>, loc1: nat, loc2: nat, marks: Marks) {
    |cuts| == |ps| + 1 && loc1 == cuts[0] && loc2 == cuts[|ps|] && |marks.starts| == |marks.ends| == NBRA &&
    forall i: nat :: i < NBRA ==>
      (LastAt(ps, One(Open(i))) >= 0 ==> marks.starts[i] == cuts[LastAt(ps, One(Open(i)))]) &&
      (LastAt(ps, One(Close(i))) >= 0 ==> marks.ends[i] == cuts[LastAt(ps, One(Close(i)))])
  }

  /** The result of a search by codes, in terms of the pieces. */
  lemma SearchAnswers(ignorecase: bool, line: seq<int>, buf: seq<int>, ps: seq<Piece>, circfl: bool, found: bool, loc1: nat, loc2: nat,
                      counts: seq<nat>, m: Marks)
    requires IsLinebuf(line) && ArePieces(ps) && buf == Program(ps) && Compiled(buf, 0) && |m.starts| == |m.ends| == NBRA
    requires found <==> exists s :: 0 <= s < |line| && (circfl ==> s == 0) && CanMatch(ignorecase, line, buf, 0, s)
    requires found ==> loc1 < |line| && Greediest(ignorecase, line, buf, 0, loc1, counts, loc2)
    requires found ==> forall s :: 0 <= s < loc1 ==> !CanMatch(ignorecase, line, buf, 0, s)
    requires found && circfl ==> loc1 == 0
    ensures Answers(ignorecase, line, ps, circfl, found, loc1, loc2, if found then Marked(buf, 0, loc1, counts, m) else m)
  {
    hide Placed, Cuts, Counts, Matches, Program, Marked, Stars, NoLess, Compiled, LastAt, ArePieces;
    assert buf[0..] == buf;
    forall cuts | Placed(ignorecase, line, ps, cuts)
      ensures |cuts| == |ps| + 1 && cuts[0] < |line| && CanMatch(ignorecase, line, buf, 0, cuts[0])
      ensures found && cuts[0] == loc1 ==> NoLess(Cuts(ps, loc1, counts), cuts)
    {
      PlacedMatches(ignorecase, line, buf, ps, cuts);
      if found && cuts[0] == loc1 {
        PlacedGreedy(ignorecase, line, buf, ps, loc1, counts, loc2, cuts);
      }
    }
    if found {
      MatchesPlaced(ignorecase, line, buf, 0, ps, loc1, counts, loc2);
      var cuts := Cuts(ps, loc1, counts);
      forall i: nat | i < NBRA
        ensures LastAt(ps, One(Open(i))) >= 0 ==> Marked(buf, 0, loc1, counts, m).starts[i] == cuts[LastAt(ps, One(Open(i)))]
        ensures LastAt(ps, One(Close(i))) >= 0 ==> Marked(buf, 0, loc1, counts, m).ends[i] == cuts[LastAt(ps, One(Close(i)))]
      {
        MarkedCuts(ignorecase, line, buf, 0, ps, loc1, counts, m, i);
      }
      assert FirstPlaced(ignorecase, line, ps, circfl, cuts);
      assert IsAnswer(ps, cuts, loc1, loc2, Marked(buf, 0, loc1, counts, m));
    }
  }

  lemma PlacedMatches(ignorecase: bool, line: seq<int>, buf: seq<int>, ps: seq<Piece>, cuts: seq<nat>)
    requires IsLinebuf(line) && ArePieces(ps) && buf == Program(ps) && Compiled(buf, 0) && Placed(ignorecase, line, ps, cuts)
    ensures |cuts| == |ps| + 1 && cuts[0] < |line| && CanMatch(ignorecase, line, buf, 0, cuts[0])
  {
    hide Matches, Program;
    assert buf[0..] == buf;
    CountsOfCuts(ignorecase, line, ps, cuts);
    MatchesPlaced(ignorecase, line, buf, 0, ps, cuts[0], Counts(ps, cuts), cuts[|ps|]);
  }

  lemma PlacedGreedy(ignorecase: bool, line: seq<int>, buf: seq<int>, ps: seq<Piece>, lp: nat, counts: seq<nat>, end: nat, cuts: seq<nat>)
    requires IsLinebuf(line) && ArePieces(ps) && buf == Program(ps) && Compiled(buf, 0) && Placed(ignorecase, line, ps, cuts)
    requires Greediest(ignorecase, line, buf, 0, lp, counts, end) && |cuts| == |ps| + 1 && cuts[0] == lp
    ensures NoLess(Cuts(ps, lp, counts), cuts)
  {
    hide Matches, Program;
    assert buf[0..] == buf;
    CountsOfCuts(ignorecase, line, ps, cuts);
    MatchesPlaced(ignorecase, line, buf, 0, ps, cuts[0], Counts(ps, cuts), cuts[|ps|]);
    MatchesPlaced(ignorecase, line, buf, 0, ps, lp, counts, end);
    GreedyCuts(ps, lp, counts, Counts(ps, cuts));
  }

  // ---------------------------------------------------------------------
  // Some searches, in terms of the line alone
  // ---------------------------------------------------------------------

  /** The pieces from `at` on are the characters of `w`. */
  ghost predicate Literal(ps: seq<Piece>, at: nat, w: seq<int>) {
    at + |w| <= |ps| && forall k :: 0 <= k < |w| ==> ps[at + k] == One(Lit(w[k]))
  }

  function Lits(w: seq<int>): seq<Piece> {
    seq(|w|, k requires 0 <= k < |w| => One(Lit(w[k])))
  }

  /** The codes of plain characters. */
  function Literals(w: seq<int>): seq<int> {
    if w == [] then [] else [CCHR, w[0]] + Literals(w[1..])
  }

  lemma {:induction false} LiteralsProgram(w: seq<int>, rest: seq<Piece>)
    ensures Program(Lits(w) + rest) == Literals(w) + Program(rest)
    decreases |w|
  {
    var ps := Lits(w) + rest;
    if w == [] {
      assert ps == rest;
    } else {
      assert ps[0] == One(Lit(w[0]));
      assert ps[1..] == Lits(w[1..]) + rest;
      LiteralsProgram(w[1..], rest);
      assert [CCHR, w[0]] + (Literals(w[1..]) + Program(rest)) == [CCHR, w[0]] + Literals(w[1..]) + Program(rest);
    }
  }

  /** `w` stands at place `s` of the line. */
  ghost predicate Occurs(line: seq<int>, w: seq<int>, s: int) {
    0 <= s && s + |w| < |line| && line[s..s + |w|] == w
  }

  /** Plain characters take one place each. */
  lemma {:induction false} LiteralCut(line: seq<int>, ps: seq<Piece>, cuts: seq<nat>, at: nat, w: seq<int>, n: nat)
    requires Placed(false, line, ps, cuts) && Literal(ps, at, w) && n <= |w|
    ensures at + n < |cuts| && cuts[at + n] == cuts[at] + n < |line|
    decreases n
  {
    CutsInside(line, ps, cuts, at + n);
    if n > 0 {
      LiteralCut(line, ps, cuts, at, w, n - 1);
      assert ps[at + (n - 1)] == One(Lit(w[n - 1]));
      assert Fits(false, line, ps[at + n - 1], cuts[at + n - 1], cuts[at + n - 1 + 1]);
    }
  }

  lemma LiteralAt(line: seq<int>, ps: seq<Piece>, cuts: seq<nat>, at: nat, w: seq<int>, k: nat)
    requires Placed(false, line, ps, cuts) && Literal(ps, at, w) && k < |w|
    ensures at < |cuts| && cuts[at] + k < |line| && line[cuts[at] + k] == w[k]
  {
    LiteralCut(line, ps, cuts, at, w, k);
    assert ps[at + k] == One(Lit(w[k]));
    assert Fits(false, line, ps[at + k], cuts[at + k], cuts[at + k + 1]);
  }

  lemma LiteralPlaced(line: seq<int>, ps: seq<Piece>, cuts: seq<nat>, at: nat, w: seq<int>)
    requires Placed(false, line, ps, cuts) && Literal(ps, at, w)
    ensures at + |w| < |cuts| && cuts[at + |w|] == cuts[at] + |w| < |line| && line[cuts[at]..cuts[at] + |w|] == w
  {
    hide Placed, Literal;
    LiteralCut(line, ps, cuts, at, w, |w|);
    forall k | 0 <= k < |w| ensures line[cuts[at]..cuts[at] + |w|][k] == w[k] {
      LiteralAt(line, ps, cuts, at, w, k);
    }
  }

  lemma CutsInside(line: seq<int>, ps: seq<Piece>, cuts: seq<nat>, k: nat)
    requires Placed(false, line, ps, cuts) && k <= |ps|
    ensures k < |cuts| && cuts[k] < |line|
  {
    hide Fits;
    if k > 0 {
      assert Fits(false, line, ps[k - 1], cuts[k - 1], cuts[k]);
      FitsInside(false, line, ps[k - 1], cuts[k - 1], cuts[k]);
    }
  }

  /** A character of `w` fits where it stands. */
  lemma LiteralFits(line: seq<int>, w: seq<int>, s: nat, k: nat)
    requires Occurs(line, w, s) && k < |w|
    ensures Fits(false, line, One(Lit(w[k])), s + k, s + k + 1)
  {
    assert line[s..s + |w|][k] == line[s + k];
  }

  /** Word characters, searched for as a word: between the codes for its beginning and its end. */
  ghost predicate IsWordSearch(buf: seq<int>, w: seq<int>) {
    w != [] && (forall k :: 0 <= k < |w| ==> 48 <= w[k] <= 57 || 65 <= w[k] <= 90 || 97 <= w[k] <= 122 || w[k] == 95) &&
    buf == [CBRC] + Literals(w) + [CLET, CEOFC]
  }

  /** Neither a digit nor a letter nor the underscore. */
  predicate Separates(c: int) {
    !(48 <= c <= 57) && !(65 <= c <= 90) && !(97 <= c <= 122) && c != 95
  }

  /** `w` stands at `s` with nothing that could be part of a word before it or after it. */
  ghost predicate StandsAlone(line: seq<int>, w: seq<int>, s: int) {
    Occurs(line, w, s) && Separates(line[s + |w|]) && (s == 0 || Separates(line[s - 1]))
  }

  /** The search for a word finds the first place where it stands alone. */
  ghost predicate FindsWord(line: seq<int>, w: seq<int>, found: bool, loc1: nat, loc2: nat) {
    (found <==> exists s :: StandsAlone(line, w, s)) &&
    (found ==> StandsAlone(line, w, loc1) && loc2 == loc1 + |w| && forall s :: s < loc1 ==> !StandsAlone(line, w, s))
  }

  function WordPieces(w: seq<int>): seq<Piece> {
    [One(WordStart)] + Lits(w) + [One(WordEnd)]
  }

  lemma WordProgram(buf: seq<int>, w: seq<int>)
    requires IsWordSearch(buf, w)
    ensures ArePieces(WordPieces(w)) && buf == Program(WordPieces(w))
  {
    var ps := WordPieces(w);
    var rest := [One(WordEnd)];
    assert ps[1..] == Lits(w) + rest;
    LiteralsProgram(w, rest);
    assert rest[1..] == [];
    assert Program(rest) == [CLET, CEOFC];
    assert [CBRC] + (Literals(w) + [CLET, CEOFC]) == [CBRC] + Literals(w) + [CLET, CEOFC];
  }

  lemma WordPlaced(line: seq<int>, w: seq<int>, cuts: seq<nat>)
    requires IsLinebuf(line) && IsWordSearch([CBRC] + Literals(w) + [CLET, CEOFC], w) && Placed(false, line, WordPieces(w), cuts)
    ensures |cuts| == |w| + 3 && StandsAlone(line, w, cuts[0]) && cuts[|w| + 2] == cuts[0] + |w|
  {
    hide Literals, Placed, IsWordChar, Separates, Fits, WordPieces, IsWordSearch, Literal;
    var ps := WordPieces(w);
    WordShape(w);
    LiteralPlaced(line, ps, cuts, 1, w);
    PlacedAt(line, ps, cuts, 0);
    PlacedAt(line, ps, cuts, |w| + 1);
    WordEdges(line, cuts[0], cuts[1]);
    WordEdges(line, cuts[|w| + 1], cuts[|w| + 2]);
  }

  lemma WordShape(w: seq<int>)
    ensures |WordPieces(w)| == |w| + 2 && WordPieces(w)[0] == One(WordStart) && WordPieces(w)[|w| + 1] == One(WordEnd)
    ensures Literal(WordPieces(w), 1, w)
  {
  }

  lemma PlacedAt(line: seq<int>, ps: seq<Piece>, cuts: seq<nat>, k: nat)
    requires Placed(false, line, ps, cuts) && k < |ps|
    ensures |cuts| == |ps| + 1 && Fits(false, line, ps[k], cuts[k], cuts[k + 1])
  {
    hide Fits;
  }

  /** What the codes for the beginning and the end of a word ask of the line. */
  lemma WordEdges(line: seq<int>, a: nat, b: nat)
    ensures Fits(false, line, One(WordStart), a, b) ==> a == b < |line| && (a == 0 || Separates(line[a - 1]))
    ensures Fits(false, line, One(WordEnd), a, b) ==> a == b < |line| && Separates(line[a])
  {
  }

  lemma WordFits(line: seq<int>, w: seq<int>, s: nat) returns (cuts: seq<nat>)
    requires IsLinebuf(line) && IsWordSearch([CBRC] + Literals(w) + [CLET, CEOFC], w) && StandsAlone(line, w, s)
    ensures Placed(false, line, WordPieces(w), cuts) && cuts[0] == s
  {
    var ps := WordPieces(w);
    cuts := seq(|w| + 3, k => if k == 0 then s else if k <= |w| + 1 then s + (k - 1) else s + |w|);
    assert line[s..s + |w|][0] == w[0];
    forall k | 0 <= k < |ps| ensures Fits(false, line, ps[k], cuts[k], cuts[k + 1]) {
      if 0 < k <= |w| {
        LiteralFits(line, w, s, k - 1);
      }
    }
  }

  lemma WordFound(line: seq<int>, buf: seq<int>, w: seq<int>, found: bool, loc1: nat, loc2: nat, marks: Marks)
    requires IsLinebuf(line) && IsWordSearch(buf, w) && Answers(false, line, WordPieces(w), false, found, loc1, loc2, marks)
    ensures FindsWord(line, w, found, loc1, loc2)
  {
    hide Placed, StandsAlone, NoLess, Literals;
    var ps := WordPieces(w);
    forall s | StandsAlone(line, w, s) ensures found && loc1 <= s {
      StandsInside(line, w, s);
      var cuts := WordFits(line, w, s);
      PlacedSize(false, line, ps, cuts);
    }
    if found {
      var cuts :| FirstPlaced(false, line, ps, false, cuts) && IsAnswer(ps, cuts, loc1, loc2, marks);
      WordPlaced(line, w, cuts);
    }
  }

  lemma StandsInside(line: seq<int>, w: seq<int>, s: int)
    requires StandsAlone(line, w, s)
    ensures s >= 0
  {
  }

  lemma PlacedSize(ignorecase: bool, line: seq<int>, ps: seq<Piece>, cuts: seq<nat>)
    requires Placed(ignorecase, line, ps, cuts)
    ensures |cuts| == |ps| + 1 && cuts[0] < |line|
  {
  }

  /** Plain characters, searched for at the end of the line. */
  ghost predicate IsEndSearch(buf: seq<int>, w: seq<int>) {
    (forall k :: 0 <= k < |w| ==> w[k] > 0) && buf == Literals(w) + [CDOL, CEOFC]
  }

  /** Such a search finds the end of the line or nothing. */
  ghost predicate FindsEnd(line: seq<int>, w: seq<int>, found: bool, loc1: nat, loc2: nat) {
    (found <==> Occurs(line, w, |line| - 1 - |w|)) && (found ==> loc1 == |line| - 1 - |w| && loc2 == |line| - 1)
  }

  function EndPieces(w: seq<int>): seq<Piece> {
    Lits(w) + [One(Eol)]
  }

  lemma EndProgram(buf: seq<int>, w: seq<int>)
    requires IsEndSearch(buf, w)
    ensures ArePieces(EndPieces(w)) && buf == Program(EndPieces(w))
  {
    var rest := [One(Eol)];
    LiteralsProgram(w, rest);
    assert rest[1..] == [];
    assert Program(rest) == [CDOL, CEOFC];
  }

  lemma EndPlaced(line: seq<int>, w: seq<int>, cuts: seq<nat>)
    requires IsLinebuf(line) && Placed(false, line, EndPieces(w), cuts)
    ensures |cuts| == |w| + 2 && Occurs(line, w, |line| - 1 - |w|) && cuts[0] == |line| - 1 - |w| && cuts[|w| + 1] == |line| - 1
  {
    var ps := EndPieces(w);
    hide Takes;
    assert Fits(false, line, ps[|w|], cuts[|w|], cuts[|w| + 1]);
    LiteralPlaced(line, ps, cuts, 0, w);
  }

  lemma EndFits(line: seq<int>, w: seq<int>) returns (cuts: seq<nat>)
    requires IsLinebuf(line) && Occurs(line, w, |line| - 1 - |w|)
    ensures Placed(false, line, EndPieces(w), cuts)
  {
    var ps, s := EndPieces(w), |line| - 1 - |w|;
    cuts := seq(|w| + 2, k => if k <= |w| then s + k else |line| - 1);
    forall k | 0 <= k < |ps| ensures Fits(false, line, ps[k], cuts[k], cuts[k + 1]) {
      if k < |w| {
        LiteralFits(line, w, s, k);
      }
    }
  }

  lemma EndFound(line: seq<int>, buf: seq<int>, w: seq<int>, found: bool, loc1: nat, loc2: nat, marks: Marks)
    requires IsLinebuf(line) && IsEndSearch(buf, w) && Answers(false, line, EndPieces(w), false, found, loc1, loc2, marks)
    ensures FindsEnd(line, w, found, loc1, loc2)
  {
    hide Placed, NoLess, Literals;
    var ps := EndPieces(w);
    if Occurs(line, w, |line| - 1 - |w|) {
      var cuts := EndFits(line, w);
      PlacedSize(false, line, ps, cuts);
    }
    if found {
      var cuts :| FirstPlaced(false, line, ps, false, cuts) && IsAnswer(ps, cuts, loc1, loc2, marks);
      EndPlaced(line, w, cuts);
    }
  }

  function BetweenPieces(u: seq<int>, v: seq<int>): seq<Piece> {
    Lits(u) + [Star(Any)] + Lits(v)
  }

  /** A search for `u`, anything, and `v`: from the first `u` that has a `v` behind it to the last
      such `v`. */
  lemma BetweenFound(line: seq<int>, u: seq<int>, v: seq<int>, found: bool, loc1: nat, loc2: nat, marks: Marks)
    requires IsLinebuf(line) && Answers(false, line, BetweenPieces(u, v), false, found, loc1, loc2, marks)
    ensures found <==> exists s, t :: Occurs(line, u, s) && Occurs(line, v, t) && s + |u| <= t
    ensures found ==> Occurs(line, u, loc1) && Occurs(line, v, loc2 - |v|) && loc1 + |u| <= loc2 - |v|
    ensures found ==> forall s, t :: Occurs(line, u, s) && Occurs(line, v, t) && s + |u| <= t ==> loc1 <= s
    ensures found ==> forall t :: Occurs(line, v, t) && loc1 + |u| <= t ==> t <= loc2 - |v|
  {
    hide Placed, NoLess;
    var ps := BetweenPieces(u, v);
    forall s, t | Occurs(line, u, s) && Occurs(line, v, t) && s + |u| <= t ensures found && loc1 <= s {
      var cuts := BetweenFits(line, u, v, s, t);
      PlacedSize(false, line, ps, cuts);
    }
    if found {
      var cuts :| FirstPlaced(false, line, ps, false, cuts) && IsAnswer(ps, cuts, loc1, loc2, marks);
      BetweenPlaced(line, u, v, cuts);
      forall t | Occurs(line, v, t) && loc1 + |u| <= t ensures t <= loc2 - |v| {
        var other := BetweenFits(line, u, v, loc1, t);
        PlacedSize(false, line, ps, other);
        assert NoLess(cuts, other);
        BetweenLess(line, u, v, cuts, other);
      }
    }
  }

  lemma BetweenPlaced(line: seq<int>, u: seq<int>, v: seq<int>, cuts: seq<nat>)
    requires Placed(false, line, BetweenPieces(u, v), cuts)
    ensures |cuts| == |u| + |v| + 2 && Occurs(line, u, cuts[0]) && Occurs(line, v, cuts[|u| + 1])
    ensures cuts[|u| + |v| + 1] == cuts[|u| + 1] + |v| && cuts[0] + |u| == cuts[|u|] <= cuts[|u| + 1]
  {
    var ps := BetweenPieces(u, v);
    hide Takes;
    assert Fits(false, line, ps[|u|], cuts[|u|], cuts[|u| + 1]);
    LiteralPlaced(line, ps, cuts, 0, u);
    LiteralPlaced(line, ps, cuts, |u| + 1, v);
  }

  lemma BetweenFits(line: seq<int>, u: seq<int>, v: seq<int>, s: int, t: int) returns (cuts: seq<nat>)
    requires IsLinebuf(line) && Occurs(line, u, s) && Occurs(line, v, t) && s + |u| <= t
    ensures Placed(false, line, BetweenPieces(u, v), cuts) && cuts[0] == s && cuts[|u| + 1] == t
  {
    var ps := BetweenPieces(u, v);
    cuts := seq(|u| + |v| + 2, k requires 0 <= k => if k <= |u| then s + k else t + (k - |u| - 1));
    forall k | 0 <= k < |ps| ensures Fits(false, line, ps[k], cuts[k], cuts[k + 1]) {
      if k < |u| {
        LiteralFits(line, u, s, k);
      } else if k > |u| {
        LiteralFits(line, v, t, k - |u| - 1);
      }
    }
  }

  /** What is no less with the same beginning has the star no shorter. */
  lemma BetweenLess(line: seq<int>, u: seq<int>, v: seq<int>, cuts: seq<nat>, other: seq<nat>)
    requires Placed(false, line, BetweenPieces(u, v), cuts) && Placed(false, line, BetweenPieces(u, v), other) && NoLess(cuts, other)
    requires cuts[0] == other[0]
    ensures |cuts| == |other| == |u| + |v| + 2 && cuts[|u| + 1] >= other[|u| + 1]
  {
    var ps := BetweenPieces(u, v);
    if cuts != other {
      var k :| 0 <= k < |cuts| && k < |other| && cuts[..k] == other[..k] && cuts[k] > other[k];
      if k <= |u| {
        LiteralCut(line, ps, cuts, 0, u, k);
        LiteralCut(line, ps, other, 0, u, k);
      } else if k > |u| + 1 {
        assert cuts[..k][|u| + 1] == other[..k][|u| + 1];
      }
    }
  }

  function ParenPieces(u: seq<int>, v: seq<int>, x: seq<int>): seq<Piece> {
    Lits(u) + [One(Open(0))] + Lits(v) + [One(Close(0))] + Lits(x)
  }

  /** A search for `u`, `v` in parentheses, and `x` records where `v` stands. */
  lemma ParenFound(line: seq<int>, u: seq<int>, v: seq<int>, x: seq<int>, found: bool, loc1: nat, loc2: nat, marks: Marks)
    requires IsLinebuf(line) && Answers(false, line, ParenPieces(u, v, x), false, found, loc1, loc2, marks) && found
    ensures Occurs(line, u + v + x, loc1) && loc2 == loc1 + |u| + |v| + |x| && |marks.starts| == |marks.ends| == NBRA
    ensures marks.starts[0] == loc1 + |u| && marks.ends[0] == loc1 + |u| + |v| && line[marks.starts[0]..marks.ends[0]] == v
  {
    hide FirstPlaced, NoLess, Placed, Fits, LastAt, ParenPieces;
    var ps := ParenPieces(u, v, x);
    var cuts :| FirstPlaced(false, line, ps, false, cuts) && IsAnswer(ps, cuts, loc1, loc2, marks);
    FirstIsPlaced(false, line, ps, false, cuts);
    ParenShape(u, v, x);
    ParenPlaced(line, u, v, x, cuts);
    assert line[loc1..loc2] == line[loc1..loc1 + |u|] + line[loc1 + |u|..loc1 + |u| + |v|] + line[loc1 + |u| + |v|..loc2];
  }

  lemma ParenShape(u: seq<int>, v: seq<int>, x: seq<int>)
    ensures LastAt(ParenPieces(u, v, x), One(Open(0))) == |u| && LastAt(ParenPieces(u, v, x), One(Close(0))) == |u| + 1 + |v|
    ensures |ParenPieces(u, v, x)| == |u| + |v| + |x| + 2
  {
    hide LastAt;
    OnlyAt(ParenPieces(u, v, x), One(Open(0)), |u|);
    OnlyAt(ParenPieces(u, v, x), One(Close(0)), |u| + 1 + |v|);
  }

  lemma FirstIsPlaced(ignorecase: bool, line: seq<int>, ps: seq<Piece>, circfl: bool, cuts: seq<nat>)
    requires FirstPlaced(ignorecase, line, ps, circfl, cuts)
    ensures Placed(ignorecase, line, ps, cuts)
  {
  }

  lemma OnlyAt(ps: seq<Piece>, p: Piece, k: nat)
    requires k < |ps| && ps[k] == p && forall j :: 0 <= j < |ps| && j != k ==> ps[j] != p
    ensures LastAt(ps, p) == k
  {
    var l := LastAt(ps, p);
  }

  lemma ParenPlaced(line: seq<int>, u: seq<int>, v: seq<int>, x: seq<int>, cuts: seq<nat>)
    requires Placed(false, line, ParenPieces(u, v, x), cuts)
    ensures |cuts| == |u| + |v| + |x| + 3 && cuts[|u|] == cuts[0] + |u| && cuts[|u| + 1 + |v|] == cuts[0] + |u| + |v|
    ensures cuts[|cuts| - 1] == cuts[0] + |u| + |v| + |x| < |line| && line[cuts[0]..cuts[0] + |u|] == u
    ensures line[cuts[0] + |u|..cuts[0] + |u| + |v|] == v && line[cuts[0] + |u| + |v|..cuts[|cuts| - 1]] == x
  {
    var ps := ParenPieces(u, v, x);
    hide Takes;
    var o, c := |u|, |u| + 1 + |v|;
    assert ps[o] == One(Open(0)) && ps[c] == One(Close(0));
    assert Fits(false, line, ps[o], cuts[o], cuts[o + 1]);
    assert Fits(false, line, ps[c], cuts[c], cuts[c + 1]);
    LiteralPlaced(line, ps, cuts, 0, u);
    LiteralPlaced(line, ps, cuts, o + 1, v);
    LiteralPlaced(line, ps, cuts, c + 1, x);
  }

  // ---------------------------------------------------------------------
  // The matcher
  // ---------------------------------------------------------------------

  class Matcher {
    const ignorecase: bool
    const line: seq<int>
    const expbuf: seq<int>
    const braslist: array<int>
    const braelist: array<int>
    var loc1: nat
    var loc2: nat

    ghost predicate Valid() {
      IsLinebuf(line) && braslist.Length == braelist.Length == NBRA && braslist != braelist
    }

    ghost function View(): Marks
      reads braslist, braelist
    {
      Marks(braslist[..], braelist[..])
    }

    constructor (l: seq<int>, program: seq<int>, ic: bool)
      requires IsLinebuf(l)
      ensures Valid() && line == l && expbuf == program && ignorecase == ic && fresh(braslist) && fresh(braelist)
    {
      line, expbuf, ignorecase, loc1, loc2 := l, program, ic, 0, 0;
      braslist := new int[NBRA](_ => 0);
      braelist := new int[NBRA](_ => 0);
    }

    /** One character against the code at `ep`, starred or not. */
    method TestChar(ep: nat, lp: nat) returns (r: bool)
      requires Valid() && ep < |expbuf| && CodeOK(expbuf, ep) && lp < |line| && (IsSingle(expbuf[ep]) || IsStarred(expbuf[ep]))
      ensures r == Accepts(ignorecase, expbuf, ep, line[lp]) && (r ==> lp + 1 < |line|)
    {
      var op := Plain(expbuf[ep]);
      if op == CCHR {
        r := Same(ignorecase, expbuf[ep + 1], line[lp]);
      } else if op == CDOT {
        r := line[lp] != 0;
      } else {
        r := CClass(ignorecase, expbuf, ep + 1, line[lp], op == CCL);
      }
    }

    /** The codes that look at a place, and the parentheses. */
    method TestPlace(op: int, lp: nat) returns (r: bool)
      requires Valid() && lp < |line| && (op == CDOL || op == CBRC || op == CLET || op == CBRA || op == CKET)
      ensures r == HoldsAt(line, op, lp)
    {
      if op == CDOL {
        r := line[lp] == 0;
      } else if op == CBRC {
        r := lp == 0 || ((IsDigit(line[lp]) || ULetter(line[lp])) && !ULetter(line[lp - 1]) && !IsDigit(line[lp - 1]));
      } else if op == CLET {
        r := !ULetter(line[lp]) && !IsDigit(line[lp]);
      } else {
        r := true;
      }
    }

    method SetMark(ep: nat, lp: nat)
      requires Valid() && ep < |expbuf| && CodeOK(expbuf, ep)
      modifies braslist, braelist
      ensures View() == MarkHere(expbuf, ep, lp, old(View()))
    {
      if expbuf[ep] == CBRA {
        braslist[expbuf[ep + 1]] := lp;
      } else if expbuf[ep] == CKET {
        braelist[expbuf[ep + 1]] := lp;
      }
    }

    /** advance: match the program from `ep0` on at `lp0`.  It succeeds exactly when some
        choice of numbers matches; then `loc2` is where the greediest choice ends and
        the marks are those of that choice. */
    method Advance(lp0: nat, ep0: nat) returns (ok: bool, ghost counts: seq<nat>)
      requires Valid() && Compiled(expbuf, ep0) && lp0 < |line|
      modifies this`loc2, braslist, braelist
      ensures ok ==> Greediest(ignorecase, line, expbuf, ep0, lp0, counts, loc2) && View() == Marked(expbuf, ep0, lp0, counts, old(View()))
      ensures !ok ==> !CanMatch(ignorecase, line, expbuf, ep0, lp0) && loc2 == old(loc2) && SetLater(expbuf, ep0, old(View()), View())
      decreases |expbuf| - ep0, 1
    {
      hide Reached, Compiled, Matches, Accepts, HoldsAt, Greediest, CanMatch, SetLater, Marked, MarkHere, Next;
      ghost var m0 := View();
      var lp: nat, ep: nat := lp0, ep0;
      counts := [];
      ReachedStart(ignorecase, line, expbuf, ep, lp, m0);
      while true
        invariant Reached(ignorecase, line, expbuf, ep0, lp0, m0, ep, lp, View()) && ep0 <= ep && loc2 == old(loc2)
        invariant lp < |line| && Compiled(expbuf, ep)
        decreases |expbuf| - ep
      {
        ghost var m := View();
        CodeFacts(ignorecase, line, expbuf, ep, lp);
        var op := expbuf[ep];
        if op == CEOFC {
          ReachedMatch(ignorecase, line, expbuf, ep0, lp0, m0, ep, lp, m, [], lp);
          MarkedEnd(expbuf, ep, lp, m);
          loc2 := lp;
          return true, [];
        } else if IsStarred(op) {
          ok, counts := AdvanceStar(lp, ep);
          AfterStar(ignorecase, line, expbuf, ep0, lp0, m0, ep, lp, m, View(), ok, counts, loc2);
          return;
        } else if IsSingle(op) {
          var r := TestChar(ep, lp);
          if !r {
            SingleFails(ignorecase, line, expbuf, ep0, lp0, m0, ep, lp, m);
            return false, [];
          }
          ReachedStep(ignorecase, line, expbuf, ep0, lp0, m0, ep, lp, m, lp + 1);
          ep, lp := Next(expbuf, ep), lp + 1;
        } else {
          var r := TestPlace(op, lp);
          if !r {
            SingleFails(ignorecase, line, expbuf, ep0, lp0, m0, ep, lp, m);
            return false, [];
          }
          ReachedStep(ignorecase, line, expbuf, ep0, lp0, m0, ep, lp, m, lp);
          SetMark(ep, lp);
          ep := Next(expbuf, ep);
        }
        ReachedFacts(ignorecase, line, expbuf, ep0, lp0, m0, ep, lp, View());
      }
    }

    /** The starred codes: take as many characters as possible, then fewer and fewer. */
    method AdvanceStar(curlp: nat, ep: nat) returns (ok: bool, ghost counts: seq<nat>)
      requires Valid() && Compiled(expbuf, ep) && curlp < |line| && IsStarred(expbuf[ep])
      modifies this`loc2, braslist, braelist
      ensures ok ==> Greediest(ignorecase, line, expbuf, ep, curlp, counts, loc2) && View() == Marked(expbuf, ep, curlp, counts, old(View()))
      ensures !ok ==> !CanMatch(ignorecase, line, expbuf, ep, curlp) && loc2 == old(loc2) && SetLater(expbuf, ep, old(View()), View())
      decreases |expbuf| - ep, 0
    {
      hide Compiled, Matches, Accepts, Greediest, CanMatch, SetLater, Marked, Next, AllAccepted, NoLonger;
      ghost var m0 := View();
      CodeFacts(ignorecase, line, expbuf, ep, curlp);
      var lp := TakeRun(curlp, ep);
      StarFacts(expbuf, ep, m0);
      while true
        invariant curlp <= lp < |line| && loc2 == old(loc2) && Next(expbuf, ep) > ep && Compiled(expbuf, Next(expbuf, ep))
        invariant AllAccepted(ignorecase, line, expbuf, ep, curlp, lp - curlp)
        invariant NoLonger(ignorecase, line, expbuf, ep, curlp, lp - curlp)
        invariant SetLater(expbuf, Next(expbuf, ep), m0, View())
        decreases lp
      {
        ghost var m := View();
        ok, counts := Advance(lp, Next(expbuf, ep));
        if ok {
          StarTaken(ignorecase, line, expbuf, ep, curlp, lp - curlp, counts, loc2, m0, m);
          counts := [lp - curlp] + counts;
          return;
        }
        SetLaterTrans(expbuf, Next(expbuf, ep), m0, m, View());
        TakeFewer(ignorecase, line, expbuf, ep, curlp, lp - curlp);
        if lp == curlp {
          TakeNone(ignorecase, line, expbuf, ep, curlp);
          SetLaterStar(expbuf, ep, m0, View());
          return;
        }
        FewerAccepted(ignorecase, line, expbuf, ep, curlp, lp - curlp);
        lp := lp - 1;
      }
    }

    /** The longest run of accepted characters. */
    method TakeRun(curlp: nat, ep: nat) returns (lp: nat)
      requires Valid() && Compiled(expbuf, ep) && curlp < |line| && IsStarred(expbuf[ep])
      ensures curlp <= lp < |line| && AllAccepted(ignorecase, line, expbuf, ep, curlp, lp - curlp)
      ensures NoLonger(ignorecase, line, expbuf, ep, curlp, lp - curlp)
    {
      hide Accepts;
      lp := curlp;
      while true
        invariant curlp <= lp < |line| && AllAccepted(ignorecase, line, expbuf, ep, curlp, lp - curlp)
        decreases |line| - lp
      {
        var r := TestChar(ep, lp);
        if !r {
          RunEnds(ignorecase, line, expbuf, ep, curlp, lp - curlp);
          return;
        }
        lp := lp + 1;
      }
    }

    /** execute for a first search on the line: it succeeds exactly when the program
        matches somewhere; `loc1` is the leftmost place, `loc2` the end of the greediest
        match there.  With `circfl` only the beginning of the line counts. */
    method Execute(zero: bool, circfl: bool) returns (found: bool, ghost counts: seq<nat>)
      requires Valid() && Compiled(expbuf, 0)
      modifies this`loc1, this`loc2, braslist, braelist
      ensures !zero ==> forall ps :: ArePieces(ps) && expbuf == Program(ps) ==> Answers(ignorecase, line, ps, circfl, found, loc1, loc2, View())
      ensures !zero && !circfl && !ignorecase ==> forall w :: IsWordSearch(expbuf, w) ==> FindsWord(line, w, found, loc1, loc2)
      ensures !zero && !circfl && !ignorecase ==> forall w :: IsEndSearch(expbuf, w) ==> FindsEnd(line, w, found, loc1, loc2)
      ensures zero ==> !found
      ensures found <==> !zero && exists s :: 0 <= s < |line| && (circfl ==> s == 0) && CanMatch(ignorecase, line, expbuf, 0, s)
      ensures found ==> loc1 < |line| && Greediest(ignorecase, line, expbuf, 0, loc1, counts, loc2)
      ensures found ==> View() == Marked(expbuf, 0, loc1, counts, old(View()))
      ensures found ==> forall s :: 0 <= s < loc1 ==> !CanMatch(ignorecase, line, expbuf, 0, s)
      ensures found && circfl ==> loc1 == 0
    {
      hide Compiled, Matches, Accepts, CanMatch, Marked, Answers, Program, ArePieces, IsWordSearch, IsEndSearch, FindsWord, FindsEnd, Greediest,
        WordPieces, EndPieces;
      found, counts := Search(zero, circfl);
      if !zero {
        forall ps | ArePieces(ps) && expbuf == Program(ps) ensures Answers(ignorecase, line, ps, circfl, found, loc1, loc2, View()) {
          SearchAnswers(ignorecase, line, expbuf, ps, circfl, found, loc1, loc2, counts, if found then old(View()) else View());
        }
        if !circfl && !ignorecase {
          forall w | IsWordSearch(expbuf, w) ensures FindsWord(line, w, found, loc1, loc2) {
            WordProgram(expbuf, w);
            WordFound(line, expbuf, w, found, loc1, loc2, View());
          }
          forall w | IsEndSearch(expbuf, w) ensures FindsEnd(line, w, found, loc1, loc2) {
            EndProgram(expbuf, w);
            EndFound(line, expbuf, w, found, loc1, loc2, View());
          }
        }
      }
    }

    /** The loops of execute. */
    method Search(zero: bool, circfl: bool) returns (found: bool, ghost counts: seq<nat>)
      requires Valid() && Compiled(expbuf, 0)
      modifies this`loc1, this`loc2, braslist, braelist
      ensures found ==> View() == Marked(expbuf, 0, loc1, counts, old(View()))
      ensures found <==> !zero && exists s :: 0 <= s < |line| && (circfl ==> s == 0) && CanMatch(ignorecase, line, expbuf, 0, s)
      ensures found ==> loc1 < |line| && Greediest(ignorecase, line, expbuf, 0, loc1, counts, loc2)
      ensures found ==> forall s :: 0 <= s < loc1 ==> !CanMatch(ignorecase, line, expbuf, 0, s)
      ensures found && circfl ==> loc1 == 0
    {
      hide Compiled, Matches, Accepts, CanMatch, SetLater, Marked, Next;
      counts := [];
      if zero {
        return false, [];
      }
      var p1 := 0;
      if circfl {
        loc1 := p1;
        found, counts := Advance(p1, 0);
        MatchExists(ignorecase, line, expbuf, 0, 0, counts, loc2);
        return;
      }
      FirstCode(expbuf);
      NothingSet(expbuf, View());
      var fast := expbuf[0] == CCHR;
      while true
        invariant p1 < |line| && SetLater(expbuf, 0, old(View()), View())
        invariant forall s :: 0 <= s < p1 ==> !CanMatch(ignorecase, line, expbuf, 0, s)
        decreases |line| - p1
      {
        if fast && !Same(ignorecase, expbuf[1], line[p1]) {
          FastCheck(ignorecase, line, expbuf, p1);
        } else {
          ghost var m := View();
          found, counts := Advance(p1, 0);
          if found {
            SameMarks(ignorecase, line, expbuf, p1, counts, loc2, old(View()), m);
            MatchExists(ignorecase, line, expbuf, 0, p1, counts, loc2);
            loc1 := p1;
            return;
          }
          SetLaterTrans(expbuf, 0, old(View()), m, View());
        }
        if line[p1] == 0 {
          assert p1 == |line| - 1;
          return false, [];
        }
        p1 := p1 + 1;
      }
    }
  }

  lemma CodeFacts(ignorecase: bool, line: seq<int>, buf: seq<int>, ep: nat, lp: nat)
    requires Compiled(buf, ep) && lp < |line|
    ensures ep < |buf| && CodeOK(buf, ep)
    ensures buf[ep] == CEOFC ==> Greediest(ignorecase, line, buf, ep, lp, [], lp)
  {
  }

  lemma MarkedEnd(buf: seq<int>, ep: nat, lp: nat, m: Marks)
    requires Compiled(buf, ep) && buf[ep] == CEOFC && |m.starts| == |m.ends| == NBRA
    ensures Marked(buf, ep, lp, [], m) == m
  {
  }

  lemma SingleFails(ignorecase: bool, line: seq<int>, buf: seq<int>, ep0: nat, lp0: nat, m0: Marks, ep: nat, lp: nat, m: Marks)
    requires |m0.starts| == |m0.ends| == |m.starts| == |m.ends| == NBRA
    requires Reached(ignorecase, line, buf, ep0, lp0, m0, ep, lp, m) && buf[ep] != CEOFC && !IsStarred(buf[ep])
    requires if IsSingle(buf[ep]) then !Accepts(ignorecase, buf, ep, line[lp]) else !HoldsAt(line, buf[ep], lp)
    ensures !CanMatch(ignorecase, line, buf, ep0, lp0) && SetLater(buf, ep0, m0, m)
  {
    hide Accepts, HoldsAt;
    assert !CanMatch(ignorecase, line, buf, ep, lp);
    ReachedStuck(ignorecase, line, buf, ep0, lp0, m0, ep, lp, m);
  }

  lemma ReachedFacts(ignorecase: bool, line: seq<int>, buf: seq<int>, ep0: nat, lp0: nat, m0: Marks, ep: nat, lp: nat, m: Marks)
    requires |m0.starts| == |m0.ends| == |m.starts| == |m.ends| == NBRA
    requires Reached(ignorecase, line, buf, ep0, lp0, m0, ep, lp, m)
    ensures Compiled(buf, ep) && lp < |line|
  {
  }

  /** The result of a starred code is the result of the whole. */
  lemma AfterStar(ignorecase: bool, line: seq<int>, buf: seq<int>, ep0: nat, lp0: nat, m0: Marks, ep: nat, lp: nat, m: Marks, m': Marks,
                  ok: bool, counts: seq<nat>, end: nat)
    requires |m0.starts| == |m0.ends| == |m.starts| == |m.ends| == |m'.starts| == |m'.ends| == NBRA
    requires Reached(ignorecase, line, buf, ep0, lp0, m0, ep, lp, m)
    requires ok ==> Greediest(ignorecase, line, buf, ep, lp, counts, end) && m' == Marked(buf, ep, lp, counts, m)
    requires !ok ==> !CanMatch(ignorecase, line, buf, ep, lp) && SetLater(buf, ep, m, m')
    ensures ok ==> Greediest(ignorecase, line, buf, ep0, lp0, counts, end) && m' == Marked(buf, ep0, lp0, counts, m0)
    ensures !ok ==> !CanMatch(ignorecase, line, buf, ep0, lp0) && SetLater(buf, ep0, m0, m')
  {
    hide Greediest, CanMatch, Marked;
    if ok {
      ReachedMatch(ignorecase, line, buf, ep0, lp0, m0, ep, lp, m, counts, end);
    } else {
      ReachedStuck(ignorecase, line, buf, ep0, lp0, m0, ep, lp, m);
    }
  }

  lemma StarFacts(buf: seq<int>, ep: nat, m: Marks)
    requires Compiled(buf, ep) && IsStarred(buf[ep]) && |m.starts| == |m.ends| == NBRA
    ensures Next(buf, ep) > ep && Compiled(buf, Next(buf, ep)) && SetLater(buf, Next(buf, ep), m, m)
  {
  }

  lemma StarTaken(ignorecase: bool, line: seq<int>, buf: seq<int>, ep: nat, lp: nat, n: nat, counts: seq<nat>, end: nat, m0: Marks, m: Marks)
    requires Compiled(buf, ep) && IsStarred(buf[ep]) && NoLonger(ignorecase, line, buf, ep, lp, n) && lp < |line|
    requires AllAccepted(ignorecase, line, buf, ep, lp, n) && Greediest(ignorecase, line, buf, Next(buf, ep), lp + n, counts, end)
    requires SetLater(buf, Next(buf, ep), m0, m) && |m0.starts| == |m0.ends| == |m.starts| == |m.ends| == NBRA
    ensures Greediest(ignorecase, line, buf, ep, lp, [n] + counts, end)
    ensures Marked(buf, ep, lp, [n] + counts, m0) == Marked(buf, Next(buf, ep), lp + n, counts, m)
  {
    hide Matches, AllAccepted, NoLonger, Marked, SetLater;
    TakeThese(ignorecase, line, buf, ep, lp, n, counts, end, m0);
    MarksForgotten(ignorecase, line, buf, Next(buf, ep), lp + n, counts, end, m0, m);
  }

  lemma NothingSet(buf: seq<int>, m: Marks)
    requires |m.starts| == |m.ends| == NBRA
    ensures SetLater(buf, 0, m, m)
  {
  }

  lemma SameMarks(ignorecase: bool, line: seq<int>, buf: seq<int>, lp: nat, counts: seq<nat>, end: nat, m: Marks, n: Marks)
    requires Compiled(buf, 0) && Greediest(ignorecase, line, buf, 0, lp, counts, end) && SetLater(buf, 0, m, n)
    ensures |m.starts| == |m.ends| == |n.starts| == |n.ends| == NBRA && Marked(buf, 0, lp, counts, m) == Marked(buf, 0, lp, counts, n)
  {
    MarksForgotten(ignorecase, line, buf, 0, lp, counts, end, m, n);
  }

  lemma SetLaterTrans(buf: seq<int>, ep: nat, a: Marks, b: Marks, c: Marks)
    requires SetLater(buf, ep, a, b) && SetLater(buf, ep, b, c)
    ensures SetLater(buf, ep, a, c)
  {
  }

  lemma SetLaterStar(buf: seq<int>, ep: nat, a: Marks, b: Marks)
    requires Compiled(buf, ep) && IsStarred(buf[ep]) && SetLater(buf, Next(buf, ep), a, b)
    ensures SetLater(buf, ep, a, b)
  {
    assert forall op, i :: Sets(buf, Next(buf, ep), op, i) ==> Sets(buf, ep, op, i);
  }

  lemma FewerAccepted(ignorecase: bool, line: seq<int>, buf: seq<int>, ep: nat, lp: nat, n: nat)
    requires ep < |buf| && CodeOK(buf, ep) && n > 0 && AllAccepted(ignorecase, line, buf, ep, lp, n)
    ensures AllAccepted(ignorecase, line, buf, ep, lp, n - 1)
  {
  }

  lemma MatchExists(ignorecase: bool, line: seq<int>, buf: seq<int>, ep: nat, lp: nat, counts: seq<nat>, end: nat)
    requires Compiled(buf, ep)
    ensures Greediest(ignorecase, line, buf, ep, lp, counts, end) ==> CanMatch(ignorecase, line, buf, ep, lp)
  {
  }

  lemma FirstCode(buf: seq<int>)
    requires Compiled(buf, 0)
    ensures |buf| > 0 && (buf[0] == CCHR ==> |buf| > 1)
  {
  }

  /** The fast path only skips places where the program cannot match. */
  lemma FastCheck(ignorecase: bool, line: seq<int>, buf: seq<int>, lp: nat)
    requires Compiled(buf, 0) && buf[0] == CCHR && |buf| > 1 && lp < |line| && !Same(ignorecase, buf[1], line[lp])
    ensures !CanMatch(ignorecase, line, buf, 0, lp)
  {
  }
}
