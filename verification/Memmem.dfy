/** libcompat/memmem.c: substring search.

    A haystack and a needle are sequences of unsigned bytes; a `char *` result is
    the offset of the match from the start of the haystack.  The heart of the
    file is the two-way search of Crochemore and Perrin, whose correctness rests
    on the critical factorization theorem (`LocalRepetitionIsPeriod`). */
module Memmem {

  type Byte = x: int | 0 <= x < 256

  datatype Result = NotFound | Found(offset: nat)

  // ---------------------------------------------------------------------
  // What a search has to return
  // ---------------------------------------------------------------------

  ghost predicate OccursAt(h: seq<Byte>, n: seq<Byte>, pos: int)
  {
    0 <= pos && pos + |n| <= |h| &&
    forall i :: 0 <= i < |n| ==> n[i] == h[pos + i]
  }

  /** No offset in `[from, to)` is an occurrence. */
  ghost predicate NoMatchIn(h: seq<Byte>, n: seq<Byte>, from: int, to: int)
  {
    forall q :: from <= q < to ==> !OccursAt(h, n, q)
  }

  /** `r` is the smallest offset at which `n` occurs in `h`, if there is one. */
  ghost predicate FirstMatch(h: seq<Byte>, n: seq<Byte>, r: Result)
  {
    match r
    case Found(k) => OccursAt(h, n, k) && NoMatchIn(h, n, 0, k)
    case NotFound => forall pos :: !OccursAt(h, n, pos)
  }

  // ---------------------------------------------------------------------
  // Suffix order, periods and local repetitions
  // ---------------------------------------------------------------------

  /** The order on letters: the usual one, or its opposite. */
  predicate Less(opposite: bool, a: Byte, b: Byte) {
    if opposite then a > b else a < b
  }

  /** The `d` letters from `t` are the `d` letters from `s`. */
  ghost predicate Agree(x: seq<Byte>, t: nat, s: nat, d: nat)
    requires t + d <= |x| && s + d <= |x|
  {
    d == 0 || (Agree(x, t, s, d - 1) && x[t + d - 1] == x[s + d - 1])
  }

  /** The suffixes at `t` and `s` agree on `d` letters and then `s` has the larger one. */
  ghost predicate BeatenAt(o: bool, x: seq<Byte>, t: nat, s: nat, d: nat)
  {
    t + d < |x| && s + d < |x| &&
    Agree(x, t, s, d) && Less(o, x[t + d], x[s + d])
  }

  ghost predicate Beaten(o: bool, x: seq<Byte>, t: nat, s: nat)
  {
    exists d: nat :: BeatenAt(o, x, t, s, d)
  }

  /** The suffix at `t` is a proper prefix of the suffix at `s`. */
  ghost predicate SuffixIsPrefix(x: seq<Byte>, t: nat, s: nat)
  {
    s < t <= |x| && Agree(x, t, s, |x| - t)
  }

  /** `s` starts the lexicographically largest suffix of `x`. */
  ghost predicate IsMaxSuffix(o: bool, x: seq<Byte>, s: nat)
  {
    s < |x| &&
    forall t: nat :: t < |x| && t != s ==> Beaten(o, x, t, s) || SuffixIsPrefix(x, t, s)
  }

  /** `x[s..m]` has period `p`. */
  ghost predicate Period(x: seq<Byte>, s: int, m: int, p: int)
  {
    0 <= s && m <= |x| && 1 <= p &&
    forall i, j :: s <= i && j == i + p && j < m ==> x[i] == x[j]
  }

  ghost predicate LeastPeriod(x: seq<Byte>, s: int, m: int, p: int)
  {
    Period(x, s, m, p) && forall q :: 1 <= q < p ==> !Period(x, s, m, q)
  }

  /** A word of length `r` repeats around position `c`: whatever part of its two
      copies lies inside `x` agrees. */
  ghost predicate LocalRepetition(x: seq<Byte>, c: int, r: int)
  {
    0 <= c <= |x| && 1 <= r &&
    forall i, j :: 0 <= i < c <= j < |x| && j == i + r ==> x[i] == x[j]
  }

  lemma {:induction false} AgreeAt(x: seq<Byte>, t: nat, s: nat, d: nat, e: nat)
    requires t + d <= |x| && s + d <= |x| && Agree(x, t, s, d) && e <= d
    ensures Agree(x, t, s, e)
    ensures e < d ==> x[t + e] == x[s + e]
  {
    if e < d - 1 {
      AgreeAt(x, t, s, d - 1, e);
    }
  }

  lemma {:induction false} AgreeFrom(x: seq<Byte>, t: nat, s: nat, d: nat)
    requires t + d <= |x| && s + d <= |x|
    requires forall i, j :: t <= i < t + d && j == i - t + s ==> x[i] == x[j]
    ensures Agree(x, t, s, d)
  {
    if d > 0 {
      AgreeFrom(x, t, s, d - 1);
    }
  }

  lemma {:induction false} AgreeTransitive(x: seq<Byte>, a: nat, b: nat, c: nat, d: nat)
    requires a + d <= |x| && b + d <= |x| && c + d <= |x|
    requires Agree(x, a, b, d) && Agree(x, b, c, d)
    ensures Agree(x, a, c, d) && Agree(x, b, a, d)
  {
    if d > 0 {
      AgreeTransitive(x, a, b, c, d - 1);
    }
  }

  lemma {:induction false} AgreeJoin(x: seq<Byte>, t: nat, s: nat, d: nat, e: nat)
    requires t + d + e <= |x| && s + d + e <= |x|
    ensures Agree(x, t, s, d + e) <==> Agree(x, t, s, d) && Agree(x, t + d, s + d, e)
  {
    if e > 0 {
      AgreeJoin(x, t, s, d, e - 1);
    }
  }

  lemma BeatenAntisymmetric(o: bool, x: seq<Byte>, t: nat, s: nat, d: nat)
    requires BeatenAt(o, x, t, s, d)
    ensures !Beaten(o, x, s, t)
    ensures !SuffixIsPrefix(x, s, t)
  {
    forall e: nat ensures !BeatenAt(o, x, s, t, e) {
      if BeatenAt(o, x, s, t, e) {
        if e < d {
          AgreeAt(x, t, s, d, e);
        } else if d < e {
          AgreeAt(x, s, t, e, d);
        }
      }
    }
    if SuffixIsPrefix(x, s, t) {
      AgreeAt(x, s, t, |x| - s, d);
    }
  }

  lemma BeatenTransitive(o: bool, x: seq<Byte>, a: nat, b: nat, c: nat)
    requires Beaten(o, x, a, b) && Beaten(o, x, b, c)
    ensures Beaten(o, x, a, c)
  {
    var d: nat :| BeatenAt(o, x, a, b, d);
    var e: nat :| BeatenAt(o, x, b, c, e);
    var f := if d < e then d else e;
    AgreeAt(x, a, b, d, f);
    AgreeAt(x, b, c, e, f);
    AgreeTransitive(x, a, b, c, f);
    assert BeatenAt(o, x, a, c, f);
  }

  ghost predicate Multiple(q: int, p: int)
  {
    exists a: nat :: q == Times(a, p)
  }

  ghost function Times(a: nat, p: int): int {
    if a == 0 then 0 else Times(a - 1, p) + p
  }

  /** A period carries over to every multiple of it. */
  lemma PeriodOfMultiple(x: seq<Byte>, s: int, m: int, p: int, q: int)
    requires Period(x, s, m, p) && Multiple(q, p)
    ensures 0 <= q && forall i, j :: s <= i && j == i + q && j < m ==> x[i] == x[j]
  {
    var a: nat :| q == Times(a, p);
    PeriodTimes(x, s, m, p, a);
  }

  lemma {:induction false} PeriodTimes(x: seq<Byte>, s: int, m: int, p: int, a: nat)
    requires Period(x, s, m, p)
    ensures 0 <= Times(a, p)
    ensures forall i, j :: s <= i && j == i + Times(a, p) && j < m ==> x[i] == x[j]
  {
    if a > 0 {
      PeriodTimes(x, s, m, p, a - 1);
      forall i, j | s <= i && j == i + Times(a, p) && j < m ensures x[i] == x[j] {
        assert x[i] == x[j - p];
      }
    }
  }

  lemma {:induction false} DivideBlocks(n: nat, p: nat) returns (q: nat, b: nat)
    requires p > 0
    ensures n == q + b && b < p && Multiple(q, p)
  {
    if n < p {
      q, b := 0, n;
      assert Times(0, p) == 0;
    } else {
      q, b := DivideBlocks(n - p, p);
      var a: nat :| q == Times(a, p);
      q := q + p;
      assert q == Times(a + 1, p);
    }
  }

  lemma {:induction false} TimesDifference(a: nat, e: nat, p: nat)
    requires a <= e
    ensures Times(e, p) - Times(a, p) == Times(e - a, p) && 0 <= Times(a, p)
    ensures a < e ==> Times(a, p) + p <= Times(e, p)
  {
    if a > 0 {
      TimesDifference(a - 1, e - 1, p);
    } else if e > 0 {
      TimesDifference(0, e - 1, p);
    }
  }

  lemma MultiplesStep(q: int, l: int, p: nat)
    requires p > 0 && Multiple(q, p) && Multiple(l, p)
    ensures q < l ==> q + p <= l
    ensures q <= l ==> Multiple(l - q, p)
    ensures Multiple(l + p, p) && Multiple(p, p) && Multiple(0, p) && 0 <= l
  {
    var a: nat :| q == Times(a, p);
    var e: nat :| l == Times(e, p);
    assert Times(e + 1, p) == l + p && Times(1, p) == Times(0, p) + p && Times(0, p) == 0;
    TimesDifference(0, e, p);
    if a <= e {
      TimesDifference(a, e, p);
    } else {
      TimesDifference(e, a, p);
    }
  }

  // ---------------------------------------------------------------------
  // The critical factorization theorem
  // ---------------------------------------------------------------------

  /** No word repeats around the start of a maximal suffix without reaching
      past the left end of `x`. */
  lemma NoInnerSquare(o: bool, x: seq<Byte>, c: nat, r: int)
    requires IsMaxSuffix(o, x, c) && LocalRepetition(x, c, r)
    ensures c < r
  {
    if r <= c {
      var t, u := c - r, c + r;
      assert Beaten(o, x, t, c);
      var d: nat :| BeatenAt(o, x, t, c, d);
      assert d >= r;
      assert Beaten(o, x, u, c) || SuffixIsPrefix(x, u, c);
      AgreeJoin(x, t, c, r, d - r);
      assert BeatenAt(o, x, c, u, d - r);
      BeatenAntisymmetric(o, x, c, u, d - r);
    }
  }

  /** Let `c` start the maximal suffix for one letter order and `b <= c` the one
      for the opposite order.  Then every local repetition at `c` is longer than
      the part of `x` before `c`, and its length is a period of all of `x`. */
  lemma LocalRepetitionIsPeriod(o: bool, x: seq<Byte>, b: nat, c: nat, r: int)
    requires b <= c
    requires IsMaxSuffix(o, x, c) && IsMaxSuffix(!o, x, b)
    requires LocalRepetition(x, c, r)
    ensures c < r && Period(x, 0, |x|, r)
  {
    NoInnerSquare(o, x, c, r);
    if c + r < |x| {
      AgreeFrom(x, b, b + r, c - b);
      RightPartRepeats(o, x, b, c, r);
    }
    forall i, j | 0 <= i && j == i + r && j < |x| ensures x[i] == x[j] {
      if c <= i {
        AgreeAt(x, c + r, c, |x| - (c + r), i - c);
      }
    }
  }

  lemma RightPartRepeats(o: bool, x: seq<Byte>, b: nat, c: nat, r: int)
    requires b <= c < r && c + r < |x|
    requires IsMaxSuffix(o, x, c) && IsMaxSuffix(!o, x, b)
    requires Agree(x, b, b + r, c - b)
    ensures SuffixIsPrefix(x, c + r, c)
  {
    var u, t := c + r, b + r;
    assert Beaten(o, x, u, c) || SuffixIsPrefix(x, u, c);
    assert Beaten(!o, x, t, b) || SuffixIsPrefix(x, t, b);
    if Beaten(o, x, u, c) {
      var d: nat :| BeatenAt(o, x, u, c, d);
      AgreeFrom(x, c, c, d);
      AgreeTransitive(x, u, c, c, d);
      AgreeJoin(x, b, t, c - b, d);
      assert BeatenAt(!o, x, b, t, c - b + d);
      BeatenAntisymmetric(!o, x, b, t, c - b + d);
    }
  }

  // ---------------------------------------------------------------------
  // Computing a maximal suffix and its period
  // ---------------------------------------------------------------------

  /** Among the first `p` letters from `s`, the suffix at `t` loses. */
  ghost predicate BeatenWithin(o: bool, x: seq<Byte>, t: nat, s: nat, p: nat)
  {
    exists d: nat :: t + d < s + p && BeatenAt(o, x, t, s, d)
  }

  /** The first `p` letters from `s` beat each of their own proper suffixes. */
  ghost predicate Dominates(o: bool, x: seq<Byte>, s: nat, p: nat)
  {
    s + p <= |x| && forall t: nat :: s < t < s + p ==> BeatenWithin(o, x, t, s, p)
  }

  /** Every suffix before `s` loses against the one at `s`. */
  ghost predicate EarlierLose(o: bool, x: seq<Byte>, s: nat)
  {
    forall t: nat :: t < s ==> Beaten(o, x, t, s)
  }

  /** State of the scan: `x[s..s+l+k-1]` repeats its first `p` letters, which beat
      their own suffixes; nothing before `s` can be the maximal suffix. */
  ghost predicate Scan(o: bool, x: seq<Byte>, s: nat, p: nat, l: nat, k: nat)
  {
    1 <= k <= p <= l && Multiple(l, p) && s + l + k - 1 <= |x| &&
    Period(x, s, s + l + k - 1, p) && Dominates(o, x, s, p) && EarlierLose(o, x, s)
  }

  /** A suffix that starts inside a later block behaves like the same suffix of
      the first block, as far as the scanned part goes. */
  lemma CopyOfBlock(o: bool, x: seq<Byte>, s: nat, p: nat, m: nat, q: nat, b: nat, d: nat)
    requires Period(x, s, m, p) && Multiple(q, p)
    requires BeatenAt(o, x, s + b, s, d) && s + b + d < m
    ensures s + q + b + d < m ==> BeatenAt(o, x, s + q + b, s, d)
    ensures s + q + b <= m <= s + q + b + d ==> Agree(x, s + q + b, s, m - (s + q + b))
  {
    PeriodOfMultiple(x, s, m, p, q);
    var t := s + q + b;
    if t <= m {
      var e := if t + d < m then d else m - t;
      AgreeFrom(x, t, s + b, e);
      AgreeAt(x, s + b, s, d, e);
      AgreeTransitive(x, t, s + b, s, e);
    }
  }

  /** Where the letter after the scanned part falls in its block. */
  lemma NextLetter(x: seq<Byte>, s: nat, p: nat, l: nat, k: nat, q: nat, b: nat)
    requires 1 <= k <= p <= l && Multiple(l, p) && Multiple(q, p) && s + l + k - 1 <= |x|
    requires Period(x, s, s + l + k - 1, p)
    requires 0 < q + b <= l + k - 1 && b < p
    ensures b == 0 ==> x[s + l + k - 1 - q] == x[s + k - 1]
    ensures b + (l + k - 1 - q - b) < p ==> q == l
  {
    MultiplesStep(q, l, p);
    MultiplesStep(l, q, p);
    if b == 0 {
      PeriodOfMultiple(x, s, s + l + k - 1, p, l - q);
    }
  }

  /** The scanned blocks are followed by a smaller letter: everything scanned so
      far becomes one dominating block. */
  lemma ExtendBlock(o: bool, x: seq<Byte>, s: nat, p: nat, l: nat, k: nat)
    requires Scan(o, x, s, p, l, k) && s + l + k - 1 < |x|
    requires Less(o, x[s + l + k - 1], x[s + k - 1])
    ensures Dominates(o, x, s, l + k)
  {
    var p' := l + k;
    forall t: nat | s < t < s + p' ensures BeatenWithin(o, x, t, s, p') {
      var q, b := DivideBlocks(t - s, p);
      NextLetter(x, s, p, l, k, q, b);
      if b == 0 {
        PeriodOfMultiple(x, s, s + l + k - 1, p, q);
        AgreeFrom(x, t, s, s + l + k - 1 - t);
        assert BeatenAt(o, x, t, s, s + l + k - 1 - t);
      } else {
        ExtendInside(o, x, s, p, l, k, q, b);
      }
    }
  }

  lemma ExtendInside(o: bool, x: seq<Byte>, s: nat, p: nat, l: nat, k: nat, q: nat, b: nat)
    requires Scan(o, x, s, p, l, k) && s + l + k - 1 < |x|
    requires Less(o, x[s + l + k - 1], x[s + k - 1])
    requires Multiple(q, p) && 0 < b < p && q + b < l + k
    ensures BeatenWithin(o, x, s + q + b, s, l + k)
  {
    hide Multiple, EarlierLose, Period;
    var m, t := s + l + k - 1, s + q + b;
    assert BeatenWithin(o, x, s + b, s, p);
    var d: nat :| s + b + d < s + p && BeatenAt(o, x, s + b, s, d);
    CopyOfBlock(o, x, s, p, m, q, b, d);
    if m <= t + d {
      NextLetter(x, s, p, l, k, q, b);
      AgreeAt(x, s + b, s, d, m - t);
      assert BeatenAt(o, x, t, s, m - t);
    }
  }

  /** The scanned blocks are followed by a larger letter: the unfinished block
      beats every earlier suffix and becomes the new candidate. */
  lemma NewCandidate(o: bool, x: seq<Byte>, s: nat, p: nat, l: nat, k: nat)
    requires Scan(o, x, s, p, l, k) && s + l + k - 1 < |x|
    requires Less(o, x[s + k - 1], x[s + l + k - 1])
    ensures EarlierLose(o, x, s + l)
  {
    MultiplesStep(l, l, p);
    BlockStartBeaten(o, x, s, p, l, k, 0);
    var s' := s + l;
    forall t: nat | t < s' ensures Beaten(o, x, t, s') {
      if s <= t {
        var q, b := DivideBlocks(t - s, p);
        if b == 0 {
          BlockStartBeaten(o, x, s, p, l, k, q);
        } else {
          InsideBlockBeaten(o, x, s, p, l, k, q, b);
          BeatenTransitive(o, x, t, s, s');
        }
      } else {
        BeatenTransitive(o, x, t, s, s');
      }
    }
  }

  lemma InsideBlockBeaten(o: bool, x: seq<Byte>, s: nat, p: nat, l: nat, k: nat, q: nat, b: nat)
    requires Scan(o, x, s, p, l, k)
    requires Multiple(q, p) && 0 < b < p && q < l
    ensures Beaten(o, x, s + q + b, s)
  {
    MultiplesStep(q, l, p);
    assert BeatenWithin(o, x, s + b, s, p);
    var d: nat :| s + b + d < s + p && BeatenAt(o, x, s + b, s, d);
    CopyOfBlock(o, x, s, p, s + l + k - 1, q, b, d);
  }

  lemma BlockStartBeaten(o: bool, x: seq<Byte>, s: nat, p: nat, l: nat, k: nat, q: nat)
    requires Scan(o, x, s, p, l, k) && s + l + k - 1 < |x|
    requires Less(o, x[s + k - 1], x[s + l + k - 1])
    requires q < l && Multiple(q, p)
    ensures Beaten(o, x, s + q, s + l)
  {
    var m := s + l + k - 1;
    MultiplesStep(q, l, p);
    PeriodOfMultiple(x, s, m, p, l - q);
    PeriodOfMultiple(x, s, m, p, q);
    AgreeFrom(x, s + q, s + l, k - 1);
    assert BeatenAt(o, x, s + q, s + l, k - 1);
  }

  /** When the scan has reached the end, `s` is the answer and `p` its least period. */
  lemma ScanComplete(o: bool, x: seq<Byte>, s: nat, p: nat, l: nat, k: nat)
    requires Scan(o, x, s, p, l, k) && s + l + k - 1 == |x|
    ensures IsMaxSuffix(o, x, s) && LeastPeriod(x, s, |x|, p)
  {
    forall t: nat | t < |x| && t != s ensures Beaten(o, x, t, s) || SuffixIsPrefix(x, t, s) {
      if s < t {
        var q, b := DivideBlocks(t - s, p);
        if b == 0 {
          PeriodOfMultiple(x, s, |x|, p, q);
          AgreeFrom(x, t, s, |x| - t);
        } else {
          assert BeatenWithin(o, x, s + b, s, p);
          var d: nat :| s + b + d < s + p && BeatenAt(o, x, s + b, s, d);
          CopyOfBlock(o, x, s, p, |x|, q, b, d);
        }
      }
    }
    forall q | 1 <= q < p ensures !Period(x, s, |x|, q) {
      assert BeatenWithin(o, x, s + q, s, p);
      var d: nat :| s + q + d < s + p && BeatenAt(o, x, s + q, s, d);
      assert x[s + d] != x[s + q + d];
    }
  }

  /** The maximal suffix of `n` starts at `ip + 1` and has least period `p`. */
  method MaximalSuffix(n: seq<Byte>, opposite: bool) returns (ip: int, p: int)
    requires |n| > 0
    ensures -1 <= ip && IsMaxSuffix(opposite, n, ip + 1) && LeastPeriod(n, ip + 1, |n|, p)
  {
    var jp, k := 0, 1;
    ip, p := -1, 1;
    MultiplesOfOne();
    while jp + k < |n|
      invariant -1 <= ip < jp && 1 <= p && jp + k <= |n|
      invariant Scan(opposite, n, ip + 1, p, jp - ip, k)
      decreases |n| - ip, |n| - jp - k
    {
      if n[ip + k] == n[jp + k] {
        ScanStep(opposite, n, ip + 1, p, jp - ip, k);
        if k == p {
          jp := jp + p;
          k := 1;
        } else {
          k := k + 1;
        }
      } else if Less(opposite, n[jp + k], n[ip + k]) {
        ExtendBlock(opposite, n, ip + 1, p, jp - ip, k);
        jp := jp + k;
        k := 1;
        p := jp - ip;
        assert p == Times(1, p);
      } else {
        NewCandidate(opposite, n, ip + 1, p, jp - ip, k);
        ip, jp := jp, jp + 1;
        k, p := 1, 1;
        MultiplesOfOne();
      }
    }
    ScanComplete(opposite, n, ip + 1, p, jp - ip, k);
  }

  lemma MultiplesOfOne()
    ensures Multiple(1, 1)
  {
    assert Times(1, 1) == 1;
  }

  /** The scanned blocks are followed by the letter that continues them. */
  lemma ScanStep(o: bool, x: seq<Byte>, s: nat, p: nat, l: nat, k: nat)
    requires Scan(o, x, s, p, l, k) && s + l + k - 1 < |x|
    requires x[s + l + k - 1] == x[s + k - 1]
    ensures Period(x, s, s + l + k, p)
    ensures Multiple(l + p, p)
  {
    MultiplesStep(l, l, p);
    MultiplesStep(p, l, p);
    PeriodOfMultiple(x, s, s + l + k - 1, p, l - p);
    assert x[s + k - 1] == x[s + l + k - 1 - p];
  }

  // ---------------------------------------------------------------------
  // Choosing the factorization and the shift after a failed left half
  // ---------------------------------------------------------------------

  /** `n[..c]` and `n[c..]` form a critical factorization. */
  ghost predicate Critical(n: seq<Byte>, c: int)
  {
    0 <= c < |n| &&
    forall r :: LocalRepetition(n, c, r) ==> c < r && Period(n, 0, |n|, r)
  }

  /** The needle can be searched for with critical position `c`, shift `p` after a
      failed left half, and `mem0` bytes known to match after that shift. */
  ghost predicate Prepared(n: seq<Byte>, c: int, p: int, mem0: int)
  {
    Critical(n, c) && 1 <= p <= |n| &&
    (forall q :: 1 <= q < p ==> !Period(n, 0, |n|, q)) &&
    (mem0 == 0 || (mem0 == |n| - p && c < p && Period(n, 0, |n|, p)))
  }

  lemma PreparedPeriodic(n: seq<Byte>, c: int, p: int)
    requires Critical(n, c) && LeastPeriod(n, c, |n|, p) && p + c <= |n|
    requires n[..c] == n[p..p + c]
    ensures Prepared(n, c, p, |n| - p)
  {
    forall i, j | 0 <= i && j == i + p && j < |n| ensures n[i] == n[j] {
      if i < c {
        assert n[..c][i] == n[p..p + c][i];
      }
    }
    assert LocalRepetition(n, c, p);
    forall q | 1 <= q < p ensures !Period(n, 0, |n|, q) {
      assert Period(n, 0, |n|, q) ==> Period(n, c, |n|, q);
    }
  }

  lemma PeriodGivesPrefix(n: seq<Byte>, c: int, p: int)
    requires 0 <= c && 0 <= p && p + c <= |n|
    ensures Period(n, 0, |n|, p) ==> n[..c] == n[p..p + c]
  {
  }

  /** If the least period of the right part is not a period of the needle, then
      no period of the needle fits in the right part. */
  lemma PreparedAperiodic(n: seq<Byte>, c: int, p: int)
    requires Critical(n, c) && LeastPeriod(n, c, |n|, p) && p + c <= |n|
    requires n[..c] != n[p..p + c]
    ensures c > 0
    ensures forall q :: 1 <= q <= |n| - c || 1 <= q <= c ==> !Period(n, 0, |n|, q)
  {
    PeriodGivesPrefix(n, c, p);
    forall q | 1 <= q <= |n| - c || 1 <= q <= c ensures !Period(n, 0, |n|, q) {
      if Period(n, 0, |n|, q) {
        assert LocalRepetition(n, c, q);
        SmallerRepetition(n, c, p, q);
      }
    }
  }

  lemma SmallerRepetition(n: seq<Byte>, c: int, p: int, q: int)
    requires Critical(n, c) && LeastPeriod(n, c, |n|, p)
    requires Period(n, 0, |n|, q) && 1 <= q <= |n| - c
    ensures Period(n, 0, |n|, p)
  {
    assert Period(n, c, |n|, q);
    var m, b := DivideBlocks(q, p);
    var r := if b == 0 then p else b;
    MultiplesStep(m, m, p);
    MultiplesStep(p, m, p);
    MultiplesStep(0, m, p);
    PeriodOfMultiple(n, c, |n|, p, q - r);
    forall i, j | 0 <= i < c <= j < |n| && j == i + r ensures n[i] == n[j] {
      assert n[i] == n[i + q];
    }
    assert LocalRepetition(n, c, r);
    assert Period(n, c, |n|, r);
  }

  /** An occurrence `s` bytes further on, over a part of the haystack already known
      to match, repeats a word around `c`. */
  lemma OverlapRepeats(h: seq<Byte>, n: seq<Byte>, pos: nat, c: int, k: int, s: int)
    requires 0 <= c <= k <= |n| && 1 <= s && (s <= k - c || k == |n|)
    requires pos + |n| <= |h| && OccursAt(h, n, pos + s)
    requires forall i :: c <= i < k ==> n[i] == h[pos + i]
    ensures LocalRepetition(n, c, s)
  {
    forall i, j | 0 <= i < c <= j < |n| && j == i + s ensures n[i] == n[j] {
      assert n[i] == h[pos + s + i];
    }
  }

  /** A mismatch at `k` in the right part excludes the next `k - c` offsets. */
  lemma SkipRight(h: seq<Byte>, n: seq<Byte>, pos: nat, c: int, k: int)
    requires Critical(n, c) && pos + |n| <= |h| && c <= k < |n|
    requires forall i :: c <= i < k ==> n[i] == h[pos + i]
    requires n[k] != h[pos + k]
    ensures NoMatchIn(h, n, pos, pos + (k - c) + 1)
  {
    forall q | pos <= q < pos + (k - c) + 1 ensures !OccursAt(h, n, q) {
      if OccursAt(h, n, q) && q > pos {
        assert n[k - (q - pos)] == h[q + (k - (q - pos))];
        OverlapRepeats(h, n, pos, c, k, q - pos);
      }
    }
  }

  /** A full match of the right part excludes every offset below the shift `p`. */
  lemma SkipLeft(h: seq<Byte>, n: seq<Byte>, pos: nat, c: int, p: int, mem0: int)
    requires Prepared(n, c, p, mem0) && pos + |n| <= |h|
    requires forall i :: c <= i < |n| ==> n[i] == h[pos + i]
    ensures NoMatchIn(h, n, pos + 1, pos + p)
  {
    forall q | pos + 1 <= q < pos + p ensures !OccursAt(h, n, q) {
      if OccursAt(h, n, q) {
        OverlapRepeats(h, n, pos, c, |n|, q - pos);
      }
    }
  }

  /** After the shift `p` the part of the needle that overlaps the old position is
      known to match. */
  lemma Remembered(h: seq<Byte>, n: seq<Byte>, pos: nat, c: int, p: int, mem0: int)
    requires Prepared(n, c, p, mem0) && pos + |n| <= |h|
    requires forall i :: c <= i < |n| ==> n[i] == h[pos + i]
    ensures forall i :: 0 <= i < mem0 ==> n[i] == h[pos + p + i]
  {
    forall i | 0 <= i < mem0 ensures n[i] == h[pos + p + i] {
      assert n[i + p] == h[pos + (i + p)];
    }
  }

  /** With `mem` matching bytes remembered, an occurrence before offset `mem` needs
      the right last byte already at offset 0. */
  lemma RememberedLastByte(h: seq<Byte>, n: seq<Byte>, pos: nat, c: int, p: int, mem: int, s: int)
    requires Prepared(n, c, p, mem) && pos + |n| <= |h|
    requires forall i :: 0 <= i < mem ==> n[i] == h[pos + i]
    requires 1 <= s < mem && OccursAt(h, n, pos + s)
    ensures h[pos + |n| - 1] == n[|n| - 1]
  {
    var last := |n| - 1;
    assert n[last - s] == h[pos + s + (last - s)];
    assert n[last - p - s] == h[pos + s + (last - p - s)];
    assert n[last - p] == h[pos + (last - p)];
    assert n[last - p] == n[last] && n[last - p - s] == n[last - s];
  }

  lemma SkipRemembered(h: seq<Byte>, n: seq<Byte>, pos: nat, c: int, p: int, mem: int)
    requires Prepared(n, c, p, mem) && pos + |n| <= |h|
    requires forall i :: 0 <= i < mem ==> n[i] == h[pos + i]
    requires h[pos + |n| - 1] != n[|n| - 1]
    ensures NoMatchIn(h, n, pos + 1, pos + mem)
  {
    forall q | pos + 1 <= q < pos + mem ensures !OccursAt(h, n, q) {
      if OccursAt(h, n, q) {
        RememberedLastByte(h, n, pos, c, p, mem, q - pos);
      }
    }
  }

  // ---------------------------------------------------------------------
  // The searches
  // ---------------------------------------------------------------------

  /** Last position of every byte in `n[..i]`, plus one; `byteset` marks the bytes
      that occur at all. */
  ghost predicate ShiftTable(n: seq<Byte>, i: int, byteset: seq<bool>, shift: seq<int>)
  {
    0 <= i <= |n| && |byteset| == 256 && |shift| == 256 &&
    (forall j :: 0 <= j < i ==> byteset[n[j]]) &&
    forall b :: 0 <= b < 256 && byteset[b] ==>
      1 <= shift[b] <= i && n[shift[b] - 1] == b && forall j :: shift[b] <= j < i ==> n[j] != b
  }

  method FillShiftTable(n: seq<Byte>) returns (byteset: array<bool>, shift: array<int>)
    ensures ShiftTable(n, |n|, byteset[..], shift[..])
  {
    byteset := new bool[256](_ => false);
    shift := new int[256];
    for i := 0 to |n|
      invariant ShiftTable(n, i, byteset[..], shift[..])
    {
      byteset[n[i]] := true;
      shift[n[i]] := i + 1;
    }
  }

  /** Of the two maximal suffixes the shorter one gives the critical position
      `ms + 1`; `p` is the least period of that suffix. */
  method Factorize(n: seq<Byte>) returns (ms: int, p: int)
    requires |n| > 0
    ensures Critical(n, ms + 1) && LeastPeriod(n, ms + 1, |n|, p) && p + ms + 1 <= |n|
  {
    var p0, ip;
    ms, p0 := MaximalSuffix(n, false);
    ip, p := MaximalSuffix(n, true);
    ghost var low, high, o := ms + 1, ip + 1, true;
    if ip + 1 > ms + 1 {
      ms := ip;
    } else {
      p := p0;
      low, high, o := ip + 1, ms + 1, false;
    }
    forall r | LocalRepetition(n, high, r) ensures high < r && Period(n, 0, |n|, r) {
      LocalRepetitionIsPeriod(o, n, low, high, r);
    }
    assert Period(n, high, |n|, |n| - high);
  }

  method TwoWay(h: seq<Byte>, n: seq<Byte>) returns (r: Result)
    requires |n| > 0
    ensures FirstMatch(h, n, r)
  {
    var l := |n|;
    var byteset, shift := FillShiftTable(n);
    var ms, p := Factorize(n);
    var mem0;
    if n[..ms + 1] != n[p..p + ms + 1] {
      PreparedAperiodic(n, ms + 1, p);
      mem0 := 0;
      p := (if ms > l - ms - 1 then ms else l - ms - 1) + 1;
    } else {
      PreparedPeriodic(n, ms + 1, p);
      mem0 := l - p;
    }
    var pos, mem, found := 0, 0, false;
    while !found && |h| - pos >= l
      invariant 0 <= pos <= |h|
      invariant ShiftTable(n, l, byteset[..], shift[..])
      invariant Known(h, n, pos, mem, mem0)
      invariant NoMatchIn(h, n, 0, pos)
      invariant found ==> OccursAt(h, n, pos)
      decreases |h| - pos, !found
    {
      found, pos, mem := Attempt(h, n, byteset, shift, ms, p, mem0, pos, mem);
    }
    return if found then Found(pos) else NotFound;
  }

  /** The `mem` bytes of the needle known to match at `pos`. */
  ghost predicate Known(h: seq<Byte>, n: seq<Byte>, pos: int, mem: int, mem0: int)
  {
    0 <= pos && 0 <= mem <= |n| && (mem == 0 || mem == mem0) && (mem == 0 || pos + mem <= |h|) &&
    forall i :: 0 <= i < mem ==> n[i] == h[pos + i]
  }

  /** One round of the search loop: either a match at `pos`, or a move to `pos'`
      past offsets that are no matches. */
  method Attempt(h: seq<Byte>, n: seq<Byte>, byteset: array<bool>, shift: array<int>,
                 ms: int, p: int, mem0: int, pos: int, mem: int)
    returns (found: bool, pos': int, mem': int)
    requires |n| > 0 && Prepared(n, ms + 1, p, mem0)
    requires ShiftTable(n, |n|, byteset[..], shift[..])
    requires Known(h, n, pos, mem, mem0) && pos + |n| <= |h|
    ensures found ==> pos' == pos && OccursAt(h, n, pos)
    ensures !found ==> pos < pos' <= |h| && NoMatchIn(h, n, pos, pos')
    ensures Known(h, n, pos', mem', mem0)
  {
    var l := |n|;
    var skip := ByLastByte(h, n, byteset, shift, ms, p, mem0, pos, mem);
    if skip > 0 {
      return false, pos + skip, 0;
    }

    var k := CompareRight(h, n, pos, ms, mem);
    if k < l {
      SkipRight(h, n, pos, ms + 1, k);
      return false, pos + (k - ms), 0;
    }
    k := CompareLeft(h, n, pos, ms, mem);
    if k <= mem {
      return true, pos, mem;
    }
    SkipLeft(h, n, pos, ms + 1, p, mem0);
    Remembered(h, n, pos, ms + 1, p, mem0);
    return false, pos + p, mem0;
  }

  /** The move that the byte under the end of the needle allows, 0 if the rest has to be
      compared. */
  method ByLastByte(h: seq<Byte>, n: seq<Byte>, byteset: array<bool>, shift: array<int>,
                    ms: int, p: int, mem0: int, pos: int, mem: int)
    returns (k: int)
    requires |n| > 0 && Prepared(n, ms + 1, p, mem0)
    requires ShiftTable(n, |n|, byteset[..], shift[..])
    requires Known(h, n, pos, mem, mem0) && pos + |n| <= |h|
    ensures k >= 0 && (k > 0 ==> pos + k <= |h| && NoMatchIn(h, n, pos, pos + k))
  {
    var l := |n|;
    if byteset[h[pos + l - 1]] {
      k := l - shift[h[pos + l - 1]];
      if k != 0 {
        SkipLastByte(h, n, pos, byteset[..], shift[..], k);
        if k < mem {
          SkipRemembered(h, n, pos, ms + 1, p, mem);
          k := mem;
        }
      }
    } else {
      SkipLastByte(h, n, pos, byteset[..], shift[..], l);
      k := l;
    }
  }

  method CompareRight(h: seq<Byte>, n: seq<Byte>, pos: int, ms: int, mem: int) returns (k: int)
    requires 0 <= ms + 1 <= |n| && 0 <= mem <= |n| && 0 <= pos && pos + |n| <= |h|
    requires forall i :: 0 <= i < mem ==> n[i] == h[pos + i]
    ensures ms + 1 <= k <= |n|
    ensures forall i :: ms + 1 <= i < k ==> n[i] == h[pos + i]
    ensures k < |n| ==> n[k] != h[pos + k]
  {
    k := if ms + 1 > mem then ms + 1 else mem;
    while k < |n| && n[k] == h[pos + k]
      invariant ms + 1 <= k <= |n|
      invariant forall i :: ms + 1 <= i < k ==> n[i] == h[pos + i]
    {
      k := k + 1;
    }
  }

  method CompareLeft(h: seq<Byte>, n: seq<Byte>, pos: int, ms: int, mem: int) returns (k: int)
    requires 0 <= ms + 1 <= |n| && 0 <= mem <= |n| && 0 <= pos && pos + |n| <= |h|
    requires forall i :: 0 <= i < mem ==> n[i] == h[pos + i]
    requires forall i :: ms + 1 <= i < |n| ==> n[i] == h[pos + i]
    ensures k <= mem ==> OccursAt(h, n, pos)
    ensures k > mem ==> !OccursAt(h, n, pos)
  {
    k := ms + 1;
    while k > mem && n[k - 1] == h[pos + k - 1]
      invariant 0 <= k <= ms + 1
      invariant forall i :: k <= i < |n| ==> n[i] == h[pos + i]
    {
      k := k - 1;
    }
    assert k > mem ==> n[k - 1] != h[pos + (k - 1)];
  }

  /** A last byte whose last place in the needle is `k` before the end excludes the
      offsets below `k`. */
  lemma SkipLastByte(h: seq<Byte>, n: seq<Byte>, pos: nat, byteset: seq<bool>, shift: seq<int>, k: int)
    requires |n| > 0 && pos + |n| <= |h| && ShiftTable(n, |n|, byteset, shift)
    requires byteset[h[pos + |n| - 1]] ==> k == |n| - shift[h[pos + |n| - 1]] && k > 0
    requires !byteset[h[pos + |n| - 1]] ==> k == |n|
    ensures 0 < k <= |n| && n[|n| - 1] != h[pos + |n| - 1]
    ensures NoMatchIn(h, n, pos, pos + k)
  {
    var b := h[pos + |n| - 1];
    assert forall j :: |n| - k <= j < |n| ==> n[j] != b;
    forall q | pos <= q < pos + k ensures !OccursAt(h, n, q) {
      var j := |n| - 1 - (q - pos);
      assert n[j] != h[q + j];
    }
  }

  // ---------------------------------------------------------------------
  // Needles of two, three and four bytes: a sliding window packed in a word
  // ---------------------------------------------------------------------

  /** `a<<8|b` */
  function Word2(a: int, b: int): int {
    a * 0x100 + b
  }

  /** `a<<24|b<<16|c<<8|d` */
  function Word4(a: int, b: int, c: int, d: int): int {
    a * 0x100_0000 + b * 0x1_0000 + c * 0x100 + d
  }

  lemma WordsInjective(a: Byte, b: Byte, c: Byte, d: Byte, a': Byte, b': Byte, c': Byte, d': Byte)
    ensures Word2(a, b) == Word2(a', b') <==> a == a' && b == b'
    ensures Word4(a, b, c, d) == Word4(a', b', c', d') <==> a == a' && b == b' && c == c' && d == d'
  {
  }

  /** An offset beyond the last place for the needle is no occurrence. */
  lemma NoMore(h: seq<Byte>, n: seq<Byte>, to: int)
    requires NoMatchIn(h, n, 0, to) && to + |n| > |h|
    ensures FirstMatch(h, n, NotFound)
  {
  }

  /** Appending a byte and dropping what does not fit moves the window by one. */
  lemma Slide2(a: Byte, b: Byte, c: Byte)
    ensures (Word2(a, b) * 0x100 + c) % 0x1_0000 == Word2(b, c)
  {
    assert Word2(a, b) * 0x100 + c == a * 0x1_0000 + Word2(b, c);
  }

  lemma Slide3(a: Byte, b: Byte, c: Byte, d: Byte)
    ensures (Word4(a, b, c, 0) + d) * 0x100 % 0x1_0000_0000 == Word4(b, c, d, 0)
  {
    assert (Word4(a, b, c, 0) + d) * 0x100 == a * 0x1_0000_0000 + Word4(b, c, d, 0);
    DropHigh(a, Word4(b, c, d, 0));
  }

  lemma Slide4(a: Byte, b: Byte, c: Byte, d: Byte, e: Byte)
    ensures (Word4(a, b, c, d) * 0x100 + e) % 0x1_0000_0000 == Word4(b, c, d, e)
  {
    assert Word4(a, b, c, d) * 0x100 + e == a * 0x1_0000_0000 + Word4(b, c, d, e);
    DropHigh(a, Word4(b, c, d, e));
  }

  lemma DropHigh(a: int, x: int)
    requires 0 <= x < 0x1_0000_0000
    ensures (a * 0x1_0000_0000 + x) % 0x1_0000_0000 == x
  {
  }

  method TwoByte(h: seq<Byte>, n: seq<Byte>) returns (r: Result)
    requires |n| == 2 && |h| >= 2
    ensures FirstMatch(h, n, r)
  {
    hide OccursAt, Word2, Word4;
    var nw := Word2(n[0], n[1]);
    var hw := Word2(h[0], h[1]);
    var i, k := 2, |h| - 2;
    while k != 0
      invariant 2 <= i && k >= 0 && i + k == |h|
      invariant hw == Word2(h[i - 2], h[i - 1])
      invariant NoMatchIn(h, n, 0, i - 2)
      decreases k
    {
      TwoByteMatch(h, n, i - 2);
      if hw == nw { return Found(i - 2); }
      Slide2(h[i - 2], h[i - 1], h[i]);
      hw := (hw * 0x100 + h[i]) % 0x1_0000;
      i, k := i + 1, k - 1;
    }
    TwoByteMatch(h, n, i - 2);
    if hw == nw { return Found(i - 2); }
    NoMore(h, n, i - 2 + 1);
    return NotFound;
  }

  lemma TwoByteMatch(h: seq<Byte>, n: seq<Byte>, q: nat)
    requires |n| == 2 && q + 2 <= |h|
    ensures OccursAt(h, n, q) <==> Word2(n[0], n[1]) == Word2(h[q], h[q + 1])
  {
    assert OccursAt(h, n, q) <==> n[0] == h[q + 0] && n[1] == h[q + 1];
  }

  method ThreeByte(h: seq<Byte>, n: seq<Byte>) returns (r: Result)
    requires |n| == 3 && |h| >= 3
    ensures FirstMatch(h, n, r)
  {
    hide OccursAt, Word2, Word4;
    var nw := Word4(n[0], n[1], n[2], 0);
    var hw := Word4(h[0], h[1], h[2], 0);
    var i, k := 3, |h| - 3;
    while k != 0
      invariant 3 <= i && k >= 0 && i + k == |h|
      invariant hw == Word4(h[i - 3], h[i - 2], h[i - 1], 0)
      invariant NoMatchIn(h, n, 0, i - 3)
      decreases k
    {
      ThreeByteMatch(h, n, i - 3);
      if hw == nw { return Found(i - 3); }
      Slide3(h[i - 3], h[i - 2], h[i - 1], h[i]);
      hw := (hw + h[i]) * 0x100 % 0x1_0000_0000;
      i, k := i + 1, k - 1;
    }
    ThreeByteMatch(h, n, i - 3);
    if hw == nw { return Found(i - 3); }
    NoMore(h, n, i - 3 + 1);
    return NotFound;
  }

  lemma ThreeByteMatch(h: seq<Byte>, n: seq<Byte>, q: nat)
    requires |n| == 3 && q + 3 <= |h|
    ensures OccursAt(h, n, q) <==> Word4(n[0], n[1], n[2], 0) == Word4(h[q], h[q + 1], h[q + 2], 0)
  {
    assert OccursAt(h, n, q) <==> n[0] == h[q + 0] && n[1] == h[q + 1] && n[2] == h[q + 2];
    WordsInjective(n[0], n[1], n[2], 0, h[q], h[q + 1], h[q + 2], 0);
  }

  method FourByte(h: seq<Byte>, n: seq<Byte>) returns (r: Result)
    requires |n| == 4 && |h| >= 4
    ensures FirstMatch(h, n, r)
  {
    hide OccursAt, Word2, Word4;
    var nw := Word4(n[0], n[1], n[2], n[3]);
    var hw := Word4(h[0], h[1], h[2], h[3]);
    var i, k := 4, |h| - 4;
    while k != 0
      invariant 4 <= i && k >= 0 && i + k == |h|
      invariant hw == Word4(h[i - 4], h[i - 3], h[i - 2], h[i - 1])
      invariant NoMatchIn(h, n, 0, i - 4)
      decreases k
    {
      FourByteMatch(h, n, i - 4);
      if hw == nw { return Found(i - 4); }
      Slide4(h[i - 4], h[i - 3], h[i - 2], h[i - 1], h[i]);
      hw := (hw * 0x100 + h[i]) % 0x1_0000_0000;
      i, k := i + 1, k - 1;
    }
    FourByteMatch(h, n, i - 4);
    if hw == nw { return Found(i - 4); }
    NoMore(h, n, i - 4 + 1);
    return NotFound;
  }

  lemma FourByteMatch(h: seq<Byte>, n: seq<Byte>, q: nat)
    requires |n| == 4 && q + 4 <= |h|
    ensures OccursAt(h, n, q) <==> Word4(n[0], n[1], n[2], n[3]) == Word4(h[q], h[q + 1], h[q + 2], h[q + 3])
  {
    assert OccursAt(h, n, q) <==>
      n[0] == h[q + 0] && n[1] == h[q + 1] && n[2] == h[q + 2] && n[3] == h[q + 3];
    WordsInjective(n[0], n[1], n[2], n[3], h[q], h[q + 1], h[q + 2], h[q + 3]);
  }

  // ---------------------------------------------------------------------
  // memmem
  // ---------------------------------------------------------------------

  method Memchr(h: seq<Byte>, b: Byte) returns (r: Result)
    ensures r.Found? ==> r.offset < |h| && h[r.offset] == b && forall i :: 0 <= i < r.offset ==> h[i] != b
    ensures r.NotFound? ==> forall i :: 0 <= i < |h| ==> h[i] != b
  {
    for i := 0 to |h|
      invariant forall j :: 0 <= j < i ==> h[j] != b
    {
      if h[i] == b { return Found(i); }
    }
    return NotFound;
  }

  method Memmem(h0: seq<Byte>, n: seq<Byte>) returns (r: Result)
    ensures FirstMatch(h0, n, r)
  {
    if |n| == 0 { return Found(0); }
    if |h0| < |n| { return NotFound; }
    var first := Memchr(h0, n[0]);
    assert forall q :: OccursAt(h0, n, q) ==> n[0] == h0[q + 0];
    if first.NotFound? || |n| == 1 {
      return first;
    }
    var h := h0[first.offset..];
    if |h| < |n| { return NotFound; }
    if |n| == 2 {
      r := TwoByte(h, n);
    } else if |n| == 3 {
      r := ThreeByte(h, n);
    } else if |n| == 4 {
      r := FourByte(h, n);
    } else {
      r := TwoWay(h, n);
    }
    AfterFirstByte(h0, n, first.offset, r);
    if r.Found? {
      r := Found(first.offset + r.offset);
    }
  }

  /** Searching from the first place where the needle's first byte occurs. */
  lemma AfterFirstByte(h: seq<Byte>, n: seq<Byte>, start: nat, r: Result)
    requires |n| > 0 && start <= |h| && FirstMatch(h[start..], n, r)
    requires NoMatchIn(h, n, 0, start)
    ensures FirstMatch(h, n, if r.Found? then Found(start + r.offset) else NotFound)
  {
    var rest := h[start..];
    forall q | start <= q ensures OccursAt(h, n, q) == OccursAt(rest, n, q - start) {
      assert q + |n| <= |h| ==> forall i :: 0 <= i < |n| && n[i] == n[i] ==> h[q + i] == rest[q - start + i];
    }
  }
}
