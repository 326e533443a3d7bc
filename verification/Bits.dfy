/** Rows of bits packed in 32-bit words (byacc/defs.h: BITS_PER_WORD, WORDSIZE,
    BIT, SETBIT, and the word loops that or or copy one row into another).

    A matrix is one flat array of words, `w` words to a row.  Everything above
    this module reasons about the sets of bits that the rows stand for. */
module Bits {

  function WordSize(n: nat): (w: nat)
    ensures n <= 32 * w < n + 32
  {
    (n + 31) / 32
  }

  // ---------------------------------------------------------------------
  // One word
  // ---------------------------------------------------------------------

  /** `1 << i` */
  function Mask(i: nat): bv32
    requires i < 32
  {
    if i == 0 then 1 else Mask(i - 1) << 1
  }

  /** `x >> i & 1` */
  predicate BitIn(x: bv32, i: nat)
    requires i < 32
    decreases i
  {
    if i == 0 then x & 1 == 1 else BitIn(x >> 1, i - 1)
  }

  lemma TopMask()
    ensures Mask(31) != 0
  {
    assert Mask(1) == 0x2;
    assert Mask(2) == 0x4;
    assert Mask(3) == 0x8;
    assert Mask(4) == 0x10;
    assert Mask(5) == 0x20;
    assert Mask(6) == 0x40;
    assert Mask(7) == 0x80;
    assert Mask(8) == 0x100;
    assert Mask(9) == 0x200;
    assert Mask(10) == 0x400;
    assert Mask(11) == 0x800;
    assert Mask(12) == 0x1000;
    assert Mask(13) == 0x2000;
    assert Mask(14) == 0x4000;
    assert Mask(15) == 0x8000;
    assert Mask(16) == 0x10000;
    assert Mask(17) == 0x20000;
    assert Mask(18) == 0x40000;
    assert Mask(19) == 0x80000;
    assert Mask(20) == 0x100000;
    assert Mask(21) == 0x200000;
    assert Mask(22) == 0x400000;
    assert Mask(23) == 0x800000;
    assert Mask(24) == 0x1000000;
    assert Mask(25) == 0x2000000;
    assert Mask(26) == 0x4000000;
    assert Mask(27) == 0x8000000;
    assert Mask(28) == 0x10000000;
    assert Mask(29) == 0x20000000;
    assert Mask(30) == 0x40000000;
    assert Mask(31) == 0x80000000;
  }

  lemma {:induction false} MaskPower(i: nat)
    requires i < 32
    ensures Mask(i) & (Mask(i) - 1) == 0 && Mask(i) != 0
    decreases 31 - i
  {
    MaskOneBit(i);
    if i == 31 {
      TopMask();
    } else {
      MaskPower(i + 1);
    }
  }

  lemma {:induction false} MaskOneBit(i: nat)
    requires i < 32
    ensures Mask(i) & (Mask(i) - 1) == 0
  {
    if i > 0 {
      MaskOneBit(i - 1);
      OneBitDouble(Mask(i - 1));
    }
  }

  lemma OneBitDouble(m: bv32)
    requires m & (m - 1) == 0
    ensures (m << 1) & ((m << 1) - 1) == 0
  {
  }

  lemma OneBitHalf(m: bv32)
    requires m & (m - 1) == 0 && m << 1 != 0
    ensures (m << 1) >> 1 == m && (m << 1) & 1 == 0
  {
  }

  lemma {:induction false} BitOfZero(i: nat)
    requires i < 32
    ensures !BitIn(0, i)
    decreases i
  {
    if i > 0 {
      BitOfZero(i - 1);
    }
  }

  /** `1 << k` has exactly bit `k`. */
  lemma {:induction false} BitOfMask(k: nat, i: nat)
    requires k < 32 && i < 32
    ensures BitIn(Mask(k), i) <==> i == k
    decreases i
  {
    if k > 0 {
      MaskPower(k);
      MaskPower(k - 1);
      OneBitHalf(Mask(k - 1));
      if i > 0 {
        BitOfMask(k - 1, i - 1);
      }
    } else if i > 0 {
      BitOfZero(i - 1);
    }
  }

  lemma {:induction false} BitOfOr(x: bv32, y: bv32, z: bv32, i: nat)
    requires i < 32 && z == x | y
    ensures BitIn(z, i) <==> BitIn(x, i) || BitIn(y, i)
    decreases i
  {
    if i > 0 {
      OrHalves(x, y);
      BitOfOrHalf(x, y, z, i, x >> 1, y >> 1, z >> 1);
    } else {
      OrLowBit(x, y);
    }
  }

  lemma {:induction false} BitOfOrHalf(x: bv32, y: bv32, z: bv32, i: nat, x': bv32, y': bv32, z': bv32)
    requires 0 < i < 32 && x' == x >> 1 && y' == y >> 1 && z' == z >> 1 && z' == x' | y'
    ensures BitIn(z, i) <==> BitIn(x, i) || BitIn(y, i)
    decreases i, 0
  {
    BitOfOr(x', y', z', i - 1);
  }

  lemma OrHalves(x: bv32, y: bv32)
    ensures (x | y) >> 1 == (x >> 1) | (y >> 1)
  {
  }

  lemma OrLowBit(x: bv32, y: bv32)
    ensures (x | y) & 1 == 1 <==> x & 1 == 1 || y & 1 == 1
  {
  }

  // ---------------------------------------------------------------------
  // Rows of words
  // ---------------------------------------------------------------------

  /** The set of bits that a row of words stands for. */
  ghost function Members(ws: seq<bv32>): (m: set<nat>)
    ensures forall b :: b in m <==> 0 <= b < 32 * |ws| && BitIn(ws[b / 32], b % 32)
  {
    set b: nat | b < 32 * |ws| && BitIn(ws[b / 32], b % 32)
  }

  /** First word of row `i`: `i * w`. */
  function RowStart(i: nat, w: nat): nat {
    if i == 0 then 0 else RowStart(i - 1, w) + w
  }

  lemma {:induction false} RowStartMonotone(i: nat, j: nat, w: nat)
    requires i < j
    ensures RowStart(i, w) + w <= RowStart(j, w)
  {
    if i < j - 1 {
      RowStartMonotone(i, j - 1, w);
    }
  }

  ghost predicate Matrix(a: seq<bv32>, n: nat, w: nat)
  {
    |a| == RowStart(n, w)
  }

  ghost function Row(a: seq<bv32>, n: nat, w: nat, i: nat): set<nat>
    requires Matrix(a, n, w) && i < n
  {
    RowStartMonotone(i, n, w);
    Members(a[RowStart(i, w)..RowStart(i, w) + w])
  }

  /** The rows of a matrix, as sets. */
  ghost function Rows(a: seq<bv32>, n: nat, w: nat): seq<set<nat>>
    requires Matrix(a, n, w)
  {
    seq(n, i requires 0 <= i < n => Row(a, n, w, i))
  }

  /** Every word of `z` is the or of the words of `x` and `y`. */
  ghost predicate IsOr(x: seq<bv32>, y: seq<bv32>, z: seq<bv32>)
  {
    |x| == |y| == |z| && forall k :: 0 <= k < |z| ==> WordOr(x[k], y[k], z[k])
  }

  ghost predicate WordOr(x: bv32, y: bv32, z: bv32) {
    forall i: nat :: i < 32 ==> (BitIn(z, i) <==> BitIn(x, i) || BitIn(y, i))
  }

  lemma WordOrHolds(x: bv32, y: bv32)
    ensures WordOr(x, y, x | y)
  {
    forall i: nat | i < 32 ensures BitIn(x | y, i) <==> BitIn(x, i) || BitIn(y, i) {
      BitOfOr(x, y, x | y, i);
    }
  }

  lemma MembersOfOr(x: seq<bv32>, y: seq<bv32>, z: seq<bv32>)
    requires IsOr(x, y, z)
    ensures Members(z) == Members(x) + Members(y)
  {
    forall b: nat | b < 32 * |x| ensures b in Members(z) <==> b in Members(x) || b in Members(y) {
      var k := b / 32;
      assert WordOr(x[k], y[k], z[k]);
    }
  }

  /** Zero words are the empty set. */
  lemma MembersOfZero(x: seq<bv32>)
    requires forall k :: 0 <= k < |x| ==> x[k] == 0
    ensures Members(x) == {}
  {
    forall b: nat | b < 32 * |x| ensures b !in Members(x) {
      BitOfZero(b % 32);
    }
  }

  lemma MembersOfSet(x: seq<bv32>, z: seq<bv32>, b: nat)
    requires b < 32 * |x| && |z| == |x|
    requires forall k :: 0 <= k < |x| && k != b / 32 ==> z[k] == x[k]
    requires WordOr(x[b / 32], Mask(b % 32), z[b / 32])
    ensures Members(z) == Members(x) + {b}
  {
    forall c: nat | c < 32 * |x| ensures c in Members(z) <==> c in Members(x) || c == b {
      if c / 32 == b / 32 {
        BitOfMask(b % 32, c % 32);
      }
    }
  }

  /** A write inside one row changes that row only. */
  lemma RowsAfterWrite(a: seq<bv32>, a': seq<bv32>, n: nat, w: nat, i: nat)
    requires Matrix(a, n, w) && |a'| == |a| && i < n
    requires RowStart(i, w) + w <= |a|
    requires forall k :: 0 <= k < |a| && !(RowStart(i, w) <= k < RowStart(i, w) + w) ==> a'[k] == a[k]
    ensures Rows(a', n, w) == Rows(a, n, w)[i := Members(a'[RowStart(i, w)..RowStart(i, w) + w])]
  {
    forall j | 0 <= j < n && j != i ensures Row(a', n, w, j) == Row(a, n, w, j) {
      RowStartMonotone(j, n, w);
      if j < i { RowStartMonotone(j, i, w); } else { RowStartMonotone(i, j, w); }
      var s := RowStart(j, w);
      assert a'[s..s + w] == a[s..s + w];
    }
  }

  // ---------------------------------------------------------------------
  // The macros and the word loops
  // ---------------------------------------------------------------------

  /** Zeroed storage for `n` rows. */
  method NewMatrix(n: nat, w: nat) returns (a: array<bv32>)
    ensures fresh(a) && Matrix(a[..], n, w)
    ensures Rows(a[..], n, w) == seq(n, i => {})
  {
    a := new bv32[RowStart(n, w)](_ => 0);
    forall i | 0 <= i < n ensures Row(a[..], n, w, i) == {} {
      RowStartMonotone(i, n, w);
      MembersOfZero(a[..][RowStart(i, w)..RowStart(i, w) + w]);
    }
  }

  /** `BIT(a + row * w, b)` */
  method TestBit(a: array<bv32>, n: nat, w: nat, i: nat, b: nat) returns (r: bool)
    requires Matrix(a[..], n, w) && i < n && b < 32 * w
    ensures r == (b in Rows(a[..], n, w)[i])
  {
    RowStartMonotone(i, n, w);
    var s := RowStart(i, w);
    assert a[..][s..s + w][b / 32] == a[s + b / 32];
    r := BitIn(a[s + b / 32], b % 32);
  }

  method OrMask(x: bv32, i: nat) returns (y: bv32)
    requires i < 32
    ensures WordOr(x, Mask(i), y)
  {
    hide BitIn, Mask;
    WordOrHolds(x, Mask(i));
    y := x | Mask(i);
  }

  /** `SETBIT(a + row * w, b)` */
  method SetBit(a: array<bv32>, n: nat, w: nat, i: nat, b: nat)
    requires Matrix(a[..], n, w) && i < n && b < 32 * w
    modifies a
    ensures Matrix(a[..], n, w)
    ensures Rows(a[..], n, w) == old(Rows(a[..], n, w))[i := old(Rows(a[..], n, w))[i] + {b}]
  {
    hide BitIn, Mask, Members, WordOr;
    RowStartMonotone(i, n, w);
    var s := RowStart(i, w);
    ghost var before := a[..];
    var k := s + b / 32;
    a[k] := OrMask(a[k], b % 32);
    MembersOfSet(before[s..s + w], a[s..s + w], b);
    assert a[..][s..s + w] == a[s..s + w];
    RowsAfterWrite(before, a[..], n, w, i);
  }

  /** Or `w` words at `src` of `b` into `w` words at `dst` of `a`. */
  method OrInto(a: array<bv32>, dst: nat, b: array<bv32>, src: nat, w: nat)
    requires dst + w <= a.Length && src + w <= b.Length
    requires a == b ==> src == dst || src + w <= dst || dst + w <= src
    modifies a
    ensures forall m :: 0 <= m < a.Length && !(dst <= m < dst + w) ==> a[m] == old(a[m])
    ensures IsOr(old(a[dst..dst + w]), old(b[src..src + w]), a[dst..dst + w])
  {
    ghost var x, y := a[dst..dst + w], b[src..src + w];
    var k := 0;
    while k < w
      invariant 0 <= k <= w
      invariant forall m :: 0 <= m < a.Length && !(dst <= m < dst + k) ==> a[m] == old(a[m])
      invariant IsOr(x[..k], y[..k], a[dst..dst + k])
      invariant a != b ==> b[..] == old(b[..])
    {
      assert a[dst + k] == x[k] && b[src + k] == y[k];
      WordOrHolds(x[k], y[k]);
      ghost var z := a[dst..dst + k];
      a[dst + k] := a[dst + k] | b[src + k];
      assert a[dst..dst + k] == z;
      k := k + 1;
    }
    assert x[..w] == x && y[..w] == y;
  }

  /** Row `i` becomes the union of rows `i` and `j`. */
  method OrRow(a: array<bv32>, n: nat, w: nat, i: nat, j: nat)
    requires Matrix(a[..], n, w) && i < n && j < n
    modifies a
    ensures Matrix(a[..], n, w)
    ensures Rows(a[..], n, w) == old(Rows(a[..], n, w))[i := old(Rows(a[..], n, w))[i] + old(Rows(a[..], n, w))[j]]
  {
    RowStartMonotone(i, n, w);
    RowStartMonotone(j, n, w);
    if i < j { RowStartMonotone(i, j, w); }
    if j < i { RowStartMonotone(j, i, w); }
    var s, t := RowStart(i, w), RowStart(j, w);
    ghost var before := a[..];
    OrInto(a, s, a, t, w);
    MembersOfOr(before[s..s + w], before[t..t + w], a[..][s..s + w]);
    RowsAfterWrite(before, a[..], n, w, i);
  }

  /** Row `i` becomes a copy of row `j`. */
  method CopyRow(a: array<bv32>, n: nat, w: nat, i: nat, j: nat)
    requires Matrix(a[..], n, w) && i < n && j < n && i != j
    modifies a
    ensures Matrix(a[..], n, w)
    ensures Rows(a[..], n, w) == old(Rows(a[..], n, w))[i := old(Rows(a[..], n, w))[j]]
  {
    RowStartMonotone(i, n, w);
    RowStartMonotone(j, n, w);
    if i < j { RowStartMonotone(i, j, w); } else { RowStartMonotone(j, i, w); }
    var s, t := RowStart(i, w), RowStart(j, w);
    ghost var before := a[..];
    CopyWords(a, s, t, w);
    assert a[..][s..s + w] == before[t..t + w];
    RowsAfterWrite(before, a[..], n, w, i);
  }

  method CopyWords(a: array<bv32>, dst: nat, src: nat, w: nat)
    requires dst + w <= a.Length && src + w <= a.Length
    requires src + w <= dst || dst + w <= src
    modifies a
    ensures forall m :: 0 <= m < a.Length && !(dst <= m < dst + w) ==> a[m] == old(a[m])
    ensures a[dst..dst + w] == old(a[src..src + w])
  {
    var k := 0;
    while k < w
      invariant 0 <= k <= w
      invariant forall m :: 0 <= m < a.Length && !(dst <= m < dst + k) ==> a[m] == old(a[m])
      invariant a[dst..dst + k] == old(a[src..src + k])
    {
      a[dst + k] := a[src + k];
      assert a[dst..dst + (k + 1)] == a[dst..dst + k] + [a[dst + k]];
      k := k + 1;
    }
  }
}
