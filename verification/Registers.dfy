/** ex/ex_temp.c: the named registers.  Each register is a chain of blocks in the register
    file; a bitmap says which blocks are taken. */
module Registers {

  /** Characters in one block, besides the two block numbers. */
  const TEXT := 508
  const WORDS := 256
  const BLOCKS := 4096
  const NREGS := 36

  /** rg_flags is left out: it is 0 outside of visual mode. */
  datatype Reg = Reg(nleft: nat, first: nat, last: nat)

  datatype RBuf = RBuf(prev: nat, next: nat, text: seq<int>)

  /** The names a command can give: '0' is refused (ex/ex_vmain.c:116-123). */
  predicate IsName(c: char) {
    'a' <= c <= 'z' || 'A' <= c <= 'Z' || '1' <= c <= '9'
  }

  /** 'a' to 'z' are 0 to 25, '1' to '9' are 27 to 35, and 26 is the register without a
      name; capitals stand for the same registers as small letters. */
  function MapReg(c: char): (r: nat)
    requires IsName(c)
    ensures r < NREGS && r != 26
  {
    if '1' <= c <= '9' then 26 + (c as int - '0' as int)
    else if 'A' <= c <= 'Z' then c as int - 'A' as int
    else c as int - 'a' as int
  }

  // ---------------------------------------------------------------------
  // Words of the bitmap
  // ---------------------------------------------------------------------

  function Mask(i: nat): bv16
    requires i < 16
  {
    if i == 0 then 1 else Mask(i - 1) << 1
  }

  predicate BitIn(x: bv16, i: nat)
    requires i < 16
    decreases i
  {
    if i == 0 then x & 1 == 1 else BitIn(x >> 1, i - 1)
  }

  lemma MaskTable()
    ensures Mask(1) == 0x2 && Mask(2) == 0x4 && Mask(3) == 0x8 && Mask(4) == 0x10 && Mask(5) == 0x20 && Mask(6) == 0x40
    ensures Mask(7) == 0x80 && Mask(8) == 0x100 && Mask(9) == 0x200 && Mask(10) == 0x400 && Mask(11) == 0x800
    ensures Mask(12) == 0x1000 && Mask(13) == 0x2000 && Mask(14) == 0x4000 && Mask(15) == 0x8000
  {
    assert Mask(1) == 0x2;
    assert Mask(2) == 0x4;
    assert Mask(3) == 0x8;
    assert Mask(4) == 0x10;
    assert Mask(5) == 0x20;
    assert Mask(6) == 0x40;
    assert Mask(7) == 0x80;
    assert Mask(8) == 0x100;
    assert Mask(9) == 0x200;
    assert Mask(10) == 0x400;
    assert Mask(11) == 0x800;
    assert Mask(12) == 0x1000;
    assert Mask(13) == 0x2000;
    assert Mask(14) == 0x4000;
  }

  lemma {:induction false} MaskHalf(i: nat)
    requires 0 < i < 16
    ensures Mask(i) >> 1 == Mask(i - 1) && Mask(i) & 1 == 0
  {
    MaskTable();
    var m := Mask(i - 1);
    assert m == 0x1 || m == 0x2 || m == 0x4 || m == 0x8 || m == 0x10 || m == 0x20 || m == 0x40 || m == 0x80 || m == 0x100 ||
           m == 0x200 || m == 0x400 || m == 0x800 || m == 0x1000 || m == 0x2000 || m == 0x4000;
    HalfOfDouble(m);
  }

  lemma HalfOfDouble(m: bv16)
    requires m & 0x8000 == 0
    ensures (m << 1) >> 1 == m && (m << 1) & 1 == 0
  {
  }

  /** `x | (1 << k)` has bit `k` more. */
  lemma {:induction false} BitOfOr(x: bv16, m: bv16, z: bv16, i: nat)
    requires i < 16 && z == x | m
    ensures BitIn(z, i) <==> BitIn(x, i) || BitIn(m, i)
    decreases i, 1
  {
    OrParts(x, m);
    if i > 0 {
      BitOfOrHalf(x, m, z, i, x >> 1, m >> 1, z >> 1);
    }
  }

  lemma {:induction false} BitOfOrHalf(x: bv16, m: bv16, z: bv16, i: nat, x': bv16, m': bv16, z': bv16)
    requires 0 < i < 16 && x' == x >> 1 && m' == m >> 1 && z' == z >> 1 && z' == x' | m'
    ensures BitIn(z, i) <==> BitIn(x, i) || BitIn(m, i)
    decreases i, 0
  {
    BitOfOr(x', m', z', i - 1);
  }

  /** `x & ~(1 << k)` has it less. */
  lemma {:induction false} BitOfAndNot(x: bv16, m: bv16, z: bv16, i: nat)
    requires i < 16 && z == x & !m
    ensures BitIn(z, i) <==> BitIn(x, i) && !BitIn(m, i)
    decreases i, 1
  {
    AndNotParts(x, m);
    if i > 0 {
      BitOfAndNotHalf(x, m, z, i, x >> 1, m >> 1, z >> 1);
    }
  }

  lemma {:induction false} BitOfAndNotHalf(x: bv16, m: bv16, z: bv16, i: nat, x': bv16, m': bv16, z': bv16)
    requires 0 < i < 16 && x' == x >> 1 && m' == m >> 1 && z' == z >> 1 && z' == x' & !m'
    ensures BitIn(z, i) <==> BitIn(x, i) && !BitIn(m, i)
    decreases i, 0
  {
    BitOfAndNot(x', m', z', i - 1);
  }

  lemma OrParts(x: bv16, m: bv16)
    ensures (x | m) >> 1 == (x >> 1) | (m >> 1)
    ensures (x | m) & 1 == 1 <==> x & 1 == 1 || m & 1 == 1
  {
  }

  lemma AndNotParts(x: bv16, m: bv16)
    ensures (x & !m) >> 1 == (x >> 1) & !(m >> 1)
    ensures (x & !m) & 1 == 1 <==> x & 1 == 1 && !(m & 1 == 1)
  {
  }

  lemma {:induction false} BitOfMask(k: nat, i: nat)
    requires k < 16 && i < 16
    ensures BitIn(Mask(k), i) <==> i == k
    decreases i
  {
    if k > 0 {
      MaskHalf(k);
      if i > 0 {
        BitOfMask(k - 1, i - 1);
      }
    } else if i > 0 {
      BitOfZero(i - 1);
    }
  }

  lemma {:induction false} BitOfZero(i: nat)
    requires i < 16
    ensures !BitIn(0, i)
    decreases i
  {
    if i > 0 {
      BitOfZero(i - 1);
    }
  }

  lemma SetOne(x: bv16, m: bv16, z: bv16, k: nat, i: nat)
    requires k < 16 && i < 16 && m == Mask(k) && z == x | m
    ensures BitIn(z, i) <==> BitIn(x, i) || i == k
  {
    hide BitIn, Mask;
    BitOfMask(k, i);
    BitOfOr(x, m, z, i);
  }

  lemma ClearOne(x: bv16, m: bv16, z: bv16, k: nat, i: nat)
    requires k < 16 && i < 16 && m == Mask(k) && z == x & !m
    ensures BitIn(z, i) <==> BitIn(x, i) && i != k
  {
    hide BitIn, Mask;
    BitOfMask(k, i);
    BitOfAndNot(x, m, z, i);
  }

  lemma {:induction false} BitOfXor(x: bv16, m: bv16, z: bv16, i: nat)
    requires i < 16 && z == x ^ m
    ensures BitIn(z, i) <==> BitIn(x, i) != BitIn(m, i)
    decreases i, 1
  {
    XorParts(x, m);
    if i > 0 {
      BitOfXorHalf(x, m, z, i, x >> 1, m >> 1, z >> 1);
    }
  }

  lemma {:induction false} BitOfXorHalf(x: bv16, m: bv16, z: bv16, i: nat, x': bv16, m': bv16, z': bv16)
    requires 0 < i < 16 && x' == x >> 1 && m' == m >> 1 && z' == z >> 1 && z' == x' ^ m'
    ensures BitIn(z, i) <==> BitIn(x, i) != BitIn(m, i)
    decreases i, 0
  {
    BitOfXor(x', m', z', i - 1);
  }

  lemma XorParts(x: bv16, m: bv16)
    ensures (x ^ m) >> 1 == (x >> 1) ^ (m >> 1)
    ensures (x ^ m) & 1 == 1 <==> ((x & 1 == 1) != (m & 1 == 1))
  {
  }

  lemma {:induction false} AllOnes(i: nat)
    requires i < 16
    ensures BitIn(0xffff, i)
  {
    assert BitIn(0xffff, 0) && BitIn(0xffff, 1) && BitIn(0xffff, 2) && BitIn(0xffff, 3);
    assert BitIn(0xffff, 4) && BitIn(0xffff, 5) && BitIn(0xffff, 6) && BitIn(0xffff, 7);
    assert BitIn(0xffff, 8) && BitIn(0xffff, 9) && BitIn(0xffff, 10) && BitIn(0xffff, 11);
    assert BitIn(0xffff, 12) && BitIn(0xffff, 13) && BitIn(0xffff, 14) && BitIn(0xffff, 15);
  }

  /** The free bits of a word. */
  lemma FreeBits(x: bv16, y: bv16, i: nat)
    requires i < 16 && y == x ^ 0xffff
    ensures BitIn(y, i) <==> !BitIn(x, i)
  {
    hide BitIn;
    BitOfXor(x, 0xffff, y, i);
    AllOnes(i);
  }

  /** The free blocks of a word; in the first word bit 0 stands for no block. */
  function FreeMask(x: bv16, first: bool): bv16 {
    var m := (x ^ 0xffff) & 0xffff;
    if first then m & !1 else m
  }

  lemma RestIs(x: bv16)
    ensures FreeMask(x, false) == x ^ 0xffff
  {
  }

  lemma FirstIs(x: bv16)
    ensures FreeMask(x, true) == FreeMask(x, false) & !Mask(0)
  {
  }

  lemma RestBits(x: bv16, i: nat)
    requires i < 16
    ensures BitIn(FreeMask(x, false), i) <==> !BitIn(x, i)
  {
    hide BitIn, FreeMask;
    RestIs(x);
    FreeBits(x, FreeMask(x, false), i);
  }

  lemma FirstBits(x: bv16, i: nat)
    requires i < 16
    ensures BitIn(FreeMask(x, true), i) <==> BitIn(FreeMask(x, false), i) && i != 0
  {
    hide BitIn, FreeMask, Mask;
    FirstIs(x);
    ClearOne(FreeMask(x, false), Mask(0), FreeMask(x, true), 0, i);
  }

  lemma FreeMaskBit(x: bv16, first: bool, i: nat)
    requires i < 16
    ensures BitIn(FreeMask(x, first), i) <==> !BitIn(x, i) && !(first && i == 0)
  {
    hide BitIn, FreeMask;
    RestBits(x, i);
    if first {
      FirstBits(x, i);
    }
  }

  /** A word other than 0 has a bit. */
  lemma SomeBit(m: bv16) returns (i: nat)
    requires m != 0
    ensures i < 16 && BitIn(m, i)
  {
    i := if BitIn(m, 0) then 0 else if BitIn(m, 1) then 1 else if BitIn(m, 2) then 2 else if BitIn(m, 3) then 3
         else if BitIn(m, 4) then 4 else if BitIn(m, 5) then 5 else if BitIn(m, 6) then 6 else if BitIn(m, 7) then 7
         else if BitIn(m, 8) then 8 else if BitIn(m, 9) then 9 else if BitIn(m, 10) then 10 else if BitIn(m, 11) then 11
         else if BitIn(m, 12) then 12 else if BitIn(m, 13) then 13 else if BitIn(m, 14) then 14 else 15;
  }

  /** Bit `l` of a word that has been shifted right `j` times is bit `j + l`. */
  ghost predicate Shifted(m0: bv16, m: bv16, j: nat) {
    forall l: nat :: BitFrom(m0, m, j, l)
  }

  ghost predicate BitFrom(m0: bv16, m: bv16, j: nat, l: nat) {
    l + j < 16 ==> BitIn(m, l) == BitIn(m0, j + l)
  }

  lemma ShiftOnce(m0: bv16, m: bv16, m': bv16, j: nat)
    requires j < 16 && Shifted(m0, m, j) && m' == m >> 1
    ensures Shifted(m0, m', j + 1) && BitIn(m0, j) == (m & 1 == 1)
  {
    assert BitFrom(m0, m, j, 0);
    var j' := j + 1;
    forall l: nat ensures BitFrom(m0, m', j', l) {
      ShiftOnceAt(m0, m, m', j, l);
    }
  }

  lemma ShiftOnceAt(m0: bv16, m: bv16, m': bv16, j: nat, l: nat)
    requires Shifted(m0, m, j) && m' == m >> 1
    ensures BitFrom(m0, m', j + 1, l)
  {
    assert BitFrom(m0, m, j, l + 1);
  }

  /** The lowest bit that is set: `while ((m & 1) == 0) j++, m >>= 1`. */
  method LowestBit(m0: bv16) returns (j: nat)
    requires m0 != 0
    ensures j < 16 && BitIn(m0, j) && forall l :: 0 <= l < j ==> !BitIn(m0, l)
  {
    hide BitIn, Shifted;
    j := 0;
    var m := m0;
    ghost var i := SomeBit(m0);
    NotShifted(m0);
    while m & 1 == 0
      invariant j <= i && Shifted(m0, m, j)
      invariant forall l :: 0 <= l < j ==> !BitIn(m0, l)
      decreases i - j
    {
      ShiftOnce(m0, m, m >> 1, j);
      j, m := j + 1, m >> 1;
    }
    ShiftOnce(m0, m, m >> 1, j);
  }

  lemma NotShifted(m0: bv16)
    ensures Shifted(m0, m0, 0)
  {
  }

  // ---------------------------------------------------------------------
  // Chains
  // ---------------------------------------------------------------------

  /** `b` is marked as taken. */
  predicate Taken(rused: seq<bv16>, b: nat)
    requires |rused| == WORDS && b < BLOCKS
  {
    BitIn(rused[b / 16], b % 16)
  }

  ghost predicate NoRepeats(s: seq<nat>) {
    forall i, j :: 0 <= i < j < |s| ==> s[i] != s[j]
  }

  /** Block `i` of the chain is followed by block `i + 1`. */
  ghost predicate LinkAt(rfile: seq<RBuf>, chain: seq<nat>, i: nat)
    requires i < |chain|
  {
    0 < chain[i] < |rfile| && |rfile[chain[i]].text| == TEXT &&
    rfile[chain[i]].next == if i + 1 < |chain| then chain[i + 1] else 0
  }

  /** The first `n` blocks of the chain are linked. */
  ghost predicate Linked(rfile: seq<RBuf>, chain: seq<nat>, n: nat)
    requires n <= |chain|
  {
    forall i: nat :: i < n ==> LinkAt(rfile, chain, i)
  }

  /** The characters of some blocks, one block after another. */
  ghost function Chars(rfile: seq<RBuf>, chain: seq<nat>): seq<int> {
    if chain == [] then []
    else Chars(rfile, chain[..|chain| - 1]) + (if chain[|chain| - 1] < |rfile| then rfile[chain[|chain| - 1]].text else [])
  }

  /** Whole lines, each with its newline. */
  ghost function Joined(lines: seq<seq<int>>): seq<int> {
    if lines == [] then [] else Joined(lines[..|lines| - 1]) + lines[|lines| - 1] + [10]
  }

  ghost predicate IsLine(l: seq<int>) {
    forall i :: 0 <= i < |l| ==> l[i] != 0 && l[i] != 10
  }

  /** Register `r` on file: a chain of blocks that holds exactly the whole lines `lines`,
      ended in the last block by a 0 unless that is full. */
  ghost predicate RegOK(rfile: seq<RBuf>, reg: Reg, chain: seq<nat>, lines: seq<seq<int>>) {
    NoRepeats(chain) && Linked(rfile, chain, |chain|) && (forall l :: l in lines ==> IsLine(l)) &&
    (chain == [] ==> reg.first == 0 && reg.last == 0 && lines == []) &&
    (chain != [] ==>
       reg.first == chain[0] && reg.last == chain[|chain| - 1] && reg.nleft < TEXT && |Chars(rfile, chain)| >= reg.nleft &&
       Joined(lines) == Chars(rfile, chain)[..|Chars(rfile, chain)| - reg.nleft] &&
       (reg.nleft > 0 ==> reg.last < |rfile| && |rfile[reg.last].text| == TEXT && rfile[reg.last].text[TEXT - reg.nleft] == 0))
  }

  /** No block is on two chains. */
  ghost predicate Apart(chains: seq<seq<nat>>) {
    forall r, q, b :: 0 <= r < q < |chains| && b in chains[r] ==> b !in chains[q]
  }

  ghost predicate OnChain(chains: seq<seq<nat>>, b: nat) {
    exists r :: 0 <= r < |chains| && b in chains[r]
  }

  /** The bitmap marks exactly the blocks on some chain. */
  ghost predicate MapOK(rused: seq<bv16>, chains: seq<seq<nat>>)
    requires |rused| == WORDS
  {
    forall b: nat :: 0 < b < BLOCKS ==> (Taken(rused, b) <==> OnChain(chains, b))
  }

  // ---------------------------------------------------------------------
  // Facts about chains
  // ---------------------------------------------------------------------

  lemma {:induction false} CharsFrame(rfile: seq<RBuf>, rfile': seq<RBuf>, chain: seq<nat>)
    requires |rfile'| == |rfile| && forall b :: b in chain && b < |rfile| ==> rfile'[b].text == rfile[b].text
    ensures Chars(rfile', chain) == Chars(rfile, chain)
    decreases |chain|
  {
    if chain != [] {
      var n := |chain| - 1;
      assert chain[n] in chain;
      CharsFrame(rfile, rfile', chain[..n]);
    }
  }

  lemma {:induction false} TextSize(rfile: seq<RBuf>, chain: seq<nat>)
    requires forall i: nat :: i < |chain| ==> 0 < chain[i] < |rfile| && |rfile[chain[i]].text| == TEXT
    ensures |Chars(rfile, chain)| == TEXT * |chain|
    decreases |chain|
  {
    if chain != [] {
      TextSize(rfile, chain[..|chain| - 1]);
    }
  }

  /** Writing blocks that are not on the chain leaves the register as it is. */
  lemma RegFrame(rfile: seq<RBuf>, rfile': seq<RBuf>, reg: Reg, chain: seq<nat>, lines: seq<seq<int>>)
    requires RegOK(rfile, reg, chain, lines) && |rfile'| == |rfile|
    requires forall b :: b in chain && b < |rfile| ==> rfile'[b] == rfile[b]
    ensures RegOK(rfile', reg, chain, lines)
  {
    CharsFrame(rfile, rfile', chain);
    forall i: nat | i < |chain| ensures LinkAt(rfile', chain, i) {
      assert LinkAt(rfile, chain, i) && chain[i] in chain;
    }
    if chain != [] {
      assert LinkAt(rfile, chain, |chain| - 1);
      assert chain[|chain| - 1] in chain;
    }
  }

  /** All registers on file. */
  ghost predicate AllOK(rfile: seq<RBuf>, regs: seq<Reg>, chains: seq<seq<nat>>, lines: seq<seq<seq<int>>>) {
    |regs| == |chains| == |lines| && forall r: nat :: r < |regs| ==> RegOK(rfile, regs[r], chains[r], lines[r])
  }

  lemma GetReg(rfile: seq<RBuf>, regs: seq<Reg>, chains: seq<seq<nat>>, lines: seq<seq<seq<int>>>, r: nat)
    requires AllOK(rfile, regs, chains, lines) && r < |regs|
    ensures RegOK(rfile, regs[r], chains[r], lines[r])
  {
  }

  /** One register emptied. */
  lemma RegEmptied(rfile: seq<RBuf>, regs: seq<Reg>, chains: seq<seq<nat>>, lines: seq<seq<seq<int>>>, r: nat)
    requires AllOK(rfile, regs, chains, lines) && r < |regs|
    ensures AllOK(rfile, regs[r := Reg(0, 0, 0)], chains[r := []], lines[r := []])
  {
    hide RegOK;
    EmptyOK(rfile);
    var regs', chains', lines' := regs[r := Reg(0, 0, 0)], chains[r := []], lines[r := []];
    forall q: nat | q < |regs| ensures RegOK(rfile, regs'[q], chains'[q], lines'[q]) {
      if q != r { GetReg(rfile, regs, chains, lines, q); }
    }
  }

  lemma EmptyOK(rfile: seq<RBuf>)
    ensures RegOK(rfile, Reg(0, 0, 0), [], [])
  {
  }

  // ---------------------------------------------------------------------
  // The bitmap
  // ---------------------------------------------------------------------

  lemma SetTaken(rused: seq<bv16>, b: nat, w: bv16, x: nat)
    requires |rused| == WORDS && b < BLOCKS && x < BLOCKS && w == rused[b / 16] | Mask(b % 16)
    ensures Taken(rused[b / 16 := w], x) <==> Taken(rused, x) || x == b
  {
    hide BitIn, Mask;
    if x / 16 == b / 16 {
      SetOne(rused[b / 16], Mask(b % 16), w, b % 16, x % 16);
    }
  }

  lemma ClearTaken(rused: seq<bv16>, b: nat, w: bv16, x: nat)
    requires |rused| == WORDS && b < BLOCKS && x < BLOCKS && w == rused[b / 16] & !Mask(b % 16)
    ensures Taken(rused[b / 16 := w], x) <==> Taken(rused, x) && x != b
  {
    hide BitIn, Mask;
    if x / 16 == b / 16 {
      ClearOne(rused[b / 16], Mask(b % 16), w, b % 16, x % 16);
    }
  }

  /** All blocks below `n`, but for block 0, are taken. */
  ghost predicate FullBelow(rused: seq<bv16>, n: nat)
    requires |rused| == WORDS && n <= BLOCKS
  {
    forall b: nat :: 0 < b < n ==> Taken(rused, b)
  }

  /** A word that offers no block. */
  lemma WordFull(rused: seq<bv16>, i: nat)
    requires |rused| == WORDS && i < WORDS && FullBelow(rused, 16 * i) && FreeMask(rused[i], i == 0) == 0
    ensures FullBelow(rused, 16 * i + 16)
  {
    hide BitIn, FreeMask;
    forall b: nat | 0 < b < 16 * i + 16 ensures Taken(rused, b) {
      if b >= 16 * i {
        var j := b % 16;
        assert b / 16 == i;
        FreeMaskBit(rused[i], i == 0, j);
        BitOfZero(j);
      }
    }
  }

  /** The word offers block `16 * i + j` first. */
  lemma WordOffers(rused: seq<bv16>, i: nat, m: bv16, j: nat)
    requires |rused| == WORDS && i < WORDS && FullBelow(rused, 16 * i) && m == FreeMask(rused[i], i == 0)
    requires j < 16 && BitIn(m, j) && forall l :: 0 <= l < j ==> !BitIn(m, l)
    ensures var b := 16 * i + j; 0 < b < BLOCKS && !Taken(rused, b) && FullBelow(rused, b) && b / 16 == i && b % 16 == j
  {
    hide BitIn, FreeMask;
    var b := 16 * i + j;
    assert b / 16 == i && b % 16 == j;
    FreeMaskBit(rused[i], i == 0, j);
    forall x: nat | 0 < x < b ensures Taken(rused, x) {
      if x >= 16 * i {
        assert x / 16 == i && x % 16 == x - 16 * i;
        FreeMaskBit(rused[i], i == 0, x - 16 * i);
      }
    }
  }

  // ---------------------------------------------------------------------
  // A register while it is being written
  // ---------------------------------------------------------------------

  /** The register after its block in the buffer has gone on file. */
  function Flushed(reg: Reg, rblock: nat, rnleft: nat): Reg {
    Reg(rnleft, if reg.first == 0 then rblock else reg.first, rblock)
  }

  /** YANKreg at work: the register has blocks `cur` and text `text`; its last block is
      `rblock`, kept in `rbuf` with room for `rnleft` more characters, and not on file. */
  ghost predicate Yanking(rfile: seq<RBuf>, reg: Reg, cur: seq<nat>, text: seq<int>, rblock: nat, rbuf: RBuf, rnleft: int) {
    NoRepeats(cur) && |rbuf.text| == TEXT && 0 <= rnleft <= TEXT && (forall i :: 0 <= i < |cur| ==> 0 < cur[i] < |rfile|) &&
    if cur == [] then rblock == 0 && rnleft == 0 && text == [] && reg.first == 0
    else
      var n := |cur| - 1;
      rblock == cur[n] && rbuf.next == 0 && Linked(rfile, cur, n) && text == Chars(rfile, cur[..n]) + rbuf.text[..TEXT - rnleft] &&
      (reg.first == cur[0] || (n == 0 && reg.first == 0))
  }

  /** Starting from a register on file. */
  lemma YankStart(rfile: seq<RBuf>, reg: Reg, chain: seq<nat>, lines: seq<seq<int>>, rbuf: RBuf)
    requires RegOK(rfile, reg, chain, lines) && |rbuf.text| == TEXT
    ensures chain == [] <==> reg.last == 0
    ensures chain != [] ==> reg.last < |rfile| && Yanking(rfile, reg, chain, Joined(lines), reg.last, rfile[reg.last], reg.nleft)
    ensures chain == [] ==> lines == [] && Yanking(rfile, reg, [], [], 0, rbuf, 0)
  {
    hide Joined;
    if chain != [] {
      var n := |chain| - 1;
      assert LinkAt(rfile, chain, n);
      forall i | 0 <= i < |chain| ensures 0 < chain[i] < |rfile| {
        assert LinkAt(rfile, chain, i);
      }
      assert Chars(rfile, chain) == Chars(rfile, chain[..n]) + rfile[chain[n]].text;
    }
  }

  lemma NotLast(cur: seq<nat>)
    requires NoRepeats(cur) && cur != []
    ensures cur[|cur| - 1] !in cur[..|cur| - 1]
  {
  }

  lemma OneMore(cur: seq<nat>, b: nat)
    requires NoRepeats(cur) && b !in cur
    ensures NoRepeats(cur + [b])
  {
  }

  lemma NoChars(rfile: seq<RBuf>)
    ensures Chars(rfile, []) == []
  {
  }

  lemma LastChars(rfile: seq<RBuf>, chain: seq<nat>)
    requires chain != [] && chain[|chain| - 1] < |rfile|
    ensures Chars(rfile, chain) == Chars(rfile, chain[..|chain| - 1]) + rfile[chain[|chain| - 1]].text
  {
  }

  /** The links up to block `n`, written to the file with its link to `b`. */
  lemma LinkKept(rfile: seq<RBuf>, cur: seq<nat>, n: nat, rblock: nat, rbuf: RBuf, b: nat, i: nat)
    requires |cur| == n + 1 && i <= n && rblock == cur[n] && 0 < rblock < |rfile| && NoRepeats(cur) && (i < n ==> LinkAt(rfile, cur, i))
    requires rbuf.next == b && |rbuf.text| == TEXT
    ensures LinkAt(rfile[rblock := rbuf], cur + [b], i)
  {
  }

  /** The next block: the full one goes on file, linked to the new one. */
  lemma YankBlock(rfile: seq<RBuf>, reg: Reg, cur: seq<nat>, text: seq<int>, rblock: nat, rbuf: RBuf, b: nat)
    requires Yanking(rfile, reg, cur, text, rblock, rbuf, 0) && 0 < b < |rfile| && b !in cur
    ensures var rfile' := if rblock != 0 then rfile[rblock := rbuf.(next := b)] else rfile;
      var reg' := if rblock != 0 then Flushed(reg, rblock, 0) else reg;
      Yanking(rfile', reg', cur + [b], text, b, RBuf(b, 0, rbuf.text), TEXT)
  {
    hide NoRepeats, LinkAt, Chars;
    var cur' := cur + [b];
    assert cur'[..|cur|] == cur;
    OneMore(cur, b);
    if cur == [] {
      NoChars(rfile);
    } else {
      var n := |cur| - 1;
      NotLast(cur);
      var rfile' := rfile[rblock := rbuf.(next := b)];
      CharsFrame(rfile, rfile', cur[..n]);
      forall i: nat | i < n + 1 ensures LinkAt(rfile', cur', i) {
        LinkKept(rfile, cur, n, rblock, rbuf.(next := b), b, i);
      }
      LastChars(rfile', cur);
      assert rbuf.text[..TEXT] == rbuf.text;
    }
  }

  lemma YankOne(rfile: seq<RBuf>, reg: Reg, cur: seq<nat>, text: seq<int>, rblock: nat, rbuf: RBuf, rnleft: int, c: int)
    requires Yanking(rfile, reg, cur, text, rblock, rbuf, rnleft) && rnleft > 0
    ensures Yanking(rfile, reg, cur, text + [c], rblock, rbuf.(text := rbuf.text[TEXT - rnleft := c]), rnleft - 1)
    ensures Yanking(rfile, reg, cur, text, rblock, rbuf.(text := rbuf.text[TEXT - rnleft := c]), rnleft)
  {
    hide Linked, NoRepeats, Chars;
    var t := rbuf.text[TEXT - rnleft := c];
    assert t[..TEXT - rnleft] == rbuf.text[..TEXT - rnleft];
    assert t[..TEXT - (rnleft - 1)] == rbuf.text[..TEXT - rnleft] + [c];
  }

  /** The final flush makes a register on file of it. */
  lemma YankEnd(rfile: seq<RBuf>, reg: Reg, cur: seq<nat>, lines: seq<seq<int>>, rblock: nat, rbuf: RBuf, rnleft: int)
    requires Yanking(rfile, reg, cur, Joined(lines), rblock, rbuf, rnleft) && cur != [] && rnleft < TEXT
    requires (rnleft > 0 ==> rbuf.text[TEXT - rnleft] == 0) && forall l :: l in lines ==> IsLine(l)
    ensures rblock < |rfile| && RegOK(rfile[rblock := rbuf], Flushed(reg, rblock, rnleft), cur, lines)
  {
    hide Joined, IsLine;
    var n := |cur| - 1;
    NotLast(cur);
    var rfile' := rfile[rblock := rbuf];
    CharsFrame(rfile, rfile', cur[..n]);
    forall i: nat | i < |cur| ensures LinkAt(rfile', cur, i) {
      if i < n { assert LinkAt(rfile, cur, i); }
    }
    assert Chars(rfile', cur) == Chars(rfile', cur[..n]) + rbuf.text;
    var all := Chars(rfile', cur);
    assert all[..|all| - rnleft] == Joined(lines);
  }

  // ---------------------------------------------------------------------
  // Registers that no bookkeeping can explain
  // ---------------------------------------------------------------------

  /** There are chains and lines that fit the registers, the bitmap and the file. */
  ghost predicate Consistent(rfile: seq<RBuf>, regs: seq<Reg>, rused: seq<bv16>)
    requires |rused| == WORDS
  {
    exists chains, lines :: Apart(chains) && MapOK(rused, chains) && AllOK(rfile, regs, chains, lines)
  }

  /** A register on file has one chain only, and no other chain begins with its blocks. */
  lemma {:induction false} ChainUnique(rfile: seq<RBuf>, reg: Reg, chain: seq<nat>, lines: seq<seq<int>>, cur: seq<nat>, n: nat)
    requires RegOK(rfile, reg, chain, lines) && n <= |cur| && Linked(rfile, cur, n) && (forall i :: 0 <= i < |cur| ==> cur[i] > 0)
    requires cur != [] && reg.first == cur[0]
    ensures forall i :: 0 <= i < |cur| && i <= n ==> i < |chain| && chain[i] == cur[i]
    ensures n == |cur| ==> chain == cur
  {
    hide Chars, Joined, IsLine;
    if n > 0 {
      ChainUnique(rfile, reg, chain, lines, cur, n - 1);
      assert chain[n - 1] == cur[n - 1];
      assert LinkAt(rfile, cur, n - 1) && LinkAt(rfile, chain, n - 1);
      assert n < |chain| ==> LinkAt(rfile, chain, n);
    }
  }

  // ---------------------------------------------------------------------
  // The register file
  // ---------------------------------------------------------------------

  class RegisterFile {
    const regs: array<Reg>
    const rused: array<bv16>
    const rfile: array<RBuf>
    var rbuf: RBuf
    var rnleft: int
    var rblock: nat
    var rnext: nat
    var rbufcp: int

    /** The chain and the lines of every register. */
    ghost var chains: seq<seq<nat>>
    ghost var lines: seq<seq<seq<int>>>

    ghost predicate Arrays() {
      regs.Length == NREGS && rused.Length == WORDS && rfile.Length == BLOCKS &&
      (regs as object) != (rused as object) && (regs as object) != (rfile as object) && (rused as object) != (rfile as object)
    }

    /** Chains are apart, the bitmap is exact, every register holds its lines, and the
        register before '1' is empty. */
    ghost predicate Valid()
      reads this, regs, rused, rfile
    {
      Arrays() && |rbuf.text| == TEXT && |chains| == |lines| == NREGS && Apart(chains) && MapOK(rused[..], chains) && AllOK(rfile[..], regs[..], chains, lines) &&
      chains[26] == []
    }

    constructor ()
      ensures Valid() && lines == seq(NREGS, i => []) && fresh(regs) && fresh(rused) && fresh(rfile)
    {
      regs := new Reg[NREGS](_ => Reg(0, 0, 0));
      rused := new bv16[WORDS](_ => 0);
      rfile := new RBuf[BLOCKS](_ => RBuf(0, 0, seq(TEXT, _ => 0)));
      rbuf, rnleft, rblock, rnext, rbufcp := RBuf(0, 0, seq(TEXT, _ => 0)), 0, 0, 0, 0;
      chains := seq(NREGS, i => []);
      lines := seq(NREGS, i => []);
      new;
      NothingTaken(rused[..], chains);
    }

    /** REGblk: take the lowest free block. */
    method RegBlk() returns (ok: bool, b: nat)
      requires Arrays()
      modifies rused
      ensures ok ==> 0 < b < BLOCKS && !old(Taken(rused[..], b)) && old(FullBelow(rused[..], b))
      ensures ok ==> forall x: nat :: x < BLOCKS ==> (Taken(rused[..], x) <==> old(Taken(rused[..], x)) || x == b)
      ensures !ok ==> rused[..] == old(rused[..]) && FullBelow(rused[..], BLOCKS)
    {
      hide BitIn, Mask, Taken, FullBelow, FreeMask;
      NothingBelow(rused[..]);
      for i := 0 to WORDS
        invariant rused[..] == old(rused[..]) && FullBelow(rused[..], 16 * i)
      {
        var m := FreeMask(rused[i], i == 0);
        if m != 0 {
          var j := LowestBit(m);
          WordOffers(rused[..], i, m, j);
          b := i * 16 + j;
          TakeBlock(i, j, b);
          return true, b;
        }
        WordFull(rused[..], i);
      }
      return false, 0;
    }

    method TakeBlock(i: nat, j: nat, ghost b: nat)
      requires Arrays() && i < WORDS && j < 16 && b == 16 * i + j
      modifies rused
      ensures forall x: nat :: x < BLOCKS ==> (Taken(rused[..], x) <==> old(Taken(rused[..], x)) || x == b)
    {
      hide BitIn, Mask, Taken;
      ghost var was := rused[..];
      rused[i] := rused[i] | Mask(j);
      assert b / 16 == i && b % 16 == j;
      assert rused[..] == was[i := rused[i]];
      forall x: nat | x < BLOCKS ensures Taken(rused[..], x) <==> Taken(was, x) || x == b {
        SetTaken(was, b, rused[i], x);
      }
    }

    method FreeBlock(b: nat)
      requires Arrays() && b < BLOCKS
      modifies rused
      ensures forall x: nat :: x < BLOCKS ==> (Taken(rused[..], x) <==> old(Taken(rused[..], x)) && x != b)
    {
      hide BitIn, Mask, Taken;
      ghost var was := rused[..];
      rused[b / 16] := rused[b / 16] & !Mask(b % 16);
      assert rused[..] == was[b / 16 := rused[b / 16]];
      forall x: nat | x < BLOCKS ensures Taken(rused[..], x) <==> Taken(was, x) && x != b {
        ClearTaken(was, b, rused[b / 16], x);
      }
    }

    /** KILLreg: empty a register and free its blocks. */
    method KillReg(r: nat)
      requires Valid() && r < NREGS
      modifies regs, rused, this`rblock, this`chains, this`lines
      ensures Valid() && chains == old(chains)[r := []] && lines == old(lines)[r := []]
    {
      hide RegOK, Taken, OnChain, AllOK, Apart, MapOK;
      ghost var chain, u0 := chains[r], rused[..];
      ChainFacts(rfile[..], regs[..], chains, lines, r);
      rblock := regs[r].first;
      ghost var rs := regs[..];
      regs[r] := Reg(0, 0, 0);
      assert regs[..] == rs[r := Reg(0, 0, 0)];
      ghost var i: nat := 0;
      while rblock != 0
        invariant i <= |chain| && rblock == (if i < |chain| then chain[i] else 0)
        invariant regs[..] == rs[r := Reg(0, 0, 0)] && chains == old(chains) && lines == old(lines)
        invariant forall x: nat :: x < BLOCKS ==> (Taken(rused[..], x) <==> Taken(u0, x) && x !in chain[..i])
        decreases |chain| - i
      {
        ChainBlock(rfile[..], rs, chains, lines, r, i);
        FreeBlock(rblock);
        assert chain[..i + 1] == chain[..i] + [chain[i]];
        rblock := rfile[rblock].next;
        i := i + 1;
      }
      assert i == |chain| by {
        if i < |chain| { ChainBlock(rfile[..], rs, chains, lines, r, i); }
      }
      assert chain[..i] == chain;
      RegEmptied(rfile[..], rs, chains, lines, r);
      MapAfterKill(u0, rused[..], chains, r);
      chains := chains[r := []];
      lines := lines[r := []];
    }

    /** YANKreg at work on register `r`: `start` is the chain that the register had, and
        nothing has been written to the file while no block has been added to it. */
    ghost predicate YankState(r: nat, text: seq<int>, start: seq<nat>, rfile0: seq<RBuf>, regs0: seq<Reg>)
      reads this, regs, rused, rfile
    {
      Arrays() && |rbuf.text| == TEXT && r < NREGS && |chains| == |lines| == NREGS && Apart(chains) && MapOK(rused[..], chains) &&
      OthersOK(rfile[..], regs[..], chains, lines, r) && Yanking(rfile[..], regs[r], chains[r], text, rblock, rbuf, rnleft) &&
      (chains[r] != [] ==> rbufcp == TEXT - rnleft) && Added(rfile[..], regs[..], r, chains[r], start, rfile0, regs0)
    }

    /** rbflush: the block in the buffer goes on file and into the register. */
    method RbFlush(strp: nat)
      requires Arrays() && strp < NREGS && rblock < BLOCKS && rnleft >= 0
      modifies regs, rfile
      ensures rblock == 0 ==> rfile[..] == old(rfile[..]) && regs[..] == old(regs[..])
      ensures rblock != 0 ==> rfile[..] == old(rfile[..])[rblock := rbuf]
      ensures rblock != 0 ==> regs[..] == old(regs[..])[strp := Flushed(old(regs[strp]), rblock, rnleft)]
    {
      if rblock == 0 {
        return;
      }
      rfile[rblock] := rbuf;
      var first := regs[strp].first;
      if first == 0 {
        first := rblock;
      }
      regs[strp] := Reg(rnleft, first, rblock);
    }

    /** The new block that YANKline starts when the buffer is full. */
    method NewBlock(r: nat, ghost text: seq<int>, ghost start: seq<nat>, ghost rfile0: seq<RBuf>, ghost regs0: seq<Reg>) returns (ok: bool)
      requires YankState(r, text, start, rfile0, regs0) && rnleft == 0
      modifies this, regs, rused, rfile
      ensures YankState(r, text, start, rfile0, regs0) && lines == old(lines)
      ensures ok ==> rnleft == TEXT && |chains[r]| == |old(chains[r])| + 1 && chains == old(chains)[r := chains[r]]
      ensures !ok ==> chains == old(chains) && rnleft == 0 && FullBelow(rused[..], BLOCKS)
    {
      hide Yanking, RegOK, Taken, OnChain, OthersOK, Apart, MapOK, FullBelow, Added;
      ghost var u0, f0, r0, cur := rused[..], rfile[..], regs[..], chains[r];
      YankFacts(f0, r0[r], cur, text, rblock, rbuf, rnleft);
      var b;
      ok, b := RegBlk();
      if !ok {
        return;
      }
      FreshBlock(u0, rused[..], chains, r, b);
      YankBlock(f0, r0[r], cur, text, rblock, rbuf, b);
      ghost var reg := if rblock != 0 then Flushed(r0[r], rblock, 0) else r0[r];
      OthersKept(f0, r0, chains, lines, r, rblock, rbuf.(next := b), cur + [b], reg);
      AddedBlock(f0, r0, r, cur, text, rblock, rbuf, b, start, rfile0, regs0);
      rbuf := rbuf.(next := b);
      RbFlush(r);
      assert regs[..] == r0[r := reg];
      rblock := rbuf.next;
      rbuf := RBuf(rblock, 0, rbuf.text);
      rnleft := TEXT;
      rbufcp := 0;
      chains := chains[r := cur + [b]];
    }

    /** One character into the buffer. */
    method PutChar(r: nat, c: int, ghost text: seq<int>, ghost start: seq<nat>, ghost rfile0: seq<RBuf>, ghost regs0: seq<Reg>)
      requires YankState(r, text, start, rfile0, regs0) && rnleft > 0
      modifies this`rbuf, this`rnleft, this`rbufcp
      ensures YankState(r, text + [c], start, rfile0, regs0) && rnleft == old(rnleft) - 1 && chains[r] != []
    {
      hide RegOK, Taken, OnChain, OthersOK, Apart, MapOK, Added, Linked, NoRepeats, Chars;
      YankOne(rfile[..], regs[r], chains[r], text, rblock, rbuf, rnleft, c);
      rbuf := rbuf.(text := rbuf.text[rbufcp := c]);
      rbufcp := rbufcp + 1;
      rnleft := rnleft - 1;
    }

    /** A 0 after the last character, if there is room. */
    method PutEnd(r: nat, ghost text: seq<int>, ghost start: seq<nat>, ghost rfile0: seq<RBuf>, ghost regs0: seq<Reg>)
      requires YankState(r, text, start, rfile0, regs0) && chains[r] != []
      modifies this`rbuf
      ensures YankState(r, text, start, rfile0, regs0) && (rnleft > 0 ==> rbuf.text[TEXT - rnleft] == 0)
    {
      hide RegOK, Taken, OnChain, OthersOK, Apart, MapOK, Added, Linked, NoRepeats, Chars;
      if rnleft != 0 {
        YankOne(rfile[..], regs[r], chains[r], text, rblock, rbuf, rnleft, 0);
        rbuf := rbuf.(text := rbuf.text[rbufcp := 0]);
      }
    }

    /** YANKline: one line and its newline. */
    method YankLine(r: nat, l: seq<int>, ghost text: seq<int>, ghost start: seq<nat>, ghost rfile0: seq<RBuf>, ghost regs0: seq<Reg>)
      returns (ok: bool, ghost text': seq<int>)
      requires YankState(r, text, start, rfile0, regs0) && IsLine(l)
      modifies this, regs, rused, rfile
      ensures YankState(r, text', start, rfile0, regs0) && lines == old(lines) && chains == old(chains)[r := chains[r]]
      ensures ok ==> text' == text + l + [10] && rnleft < TEXT && chains[r] != [] && (rnleft > 0 ==> rbuf.text[TEXT - rnleft] == 0)
      ensures !ok ==> FullBelow(rused[..], BLOCKS) && rnleft == 0 && |text'| <= |text| + |l|
    {
      hide Yanking, RegOK, Taken, OnChain, OthersOK, Apart, MapOK, FullBelow, Added;
      var lp := 0;
      text' := text;
      assert text + l[..0] == text;
      while true
        invariant lp <= |l| && text' == text + l[..lp] && YankState(r, text', start, rfile0, regs0)
        invariant lines == old(lines) && chains == old(chains)[r := chains[r]]
        decreases |l| - lp
      {
        var c := if lp < |l| then l[lp] else 10;
        YankFacts(rfile[..], regs[r], chains[r], text', rblock, rbuf, rnleft);
        if rnleft == 0 {
          ok := NewBlock(r, text', start, rfile0, regs0);
          if !ok {
            return;
          }
        }
        PutChar(r, c, text', start, rfile0, regs0);
        text' := text' + [c];
        YankFacts(rfile[..], regs[r], chains[r], text', rblock, rbuf, rnleft);
        if c == 10 {
          break;
        }
        lp := lp + 1;
      }
      assert l[..|l|] == l;
      PutEnd(r, text', start, rfile0, regs0);
      ok := true;
    }

    /** kshift: what was yanked last moves from '1' to '2' and so on; '9' is dropped.
        Register '0' is copied to '1' and not emptied, which is sound as it holds nothing. */
    method KShift()
      requires Valid()
      modifies regs, rused, this`rblock, this`chains, this`lines
      ensures chains == Shift(old(chains)[35 := []]) && lines == Shift(old(lines)[35 := []])
      ensures Valid()
    {
      hide RegOK, Taken, OnChain, AllOK, Apart, MapOK, Consistent;
      KillReg(35);
      ghost var rs, u1, f1 := regs[..], rused[..], rfile[..];
      var i := 34;
      while i >= 26
        invariant 25 <= i <= 34
        invariant forall k :: i + 1 < k < NREGS ==> regs[k] == rs[k - 1]
        invariant forall k :: 0 <= k <= i + 1 ==> regs[k] == rs[k]
        invariant chains == old(chains)[35 := []] && lines == old(lines)[35 := []] && rused[..] == u1 && rfile[..] == f1
      {
        regs[i + 1] := regs[i];
        i := i - 1;
      }
      assert regs[..] == Shift(rs);
      ShiftedRegs(rfile[..], rs, rused[..], chains, lines);
      chains := Shift(chains);
      lines := Shift(lines);
    }

    /** YANKreg: the lines go to the end of the register, which is emptied first if it is
        named by a small letter; for a digit the numbered registers move up first.

        The yank succeeds exactly when the blocks that all the registers would then need are
        there.  If it fails and there was no free block at all the registers are as they
        were before; if there was one, it is lost and the registers, the bitmap and the
        file do not fit together any more. */
    method YankReg(c: char, ls: seq<seq<int>>) returns (ok: bool)
      requires Valid() && ls != [] && (forall l :: l in ls ==> IsLine(l))
      requires IsName(c)
      modifies this, regs, rused, rfile
      ensures |old(lines)| == NREGS && (ok <==> Blocks(Yanked(old(lines), c, ls)) < BLOCKS)
      ensures ok ==> Valid() && lines == Yanked(old(lines), c, ls)
      ensures !ok ==> lines == Cleared(old(lines), c) && (Valid() <==> Blocks(lines) == BLOCKS - 1)
      ensures Valid() || !Consistent(rfile[..], regs[..], rused[..])
    {
      hide Yanking, RegOK, Taken, OnChain, AllOK, OthersOK, Apart, MapOK, FullBelow, Added, Joined, NoRoom, Consistent, Chars, Linked, Blocks;
      if '1' <= c <= '9' {
        KShift();
      }
      if 'a' <= c <= 'z' {
        KillReg(MapReg(c));
      }
      ghost var f0, r0, c0, r, u0 := rfile[..], regs[..], chains, MapReg(c), rused[..];
      ghost var had := lines[r];
      LinesAreLines(f0, r0, chains, lines, r);
      LoadLast(MapReg(c));
      ghost var text := Joined(had);
      assert had + ls[..0] == had;
      for i := 0 to |ls|
        invariant YankState(r, text, c0[r], f0, r0) && text == Joined(had + ls[..i]) && lines == Cleared(old(lines), c)
        invariant chains == c0[r := chains[r]]
        invariant i > 0 ==> chains[r] != [] && rnleft < TEXT && (rnleft > 0 ==> rbuf.text[TEXT - rnleft] == 0)
      {
        assert ls[i] in ls;
        JoinedStep(had, ls, i);
        ghost var text0 := text;
        ok, text := YankLine(MapReg(c), ls[i], text, c0[r], f0, r0);
        if !ok {
          YankFailed(rfile[..], regs[..], rused[..], chains, lines, r, text, rblock, rbuf, rnleft, c0, f0, r0);
          JoinedPrefix(had + ls, |had| + i + 1);
          assert (had + ls)[..|had| + i + 1] == had + ls[..i + 1];
          OutOfBlocks(rfile[..], regs[..], rused[..], chains, lines, r, text, rblock, rbuf, had + ls);
          AllBlocks(f0, r0, u0, c0, lines);
          if chains[r] == c0[r] {
            assert chains == c0;
          }
          return;
        }
      }
      assert ls[..|ls|] == ls;
      FinishYank(MapReg(c), had + ls, c0[r], f0, r0);
      AllBlocks(rfile[..], regs[..], rused[..], chains, lines);
      ok := true;
    }

    /** Load the last block of the register into the buffer, if it has one. */
    method LoadLast(r: nat)
      requires Valid() && r < NREGS
      modifies this`rbuf, this`rnleft, this`rbufcp, this`rblock
      ensures YankState(r, Joined(lines[r]), chains[r], rfile[..], regs[..])
    {
      hide RegOK, Taken, OnChain, Apart, MapOK, Joined, Yanking;
      OthersFromAll(rfile[..], regs[..], chains, lines, r);
      GetReg(rfile[..], regs[..], chains, lines, r);
      YankStart(rfile[..], regs[r], chains[r], lines[r], rbuf);
      EmptyJoined();
      if regs[r].last != 0 {
        rblock := regs[r].last;
        rbuf := rfile[rblock];
        rnleft := regs[r].nleft;
        rbufcp := TEXT - rnleft;
        YankFacts(rfile[..], regs[r], chains[r], Joined(lines[r]), rblock, rbuf, rnleft);
      } else {
        rblock := 0;
        rnleft := 0;
      }
    }

    /** The last flush. */
    method FinishYank(r: nat, ghost all: seq<seq<int>>, ghost start: seq<nat>, ghost rfile0: seq<RBuf>, ghost regs0: seq<Reg>)
      requires YankState(r, Joined(all), start, rfile0, regs0) && chains[r] != [] && rnleft < TEXT && chains[26] == []
      requires (rnleft > 0 ==> rbuf.text[TEXT - rnleft] == 0) && forall l :: l in all ==> IsLine(l)
      modifies this`lines, regs, rfile
      ensures Valid() && lines == old(lines)[r := all]
    {
      hide Yanking, RegOK, Taken, OnChain, OthersOK, Apart, MapOK, Added, Joined, Chars, Linked;
      ghost var f0, r0, cur := rfile[..], regs[..], chains[r];
      YankFacts(f0, r0[r], cur, Joined(all), rblock, rbuf, rnleft);
      YankEnd(f0, r0[r], cur, all, rblock, rbuf, rnleft);
      OthersKept(f0, r0, chains, lines, r, rblock, rbuf, cur, Flushed(r0[r], rblock, rnleft));
      RbFlush(r);
      assert chains[r := cur] == chains;
      AllFromOthers(rfile[..], regs[..], chains, lines, r, all);
      lines := lines[r := all];
    }

    /** Reading register `r`: `i` of its blocks have been loaded and `p` characters used. */
    ghost predicate Reading(r: nat, i: nat, p: int)
      reads this, regs, rused, rfile
    {
      Valid() && r < NREGS && i <= |chains[r]| && rnext == (if i < |chains[r]| then chains[r][i] else 0) &&
      p == TEXT * i - rnleft && 0 <= rnleft <= TEXT && 0 <= p <= |Joined(lines[r])| && (i == 0 ==> rnleft == 0) &&
      (rnleft > 0 ==> chains[r][i - 1] < BLOCKS && rbuf == rfile[chains[r][i - 1]] && rbufcp == TEXT - rnleft)
    }

    /** getREG: the next line of the register, or the end.  `i` blocks have been loaded and
        `k` lines read before. */
    method GetREG(r: nat, ghost i: nat, ghost k: nat) returns (eof: bool, linebuf: seq<int>, ghost i': nat)
      requires r < NREGS && Valid() && k <= |lines[r]| && Reading(r, i, |Joined(lines[r][..k])|)
      modifies this`rbuf, this`rnleft, this`rnext, this`rbufcp
      ensures Valid() && (eof <==> k == |lines[r]|)
      ensures !eof ==> linebuf == lines[r][k] && Reading(r, i', |Joined(lines[r][..k + 1])|)
    {
      hide RegOK, Taken, OnChain, Apart, MapOK, AllOK, Joined, Chars, Linked;
      ghost var text, p0 := Joined(lines[r]), |Joined(lines[r][..k])|;
      linebuf, i' := [], i;
      ghost var rest := NextLine(lines[r], k);
      LinesAreLines(rfile[..], regs[..], chains, lines, r);
      ghost var l := if k < |lines[r]| then lines[r][k] else [];
      assert k < |lines[r]| ==> l in lines[r];
      while true
        invariant Reading(r, i', p0 + |linebuf|) && linebuf <= l
        decreases |rest| - |linebuf|
      {
        ghost var p := p0 + |linebuf|;
        if rnleft == 0 {
          if rnext == 0 {
            AtEnd(rfile[..], regs[..], chains, lines, r, i', p);
            return true, linebuf, i';
          }
          LoadNext(r, i', p);
          i' := i' + 1;
        }
        var c := rbuf.text[rbufcp];
        CharHere(rfile[..], regs[..], chains, lines, r, i', p, rnleft);
        assert c == if |linebuf| < |rest| then rest[|linebuf|] else 0;
        LineChar(l, rest, |linebuf|, k < |lines[r]|);
        if c == 0 {
          return true, linebuf, i';
        }
        rbufcp := rbufcp + 1;
        rnleft := rnleft - 1;
        if c == 10 {
          return false, linebuf, i';
        }
        linebuf := linebuf + [c];
      }
    }

    method LoadNext(r: nat, ghost i: nat, ghost p: int)
      requires Reading(r, i, p) && rnleft == 0 && rnext != 0
      modifies this`rbuf, this`rnleft, this`rnext, this`rbufcp
      ensures Reading(r, i + 1, p) && rnleft == TEXT
    {
      hide RegOK, Taken, OnChain, Apart, MapOK, AllOK, Joined, Chars, Linked;
      ChainBlock(rfile[..], regs[..], chains, lines, r, i);
      rbuf := rfile[rnext];
      rnext := rbuf.next;
      rbufcp := 0;
      rnleft := TEXT;
    }

    /** put from a register: all its lines, one after another, until the end. */
    method PutReg(c: char) returns (found: bool, out: seq<seq<int>>)
      requires Valid() && IsName(c)
      modifies this`rbuf, this`rnleft, this`rnext, this`rbufcp, this`rblock
      ensures Valid() && (found <==> lines[MapReg(c)] != []) && (found ==> out == lines[MapReg(c)])
    {
      hide RegOK, Taken, OnChain, Apart, MapOK, AllOK, Joined, Chars, Linked;
      var r := MapReg(c);
      rnleft := 0;
      rblock := 0;
      rnext := regs[r].first;
      out := [];
      GetReg(rfile[..], regs[..], chains, lines, r);
      FirstPositive(rfile[..], regs[r], chains[r], lines[r]);
      NeedIs(rfile[..], regs[r], chains[r], lines[r]);
      ChainFacts(rfile[..], regs[..], chains, lines, r);
      if rnext == 0 {
        return false, out;
      }
      ghost var i: nat := 0;
      EmptyJoined();
      assert lines[r][..0] == [];
      while true
        invariant Valid() && |out| <= |lines[r]| && out == lines[r][..|out|] && Reading(r, i, |Joined(lines[r][..|out|])|)
        decreases |lines[r]| - |out|
      {
        var eof, l;
        eof, l, i := GetREG(r, i, |out|);
        if eof {
          break;
        }
        out := out + [l];
      }
      found := true;
    }

    /** One command. */
    method Do(op: Op) returns (out: Outcome)
      requires Valid() && IsOp(op)
      modifies this, regs, rused, rfile
      ensures |old(lines)| == NREGS && out == Answer(old(lines), op) && lines == Step(old(lines), op)
      ensures Valid() <==> out != Failed || Blocks(lines) == BLOCKS - 1
      ensures Valid() || !Consistent(rfile[..], regs[..], rused[..])
    {
      hide RegOK, Taken, OnChain, AllOK, Apart, MapOK, Consistent, NoRoom, Blocks;
      match op
      case Yank(c, ls) =>
        var ok := YankReg(c, ls);
        out := if ok then Done else Failed;
      case Kill(c) =>
        KillReg(MapReg(c));
        out := Done;
      case Put(c) =>
        var found, l := PutReg(c);
        out := if found then Held(l) else Nothing;
    }

    /** A sequence of commands, up to the first "out of register space".  Until then the
        chains are apart and without cycles and the bitmap is exact; every answer is
        that of a map from registers to lines with room for BLOCKS - 1 blocks, and
        after running out the registers can still be used just when all were taken. */
    method Run(ops: seq<Op>) returns (outs: seq<Outcome>)
      requires Valid() && AreOps(ops)
      modifies this, regs, rused, rfile
      ensures |old(lines)| == NREGS && |outs| <= |ops| && lines == After(old(lines), ops[..|outs|]) && Answers(old(lines), ops, outs)
      ensures |outs| < |ops| ==> outs != [] && outs[|outs| - 1] == Failed
      ensures forall i :: 0 <= i < |outs| - 1 ==> outs[i] != Failed
      ensures Valid() <==> outs == [] || outs[|outs| - 1] != Failed || Blocks(lines) == BLOCKS - 1
      ensures Valid() || !Consistent(rfile[..], regs[..], rused[..])
    {
      hide RegOK, Taken, OnChain, AllOK, Apart, MapOK, Consistent, Step, Answer, Answers, Blocks, After, IsOp, Arrays;
      outs := [];
      NoAnswers(old(lines), ops);
      for i := 0 to |ops|
        invariant Valid() && |outs| == i && lines == After(old(lines), ops[..i]) && Answers(old(lines), ops, outs)
        invariant forall j :: 0 <= j < |outs| ==> outs[j] != Failed
      {
        AfterStep(old(lines), ops, i);
        var out := Do(ops[i]);
        RunStep(old(lines), ops, outs, out);
        outs := outs + [out];
        if out == Failed {
          return;
        }
      }
      assert ops[..|ops|] == ops;
    }
  }

  lemma NoAnswers(held: seq<seq<seq<int>>>, ops: seq<Op>)
    requires |held| == NREGS && AreOps(ops)
    ensures After(held, ops[..0]) == held && Answers(held, ops, [])
  {
  }

  /** Line `k` with its newline, as found in the text after the lines before it. */
  lemma NextLine(lines: seq<seq<int>>, k: nat) returns (rest: seq<int>)
    requires k <= |lines|
    ensures |Joined(lines[..k])| + |rest| == |Joined(lines)|
    ensures rest == Joined(lines)[|Joined(lines[..k])|..]
    ensures k < |lines| ==> |rest| > |lines[k]| && rest[..|lines[k]|] == lines[k] && rest[|lines[k]|] == 10
    ensures k < |lines| ==> |Joined(lines[..k + 1])| == |Joined(lines[..k])| + |lines[k]| + 1
    ensures k == |lines| ==> rest == []
  {
    assert k == |lines| ==> lines[..k] == lines;
    JoinedPrefix(lines, k);
    rest := Joined(lines)[|Joined(lines[..k])|..];
    if k < |lines| {
      JoinedPrefix(lines, k + 1);
      assert lines[..k + 1][..k] == lines[..k];
    }
  }

  /** Character `j` of a line is not a newline, the one after the line is. */
  lemma LineChar(l: seq<int>, rest: seq<int>, j: nat, some: bool)
    requires IsLine(l) && j <= |l| && (some ==> |rest| > |l| && rest[..|l|] == l && rest[|l|] == 10) && (!some ==> l == [] && rest == [])
    ensures some ==> (rest[j] == 10 <==> j == |l|) && rest[j] != 0 && (j < |l| ==> rest[j] == l[j])
  {
    assert some && j < |l| ==> rest[j] == rest[..|l|][j];
  }

  lemma {:induction false} JoinedPrefix(lines: seq<seq<int>>, k: nat)
    requires k <= |lines|
    ensures Joined(lines[..k]) <= Joined(lines)
    decreases |lines|
  {
    if k == |lines| {
      assert lines[..k] == lines;
    } else {
      var s := lines[..|lines| - 1];
      JoinedPrefix(s, k);
      assert s[..k] == lines[..k];
    }
  }

  lemma {:induction false} CharAt(rfile: seq<RBuf>, chain: seq<nat>, i: nat, o: nat)
    requires (forall j: nat :: j < |chain| ==> 0 < chain[j] < |rfile| && |rfile[chain[j]].text| == TEXT) && i < |chain| && o < TEXT
    ensures |Chars(rfile, chain)| == TEXT * |chain| && Chars(rfile, chain)[TEXT * i + o] == rfile[chain[i]].text[o]
    decreases |chain|
  {
    TextSize(rfile, chain);
    var c := chain[..|chain| - 1];
    TextSize(rfile, c);
    if i < |chain| - 1 {
      CharAt(rfile, c, i, o);
    }
  }

  lemma ChainTexts(rfile: seq<RBuf>, chain: seq<nat>)
    requires Linked(rfile, chain, |chain|)
    ensures forall j: nat :: j < |chain| ==> 0 < chain[j] < |rfile| && |rfile[chain[j]].text| == TEXT
  {
    forall j: nat | j < |chain| ensures 0 < chain[j] < |rfile| && |rfile[chain[j]].text| == TEXT {
      assert LinkAt(rfile, chain, j);
    }
  }

  /** Every block has been used up: the text ends here. */
  lemma AtEnd(rfile: seq<RBuf>, regs: seq<Reg>, chains: seq<seq<nat>>, lines: seq<seq<seq<int>>>, r: nat, i: nat, p: int)
    requires AllOK(rfile, regs, chains, lines) && r < |regs| && i <= |chains[r]| && p == TEXT * i <= |Joined(lines[r])|
    requires i < |chains[r]| ==> chains[r][i] == 0
    ensures p == |Joined(lines[r])|
  {
    hide Joined, Chars, NoRepeats;
    GetReg(rfile, regs, chains, lines, r);
    ChainTexts(rfile, chains[r]);
    TextSize(rfile, chains[r]);
    NoText(lines[r]);
  }

  lemma NoText(lines: seq<seq<int>>)
    ensures lines == [] ==> Joined(lines) == []
  {
  }

  /** The character at `p`: one of the text, or the 0 after it. */
  lemma CharHere(rfile: seq<RBuf>, regs: seq<Reg>, chains: seq<seq<nat>>, lines: seq<seq<seq<int>>>, r: nat, i: nat, p: int, rnleft: int)
    requires AllOK(rfile, regs, chains, lines) && r < |regs| && 0 < i <= |chains[r]| && 0 < rnleft <= TEXT
    requires p == TEXT * i - rnleft && 0 <= p <= |Joined(lines[r])|
    ensures chains[r][i - 1] < |rfile| && |rfile[chains[r][i - 1]].text| == TEXT
    ensures var c := rfile[chains[r][i - 1]].text[TEXT - rnleft];
      c == (if p < |Joined(lines[r])| then Joined(lines[r])[p] else 0) && (p < |Joined(lines[r])| ==> c != 0)
  {
    hide Joined, Chars, NoRepeats, IsLine;
    GetReg(rfile, regs, chains, lines, r);
    ChainTexts(rfile, chains[r]);
    CharAt(rfile, chains[r], i - 1, TEXT - rnleft);
    NoZeros(lines[r]);
  }

  lemma {:induction false} NoZeros(lines: seq<seq<int>>)
    requires forall l :: l in lines ==> IsLine(l)
    ensures forall p :: 0 <= p < |Joined(lines)| ==> Joined(lines)[p] != 0
  {
    if lines != [] {
      NoZeros(lines[..|lines| - 1]);
      assert lines[|lines| - 1] in lines;
    }
  }

  /** Registers '0' to '9' moved up by one, '0' staying where it is. */
  function Shift<T>(s: seq<T>): seq<T>
    requires |s| == NREGS
  {
    s[..27] + s[26..35]
  }

  /** What clearing registers before a yank leaves. */
  function Cleared<T>(s: seq<seq<T>>, c: char): seq<seq<T>>
    requires |s| == NREGS && IsName(c)
  {
    if '1' <= c <= '9' then Shift(s[35 := []]) else if 'a' <= c <= 'z' then s[MapReg(c) := []] else s
  }

  // ---------------------------------------------------------------------
  // The registers as a map
  // ---------------------------------------------------------------------

  /** What a yank that has room leaves. */
  function Yanked(held: seq<seq<seq<int>>>, c: char, ls: seq<seq<int>>): seq<seq<seq<int>>>
    requires |held| == NREGS && IsName(c)
  {
    Cleared(held, c)[MapReg(c) := Cleared(held, c)[MapReg(c)] + ls]
  }

  /** The blocks that some lines fill. */
  ghost function Need(lines: seq<seq<int>>): nat {
    (|Joined(lines)| + TEXT - 1) / TEXT
  }

  /** The blocks that all registers need. */
  ghost function Blocks(held: seq<seq<seq<int>>>): nat {
    if held == [] then 0 else Blocks(held[..|held| - 1]) + Need(held[|held| - 1])
  }

  datatype Op = Yank(c: char, ls: seq<seq<int>>) | Kill(c: char) | Put(c: char)

  datatype Outcome = Done | Failed | Held(lines: seq<seq<int>>) | Nothing

  ghost predicate IsOp(op: Op) {
    IsName(op.c) && (op.Yank? ==> op.ls != [] && forall l :: l in op.ls ==> IsLine(l))
  }

  ghost predicate AreOps(ops: seq<Op>) {
    forall i :: 0 <= i < |ops| ==> IsOp(ops[i])
  }

  /** What a command says of a map from registers to lines. */
  ghost function Answer(held: seq<seq<seq<int>>>, op: Op): Outcome
    requires |held| == NREGS && IsName(op.c)
  {
    match op
    case Yank(c, ls) => if Blocks(Yanked(held, c, ls)) < BLOCKS then Done else Failed
    case Kill(c) => Done
    case Put(c) => if held[MapReg(c)] == [] then Nothing else Held(held[MapReg(c)])
  }

  /** What a command makes of it. */
  ghost function Step(held: seq<seq<seq<int>>>, op: Op): (held': seq<seq<seq<int>>>)
    requires |held| == NREGS && IsName(op.c)
    ensures |held'| == NREGS
  {
    match op
    case Yank(c, ls) => if Blocks(Yanked(held, c, ls)) < BLOCKS then Yanked(held, c, ls) else Cleared(held, c)
    case Kill(c) => held[MapReg(c) := []]
    case Put(c) => held
  }

  ghost function After(held: seq<seq<seq<int>>>, ops: seq<Op>): (held': seq<seq<seq<int>>>)
    requires |held| == NREGS && AreOps(ops)
    ensures |held'| == NREGS
  {
    if ops == [] then held else Step(After(held, ops[..|ops| - 1]), ops[|ops| - 1])
  }

  /** The answers to the first commands are those of the map. */
  ghost predicate Answers(held: seq<seq<seq<int>>>, ops: seq<Op>, outs: seq<Outcome>)
    requires |held| == NREGS && AreOps(ops)
  {
    |outs| <= |ops| && forall i :: 0 <= i < |outs| ==> AnswerAt(held, ops, outs[i], i)
  }

  ghost predicate AnswerAt(held: seq<seq<seq<int>>>, ops: seq<Op>, out: Outcome, i: nat)
    requires |held| == NREGS && AreOps(ops) && i < |ops|
  {
    AreOps(ops[..i]) && IsOp(ops[i]) && out == Answer(After(held, ops[..i]), ops[i])
  }

  lemma RunStep(held: seq<seq<seq<int>>>, ops: seq<Op>, outs: seq<Outcome>, out: Outcome)
    requires |held| == NREGS && AreOps(ops) && Answers(held, ops, outs) && |outs| < |ops|
    requires AnswerAt(held, ops, out, |outs|)
    ensures Answers(held, ops, outs + [out])
  {
    hide AnswerAt, AreOps;
  }

  lemma AfterStep(held: seq<seq<seq<int>>>, ops: seq<Op>, i: nat)
    requires |held| == NREGS && AreOps(ops) && i < |ops|
    ensures AreOps(ops[..i]) && AreOps(ops[..i + 1]) && IsOp(ops[i])
    ensures After(held, ops[..i + 1]) == Step(After(held, ops[..i]), ops[i])
  {
    hide Step, IsOp;
    var o := ops[..i + 1];
    assert o[..i] == ops[..i] && o[i] == ops[i];
  }

  /** What yank `i` of a run puts in its register: nothing if there is no room. */
  ghost function Kept(held: seq<seq<seq<int>>>, ops: seq<Op>, i: nat): seq<seq<int>>
    requires |held| == NREGS && AreOps(ops) && i < |ops| && ops[i].Yank?
  {
    AfterStep(held, ops, i);
    if Answer(After(held, ops[..i]), ops[i]) == Done then ops[i].ls else []
  }

  lemma KeptOnce(held: seq<seq<seq<int>>>, ops: seq<Op>, n: nat, i: nat)
    requires |held| == NREGS && AreOps(ops) && i < n <= |ops| && ops[i].Yank?
    ensures AreOps(ops[..n]) && Kept(held, ops[..n], i) == Kept(held, ops, i)
  {
    hide Answer, After, IsOp;
    assert ops[..n][..i] == ops[..i];
  }

  lemma YankedToOne(held: seq<seq<seq<int>>>, op: Op)
    requires |held| == NREGS && held[26] == [] && op.Yank? && op.c == '1'
    ensures Step(held, op)[26] == [] && Step(held, op)[27] == if Answer(held, op) == Done then op.ls else []
    ensures forall q :: 28 <= q < NREGS ==> Step(held, op)[q] == held[q - 1]
  {
    hide Blocks;
    assert Cleared(held, '1')[27] == [];
  }

  /** The numbered registers keep the last nine pieces of text yanked to '1', the newest
      first; what they had before moves up behind them. */
  lemma {:induction false} LastNine(held: seq<seq<seq<int>>>, ops: seq<Op>, k: nat)
    requires |held| == NREGS && held[26] == [] && AreOps(ops) && (forall i :: 0 <= i < |ops| ==> ops[i].Yank? && ops[i].c == '1') && 1 <= k <= 9
    ensures After(held, ops)[26] == []
    ensures After(held, ops)[26 + k] == if k <= |ops| then Kept(held, ops, |ops| - k) else held[26 + k - |ops|]
    decreases |ops|
  {
    hide Step, Answer, IsOp;
    if ops != [] {
      var n := |ops| - 1;
      var o := ops[..n];
      AfterStep(held, ops, n);
      assert ops[..n + 1] == ops;
      LastNine(held, o, 1);
      YankedToOne(After(held, o), ops[n]);
      if k > 1 {
        LastNine(held, o, k - 1);
        if k <= |ops| {
          KeptOnce(held, ops, n, |ops| - k);
        }
      }
    }
  }

  // ---------------------------------------------------------------------
  // Lettered registers
  // ---------------------------------------------------------------------

  predicate IsSmall(c: char) { 'a' <= c <= 'z' }

  function Capital(c: char): char
    requires IsSmall(c)
  {
    (c as int - 32) as char
  }

  /** A letter and its capital name one register; different letters and digits name different ones. */
  lemma NamesApart(c: char, d: char)
    requires IsName(c) && IsName(d) && (IsSmall(c) || '1' <= c <= '9') && (IsSmall(d) || '1' <= d <= '9')
    ensures MapReg(c) == MapReg(d) <==> c == d
    ensures IsSmall(c) ==> IsName(Capital(c)) && MapReg(Capital(c)) == MapReg(c)
  {
  }

  /** The command is about the register of the small letter `c`. */
  predicate Names(op: Op, c: char)
    requires IsSmall(c)
  {
    op.c == c || op.c == Capital(c)
  }

  /** What one command does to a lettered register: a yank under the small letter replaces,
      one under the capital appends, and commands about other registers do nothing to it. */
  lemma LetterStep(held: seq<seq<seq<int>>>, op: Op, c: char)
    requires |held| == NREGS && IsOp(op) && IsSmall(c)
    ensures IsName(op.c) && Step(held, op)[MapReg(c)] ==
      if op.Put? || !Names(op, c) then held[MapReg(c)]
      else if op.Kill? then []
      else if op.c == c then if Answer(held, op) == Done then op.ls else []
      else if Answer(held, op) == Done then held[MapReg(c)] + op.ls
      else held[MapReg(c)]
  {
    hide Blocks;
    if op.c == Capital(c) {
      assert MapReg(op.c) == MapReg(c);
    }
    assert MapReg(op.c) == MapReg(c) ==> Names(op, c);
  }

  /** The lines of all yanks under the capital of `c`. */
  ghost function Appends(ops: seq<Op>, c: char): seq<seq<int>>
    requires IsSmall(c)
  {
    if ops == [] then []
    else
      var op := ops[|ops| - 1];
      Appends(ops[..|ops| - 1], c) + if op.Yank? && op.c == Capital(c) then op.ls else []
  }

  /** Every command of the run found room. */
  ghost predicate NoneFails(held: seq<seq<seq<int>>>, ops: seq<Op>)
    requires |held| == NREGS && AreOps(ops)
  {
    forall i :: 0 <= i < |ops| ==> Succeeds(held, ops, i)
  }

  ghost predicate Succeeds(held: seq<seq<seq<int>>>, ops: seq<Op>, i: nat)
    requires |held| == NREGS && AreOps(ops) && i < |ops|
  {
    AreOps(ops[..i]) && IsOp(ops[i]) && Answer(After(held, ops[..i]), ops[i]) != Failed
  }

  lemma NoneFailsBefore(held: seq<seq<seq<int>>>, ops: seq<Op>, n: nat)
    requires |held| == NREGS && AreOps(ops) && n < |ops| && NoneFails(held, ops)
    ensures AreOps(ops[..n]) && NoneFails(held, ops[..n]) && IsOp(ops[n]) && Answer(After(held, ops[..n]), ops[n]) != Failed
  {
    hide Answer, After, IsOp;
    assert Succeeds(held, ops, n);
    forall i | 0 <= i < n ensures Succeeds(held, ops[..n], i) {
      assert Succeeds(held, ops, i) && ops[..n][..i] == ops[..i];
    }
  }

  /** A register that no command of a run is about holds what it held, with room or without. */
  lemma {:induction false} LetterUntouched(held: seq<seq<seq<int>>>, ops: seq<Op>, c: char)
    requires |held| == NREGS && AreOps(ops) && IsSmall(c) && forall i :: 0 <= i < |ops| ==> ops[i].Put? || !Names(ops[i], c)
    ensures After(held, ops)[MapReg(c)] == held[MapReg(c)]
    decreases |ops|
  {
    hide Step, Answer, IsOp, Names;
    if ops != [] {
      var n := |ops| - 1;
      AfterStep(held, ops, n);
      assert ops[..n + 1] == ops;
      LetterUntouched(held, ops[..n], c);
      LetterStep(After(held, ops[..n]), ops[n], c);
    }
  }

  /** Yanks under the capital add to what the register held. */
  lemma {:induction false} LetterAppends(held: seq<seq<seq<int>>>, ops: seq<Op>, c: char)
    requires |held| == NREGS && AreOps(ops) && IsSmall(c) && NoneFails(held, ops)
    requires forall i :: 0 <= i < |ops| && Names(ops[i], c) ==> ops[i].Put? || (ops[i].Yank? && ops[i].c == Capital(c))
    ensures After(held, ops)[MapReg(c)] == held[MapReg(c)] + Appends(ops, c)
    decreases |ops|
  {
    hide Step, Answer, IsOp, NoneFails;
    if ops == [] {
      assert held[MapReg(c)] + [] == held[MapReg(c)];
    } else {
      var n := |ops| - 1;
      AfterStep(held, ops, n);
      assert ops[..n + 1] == ops;
      NoneFailsBefore(held, ops, n);
      LetterAppends(held, ops[..n], c);
      LetterStep(After(held, ops[..n]), ops[n], c);
      if ops[n].Yank? {
        YankAnswers(After(held, ops[..n]), ops[n]);
      }
      AppendsStep(held[MapReg(c)], ops, c);
    }
  }

  lemma YankAnswers(held: seq<seq<seq<int>>>, op: Op)
    requires |held| == NREGS && IsOp(op) && op.Yank?
    ensures Answer(held, op) == Done || Answer(held, op) == Failed
  {
  }

  lemma {:induction false} AppendsStep(was: seq<seq<int>>, ops: seq<Op>, c: char)
    requires IsSmall(c) && ops != []
    ensures var n := |ops| - 1;
      was + Appends(ops, c) == was + Appends(ops[..n], c) + if ops[n].Yank? && ops[n].c == Capital(c) then ops[n].ls else []
  {
    var op := ops[|ops| - 1];
    AddOnce(was, Appends(ops[..|ops| - 1], c), if op.Yank? && op.c == Capital(c) then op.ls else []);
  }

  lemma AddOnce(a: seq<seq<int>>, b: seq<seq<int>>, c: seq<seq<int>>)
    ensures a + (b + c) == a + b + c
  {
  }

  /** What a put of a small letter answers: the lines of the last yank under it, number `l` of the
      run, and then those of all later yanks under the capital. */
  lemma {:induction false} LastYankAnswers(held: seq<seq<seq<int>>>, ops: seq<Op>, c: char, l: nat)
    requires |held| == NREGS && AreOps(ops) && IsSmall(c) && NoneFails(held, ops)
    requires l < |ops| && ops[l].Yank? && ops[l].c == c
    requires forall i :: l < i < |ops| && Names(ops[i], c) ==> ops[i].Put? || (ops[i].Yank? && ops[i].c == Capital(c))
    ensures Answer(After(held, ops), Put(c)) == Held(ops[l].ls + Appends(ops[l + 1..], c))
  {
    LastYankHolds(held, ops, c, l);
    AfterSize(held, ops, l);
  }

  lemma AfterSize(held: seq<seq<seq<int>>>, ops: seq<Op>, l: nat)
    requires |held| == NREGS && AreOps(ops) && l < |ops| && ops[l].Yank?
    ensures ops[l].ls != []
  {
    assert IsOp(ops[l]);
  }

  lemma {:induction false} LastYankHolds(held: seq<seq<seq<int>>>, ops: seq<Op>, c: char, l: nat)
    requires |held| == NREGS && AreOps(ops) && IsSmall(c) && NoneFails(held, ops)
    requires l < |ops| && ops[l].Yank? && ops[l].c == c
    requires forall i :: l < i < |ops| && Names(ops[i], c) ==> ops[i].Put? || (ops[i].Yank? && ops[i].c == Capital(c))
    ensures After(held, ops)[MapReg(c)] == ops[l].ls + Appends(ops[l + 1..], c)
    decreases |ops|
  {
    hide Step, Answer, IsOp, NoneFails;
    var n := |ops| - 1;
    AfterStep(held, ops, n);
    assert ops[..n + 1] == ops;
    NoneFailsBefore(held, ops, n);
    LetterStep(After(held, ops[..n]), ops[n], c);
    if ops[n].Yank? {
      YankAnswers(After(held, ops[..n]), ops[n]);
    }
    if l == n {
      assert ops[l + 1..] == [];
    } else {
      LastYankHolds(held, ops[..n], c, l);
      var later := ops[l + 1..];
      assert later[..|later| - 1] == ops[..n][l + 1..] && later[|later| - 1] == ops[n];
      AppendsStep(ops[l].ls, later, c);
    }
  }

  /** A yank to a numbered register: all of them move up, and the lines are added to what has
      moved into the register named. */
  lemma NumberedYank(held: seq<seq<seq<int>>>, op: Op, d: char)
    requires |held| == NREGS && op.Yank? && '1' <= op.c <= '9' && '1' <= d <= '9' && held[26] == [] && Answer(held, op) == Done
    ensures var moved := if d == '1' then [] else held[MapReg((d as int - 1) as char)];
      Step(held, op)[MapReg(d)] == moved + if d == op.c then op.ls else []
  {
    hide Blocks;
    var k := d as int - '0' as int;
    assert MapReg(d) == 26 + k;
    assert Cleared(held, op.c)[26 + k] == held[25 + k];
  }

  // ---------------------------------------------------------------------
  // Room
  // ---------------------------------------------------------------------

  ghost function Total(chains: seq<seq<nat>>): nat {
    if chains == [] then 0 else Total(chains[..|chains| - 1]) + |chains[|chains| - 1]|
  }

  ghost function Elements(s: seq<nat>): set<nat> {
    set b | b in s
  }

  ghost function OnChains(chains: seq<seq<nat>>): set<nat> {
    if chains == [] then {} else OnChains(chains[..|chains| - 1]) + Elements(chains[|chains| - 1])
  }

  lemma {:induction false} ElementsSize(s: seq<nat>)
    requires NoRepeats(s)
    ensures |Elements(s)| == |s|
  {
    if s != [] {
      var n := |s| - 1;
      ElementsSize(s[..n]);
      assert Elements(s) == Elements(s[..n]) + {s[n]};
    }
  }

  lemma {:induction false} OnChainsIs(chains: seq<seq<nat>>, b: nat)
    ensures b in OnChains(chains) <==> OnChain(chains, b)
  {
    if chains != [] {
      var n := |chains| - 1;
      OnChainsIs(chains[..n], b);
      if OnChain(chains, b) {
        var r :| 0 <= r < |chains| && b in chains[r];
        assert r < n ==> b in chains[..n][r];
      }
    }
  }

  /** Chains that are apart take as many blocks as they are long together. */
  lemma {:induction false} TotalIs(chains: seq<seq<nat>>)
    requires Apart(chains) && forall r :: 0 <= r < |chains| ==> NoRepeats(chains[r])
    ensures |OnChains(chains)| == Total(chains)
  {
    hide NoRepeats, OnChain;
    if chains != [] {
      var n := |chains| - 1;
      TotalIs(chains[..n]);
      ElementsSize(chains[n]);
      forall b | b in chains[n] ensures b !in OnChains(chains[..n]) {
        OnChainsIs(chains[..n], b);
        NotBefore(chains, b);
      }
      assert OnChains(chains[..n]) !! Elements(chains[n]);
    }
  }

  lemma NotBefore(chains: seq<seq<nat>>, b: nat)
    requires Apart(chains) && chains != [] && b in chains[|chains| - 1]
    ensures !OnChain(chains[..|chains| - 1], b)
  {
  }

  lemma {:induction false} UpTo(n: nat) returns (all: set<nat>)
    ensures |all| == n && forall b: nat :: b in all <==> 0 < b <= n
  {
    if n == 0 {
      return {};
    }
    all := UpTo(n - 1);
    all := all + {n};
  }

  lemma SubsetSize(a: set<nat>, b: set<nat>)
    requires a <= b
    ensures |a| <= |b| && (|a| == |b| <==> a == b)
  {
    assert b == a + (b - a);
  }

  /** There are as many blocks on chains as there are blocks exactly when none is free. */
  lemma RoomOnChains(chains: seq<seq<nat>>)
    requires Apart(chains) && forall r :: 0 <= r < |chains| ==> NoRepeats(chains[r])
    requires forall r, i :: 0 <= r < |chains| && 0 <= i < |chains[r]| ==> 0 < chains[r][i] < BLOCKS
    ensures Total(chains) < BLOCKS && (NoRoom(chains) <==> Total(chains) == BLOCKS - 1)
  {
    hide NoRepeats, Apart, OnChain;
    TotalIs(chains);
    var all := UpTo(BLOCKS - 1);
    forall b: nat ensures b in OnChains(chains) <==> OnChain(chains, b) {
      OnChainsIs(chains, b);
    }
    forall b: nat | OnChain(chains, b) ensures b in all {
      OnChainIn(chains, b);
    }
    SubsetSize(OnChains(chains), all);
  }

  lemma OnChainIn(chains: seq<seq<nat>>, b: nat)
    requires forall r, i :: 0 <= r < |chains| && 0 <= i < |chains[r]| ==> 0 < chains[r][i] < BLOCKS
    ensures OnChain(chains, b) ==> 0 < b < BLOCKS
  {
    if OnChain(chains, b) {
      var r :| 0 <= r < |chains| && b in chains[r];
      var i :| 0 <= i < |chains[r]| && b == chains[r][i];
    }
  }

  /** A register on file has just the blocks it needs. */
  lemma NeedIs(rfile: seq<RBuf>, reg: Reg, chain: seq<nat>, lines: seq<seq<int>>)
    requires RegOK(rfile, reg, chain, lines) && |rfile| <= BLOCKS
    ensures |chain| == Need(lines) && NoRepeats(chain) && forall i :: 0 <= i < |chain| ==> 0 < chain[i] < BLOCKS
    ensures chain == [] <==> lines == []
  {
    hide NoRepeats, IsLine;
    ChainTexts(rfile, chain);
    TextSize(rfile, chain);
    NoText(lines);
    SomeText(lines);
  }

  lemma SomeText(lines: seq<seq<int>>)
    ensures lines != [] ==> |Joined(lines)| > 0
  {
  }

  /** Registers `r` apart, every chain is just as long as the lines need. */
  lemma {:induction false} NeedsAddUp(chains: seq<seq<nat>>, held: seq<seq<seq<int>>>, r: int)
    requires |chains| == |held| && forall q :: 0 <= q < |held| ==> if q == r then |chains[q]| < Need(held[q]) else |chains[q]| == Need(held[q])
    ensures if 0 <= r < |held| then Total(chains) < Blocks(held) else Total(chains) == Blocks(held)
  {
    hide Need;
    if held != [] {
      var n := |held| - 1;
      NeedsAddUp(chains[..n], held[..n], if r == n then -1 else r);
    }
  }

  /** The registers on file need no more blocks than there are, and all of them just when
      no block is free. */
  lemma AllBlocks(rfile: seq<RBuf>, regs: seq<Reg>, rused: seq<bv16>, chains: seq<seq<nat>>, held: seq<seq<seq<int>>>)
    requires |rused| == WORDS && Apart(chains) && MapOK(rused, chains) && AllOK(rfile, regs, chains, held) && |rfile| == BLOCKS
    ensures Blocks(held) < BLOCKS && (NoRoom(chains) <==> Blocks(held) == BLOCKS - 1)
  {
    hide RegOK, NoRepeats, Apart, MapOK, NoRoom, Blocks, Total, Need;
    forall q: nat | q < |chains|
      ensures |chains[q]| == Need(held[q]) && NoRepeats(chains[q]) && forall i :: 0 <= i < |chains[q]| ==> 0 < chains[q][i] < BLOCKS
    {
      GetReg(rfile, regs, chains, held, q);
      NeedIs(rfile, regs[q], chains[q], held[q]);
    }
    NeedsAddUp(chains, held, -1);
    RoomOnChains(chains);
  }

  /** A yank that finds no free block would have needed one too many. */
  lemma OutOfBlocks(rfile: seq<RBuf>, regs: seq<Reg>, rused: seq<bv16>, chains: seq<seq<nat>>, held: seq<seq<seq<int>>>, r: nat,
                    text: seq<int>, rblock: nat, rbuf: RBuf, all: seq<seq<int>>)
    requires |rused| == WORDS && r < |regs| && Apart(chains) && MapOK(rused, chains) && FullBelow(rused, BLOCKS) && |rfile| == BLOCKS
    requires OthersOK(rfile, regs, chains, held, r) && Yanking(rfile, regs[r], chains[r], text, rblock, rbuf, 0)
    requires |text| < |Joined(all)|
    ensures Blocks(held[r := all]) >= BLOCKS
  {
    hide RegOK, NoRepeats, Apart, Blocks, Total, Need, Yanking, OnChain, Taken;
    YankingSize(rfile, regs[r], chains[r], text, rblock, rbuf, all);
    var held' := held[r := all];
    forall q: nat | q < |chains|
      ensures NoRepeats(chains[q]) && forall i :: 0 <= i < |chains[q]| ==> 0 < chains[q][i] < BLOCKS
      ensures if q == r then |chains[q]| < Need(held'[q]) else |chains[q]| == Need(held'[q])
    {
      if q != r { NeedIs(rfile, regs[q], chains[q], held[q]); }
    }
    NeedsAddUp(chains, held', r);
    RoomOnChains(chains);
    assert NoRoom(chains);
  }

  lemma YankingSize(rfile: seq<RBuf>, reg: Reg, cur: seq<nat>, text: seq<int>, rblock: nat, rbuf: RBuf, all: seq<seq<int>>)
    requires Yanking(rfile, reg, cur, text, rblock, rbuf, 0) && |rfile| == BLOCKS && |text| < |Joined(all)|
    ensures NoRepeats(cur) && (forall i :: 0 <= i < |cur| ==> 0 < cur[i] < BLOCKS) && |cur| < Need(all)
  {
    hide NoRepeats;
    if cur != [] {
      var c := cur[..|cur| - 1];
      forall i: nat | i < |c| ensures 0 < c[i] < |rfile| && |rfile[c[i]].text| == TEXT {
        assert LinkAt(rfile, cur, i);
      }
      TextSize(rfile, c);
    }
  }

  /** All blocks are on chains. */
  ghost predicate NoRoom(chains: seq<seq<nat>>) {
    forall b: nat :: 0 < b < BLOCKS ==> OnChain(chains, b)
  }

  lemma EmptyJoined()
    ensures Joined([]) == []
  {
  }

  lemma JoinedStep(had: seq<seq<int>>, ls: seq<seq<int>>, i: nat)
    requires i < |ls|
    ensures Joined(had + ls[..i + 1]) == Joined(had + ls[..i]) + ls[i] + [10]
  {
    var s := had + ls[..i + 1];
    assert s[..|s| - 1] == had + ls[..i];
  }

  lemma AllFromOthers(rfile: seq<RBuf>, regs: seq<Reg>, chains: seq<seq<nat>>, lines: seq<seq<seq<int>>>, r: nat, all: seq<seq<int>>)
    requires OthersOK(rfile, regs, chains, lines, r) && r < |regs| && RegOK(rfile, regs[r], chains[r], all)
    ensures AllOK(rfile, regs, chains, lines[r := all])
  {
    hide RegOK;
  }

  /** Why '0' is no name: the shift copies register '0' to '1' without emptying it, so that it
      keeps the chains apart just when that register holds nothing. */
  lemma ShiftedRegs(rfile: seq<RBuf>, rs: seq<Reg>, rused: seq<bv16>, chains: seq<seq<nat>>, lines: seq<seq<seq<int>>>)
    requires |rs| == |chains| == |lines| == NREGS && |rused| == WORDS && chains[35] == []
    requires Apart(chains) && MapOK(rused, chains) && AllOK(rfile, rs, chains, lines)
    ensures AllOK(rfile, Shift(rs), Shift(chains), Shift(lines)) && MapOK(rused, Shift(chains))
    ensures Apart(Shift(chains)) <==> chains[26] == []
    ensures chains[26] != [] ==> !Consistent(rfile, Shift(rs), rused)
  {
    hide RegOK, Taken, Consistent;
    var rs', chains', lines' := Shift(rs), Shift(chains), Shift(lines);
    forall q: nat | q < NREGS ensures RegOK(rfile, rs'[q], chains'[q], lines'[q]) {
      GetReg(rfile, rs, chains, lines, if q > 26 then q - 1 else q);
    }
    forall b: nat | 0 < b < BLOCKS ensures OnChain(chains', b) <==> OnChain(chains, b) {
      ShiftedOn(chains, b);
    }
    if chains[26] != [] {
      assert chains[26][0] in chains'[26] && chains[26][0] in chains'[27];
      GetReg(rfile, rs, chains, lines, 26);
      SharedChain(rfile, rs', rused, chains[26], lines[26]);
    } else {
      ShiftedApart(chains);
    }
  }

  lemma ShiftedOn(chains: seq<seq<nat>>, b: nat)
    requires |chains| == NREGS && chains[35] == []
    ensures OnChain(Shift(chains), b) <==> OnChain(chains, b)
  {
    var chains' := Shift(chains);
    if OnChain(chains, b) {
      var q :| 0 <= q < NREGS && b in chains[q];
      assert b in chains'[if q > 26 then q + 1 else q];
    }
    if OnChain(chains', b) {
      var q :| 0 <= q < NREGS && b in chains'[q];
      assert b in chains[if q > 26 then q - 1 else q];
    }
  }

  lemma ShiftedApart(chains: seq<seq<nat>>)
    requires |chains| == NREGS && Apart(chains) && chains[26] == []
    ensures Apart(Shift(chains))
  {
    var chains' := Shift(chains);
    forall p, q, b | 0 <= p < q < NREGS && b in chains'[p] ensures b !in chains'[q] {
      var p', q' := if p > 26 then p - 1 else p, if q > 26 then q - 1 else q;
      assert chains'[p] == chains[p'] && chains'[q] == chains[q'];
      assert p' < q' ==> b !in chains[q'];
    }
  }

  /** Two registers that name the same first block fit no bookkeeping. */
  lemma SharedChain(rfile: seq<RBuf>, regs: seq<Reg>, rused: seq<bv16>, chain: seq<nat>, lines: seq<seq<int>>)
    requires |regs| == NREGS && |rused| == WORDS && regs[26] == regs[27] && chain != [] && RegOK(rfile, regs[26], chain, lines)
    ensures !Consistent(rfile, regs, rused)
  {
    hide Taken, MapOK;
    assert LinkAt(rfile, chain, 0);
    forall chains, ls ensures !(Apart(chains) && MapOK(rused, chains) && AllOK(rfile, regs, chains, ls)) {
      if AllOK(rfile, regs, chains, ls) {
        GetReg(rfile, regs, chains, ls, 26);
        GetReg(rfile, regs, chains, ls, 27);
        assert regs[26].first in chains[26] && regs[26].first in chains[27];
      }
    }
  }

  /** A yank that ran out of blocks. */
  lemma YankFailed(rfile: seq<RBuf>, regs: seq<Reg>, rused: seq<bv16>, chains: seq<seq<nat>>, lines: seq<seq<seq<int>>>, r: nat,
                   text: seq<int>, rblock: nat, rbuf: RBuf, rnleft: int, c0: seq<seq<nat>>, f0: seq<RBuf>, r0: seq<Reg>)
    requires |rused| == WORDS && r < |regs| == |chains| == |c0| && Apart(chains) && MapOK(rused, chains) && FullBelow(rused, BLOCKS)
    requires |rfile| == BLOCKS && OthersOK(rfile, regs, chains, lines, r) && Yanking(rfile, regs[r], chains[r], text, rblock, rbuf, rnleft)
    requires Added(rfile, regs, r, chains[r], c0[r], f0, r0) && chains == c0[r := chains[r]] && AllOK(f0, r0, c0, lines)
    ensures chains[r] == c0[r] ==> AllOK(rfile, regs, chains, lines) && NoRoom(c0)
    ensures chains[r] != c0[r] ==> !AllOK(rfile, regs, chains, lines) && !NoRoom(c0) && !Consistent(rfile, regs, rused)
  {
    hide RegOK, Taken, Consistent, Yanking, Linked, NoRepeats, Chars;
    if chains[r] == c0[r] {
      assert chains == c0;
    } else {
      LeakedBlock(rused, chains, r, c0, rfile, regs[r], text, rblock, rbuf, rnleft);
      forall chains', ls ensures !(Apart(chains') && MapOK(rused, chains') && AllOK(rfile, regs, chains', ls)) {
        Leak(rfile, regs, rused, chains, lines, r, text, rblock, rbuf, rnleft, c0[r], f0, r0, chains', ls);
      }
      NotConsistent(rfile, regs, rused);
    }
  }

  lemma NotConsistent(rfile: seq<RBuf>, regs: seq<Reg>, rused: seq<bv16>)
    requires |rused| == WORDS
    requires forall chains, ls :: !(Apart(chains) && MapOK(rused, chains) && AllOK(rfile, regs, chains, ls))
    ensures !Consistent(rfile, regs, rused)
  {
    hide Apart, MapOK, AllOK;
  }

  /** The block in the buffer was free before the yank. */
  lemma LeakedBlock(rused: seq<bv16>, chains: seq<seq<nat>>, r: nat, c0: seq<seq<nat>>, rfile: seq<RBuf>, reg: Reg,
                    text: seq<int>, rblock: nat, rbuf: RBuf, rnleft: int)
    requires r < |chains| == |c0| && Apart(chains) && chains == c0[r := chains[r]] && c0[r] <= chains[r] && chains[r] != c0[r]
    requires Yanking(rfile, reg, chains[r], text, rblock, rbuf, rnleft) && |rfile| == BLOCKS
    ensures 0 < rblock < BLOCKS && rblock in chains[r] && !OnChain(c0, rblock) && !NoRoom(c0)
  {
    hide Chars, Linked;
    var cur := chains[r];
    assert |c0[r]| < |cur|;
    assert rblock == cur[|cur| - 1];
    forall q | 0 <= q < |c0| ensures rblock !in c0[q] {
      if q != r {
        ApartAt(chains, r, q, rblock);
      } else {
        assert forall i :: 0 <= i < |c0[r]| ==> c0[r][i] == cur[i];
      }
    }
  }

  /** A block that is marked as taken but is on no chain that the registers lead to. */
  lemma Leak(rfile: seq<RBuf>, regs: seq<Reg>, rused: seq<bv16>, chains: seq<seq<nat>>, lines: seq<seq<seq<int>>>, r: nat,
             text: seq<int>, rblock: nat, rbuf: RBuf, rnleft: int, start: seq<nat>, f0: seq<RBuf>, r0: seq<Reg>,
             chains': seq<seq<nat>>, ls: seq<seq<seq<int>>>)
    requires |rused| == WORDS && r < |regs| == |chains| && Apart(chains) && MapOK(rused, chains) && |rfile| == BLOCKS
    requires OthersOK(rfile, regs, chains, lines, r) && Yanking(rfile, regs[r], chains[r], text, rblock, rbuf, rnleft)
    requires Added(rfile, regs, r, chains[r], start, f0, r0) && chains[r] != start
    ensures !(MapOK(rused, chains') && AllOK(rfile, regs, chains', ls))
  {
    hide RegOK, Taken, Yanking, Linked, NoRepeats, Chars;
    YankFacts(rfile, regs[r], chains[r], text, rblock, rbuf, rnleft);
    assert OnChain(chains, rblock) && Taken(rused, rblock);
    if AllOK(rfile, regs, chains', ls) {
      GetReg(rfile, regs, chains', ls, r);
      if |chains[r]| > 1 {
        NotOnFile(rfile, regs[r], chains[r], text, rblock, rbuf, rnleft, chains'[r], ls[r]);
      } else {
        FirstPositive(rfile, regs[r], chains'[r], ls[r]);
        forall q | 0 <= q < |chains'| ensures rblock !in chains'[q] {
          if q != r {
            GetReg(rfile, regs, chains', ls, q);
            SameChain(rfile, regs[q], chains[q], lines[q], chains'[q], ls[q]);
            ApartAt(chains, r, q, rblock);
          }
        }
        assert !OnChain(chains', rblock);
      }
    }
  }

  lemma SameChain(rfile: seq<RBuf>, reg: Reg, chain: seq<nat>, lines: seq<seq<int>>, chain': seq<nat>, lines': seq<seq<int>>)
    requires RegOK(rfile, reg, chain, lines) && RegOK(rfile, reg, chain', lines')
    ensures chain == chain'
  {
    hide Chars, Joined, IsLine;
    forall i | 0 <= i < |chain| ensures chain[i] > 0 {
      assert LinkAt(rfile, chain, i);
    }
    FirstPositive(rfile, reg, chain, lines);
    FirstPositive(rfile, reg, chain', lines');
    if chain != [] {
      ChainUnique(rfile, reg, chain', lines', chain, |chain|);
    }
  }

  /** A register that ends before the block it is linked to is not a register on file. */
  lemma NotOnFile(rfile: seq<RBuf>, reg: Reg, cur: seq<nat>, text: seq<int>, rblock: nat, rbuf: RBuf, rnleft: int,
                  chain: seq<nat>, lines: seq<seq<int>>)
    requires Yanking(rfile, reg, cur, text, rblock, rbuf, rnleft) && |cur| > 1 && reg.first == cur[0] && RegOK(rfile, reg, chain, lines)
    ensures reg.last != cur[|cur| - 2]
  {
    hide Chars, Joined, IsLine;
    FirstPositive(rfile, reg, chain, lines);
    var n := |cur| - 1;
    ChainUnique(rfile, reg, chain, lines, cur, n);
    assert chain[n - 1] == cur[n - 1] && n < |chain|;
  }

  lemma FirstPositive(rfile: seq<RBuf>, reg: Reg, chain: seq<nat>, lines: seq<seq<int>>)
    requires RegOK(rfile, reg, chain, lines)
    ensures chain != [] <==> reg.first != 0
  {
    assert chain != [] ==> LinkAt(rfile, chain, 0);
  }

  lemma LinesAreLines(rfile: seq<RBuf>, regs: seq<Reg>, chains: seq<seq<nat>>, lines: seq<seq<seq<int>>>, r: nat)
    requires AllOK(rfile, regs, chains, lines) && r < |regs|
    ensures forall l :: l in lines[r] ==> IsLine(l)
  {
    GetReg(rfile, regs, chains, lines, r);
  }

  lemma OthersFromAll(rfile: seq<RBuf>, regs: seq<Reg>, chains: seq<seq<nat>>, lines: seq<seq<seq<int>>>, r: nat)
    requires AllOK(rfile, regs, chains, lines) && r < |regs|
    ensures OthersOK(rfile, regs, chains, lines, r)
  {
  }

  /** All registers but `r`. */
  ghost predicate OthersOK(rfile: seq<RBuf>, regs: seq<Reg>, chains: seq<seq<nat>>, lines: seq<seq<seq<int>>>, r: nat) {
    |regs| == |chains| == |lines| && forall q: nat :: q < |regs| && q != r ==> RegOK(rfile, regs[q], chains[q], lines[q])
  }

  /** Either no block has been added and nothing was written, or the register on file
      ends just before the block in the buffer. */
  ghost predicate Added(rfile: seq<RBuf>, regs: seq<Reg>, r: nat, cur: seq<nat>, start: seq<nat>, rfile0: seq<RBuf>, regs0: seq<Reg>)
    requires r < |regs|
  {
    start <= cur &&
    if cur == start then rfile == rfile0 && regs == regs0
    else if |cur| == 1 then regs[r].first == 0
    else regs[r].last == cur[|cur| - 2] && regs[r].first == cur[0]
  }

  lemma YankFacts(rfile: seq<RBuf>, reg: Reg, cur: seq<nat>, text: seq<int>, rblock: nat, rbuf: RBuf, rnleft: int)
    requires Yanking(rfile, reg, cur, text, rblock, rbuf, rnleft)
    ensures 0 <= rnleft <= TEXT && (rblock != 0 ==> rblock in cur && rblock < |rfile|) && (cur != [] <==> rblock != 0)
    ensures |rbuf.text| == TEXT && (cur != [] ==> rblock == cur[|cur| - 1])
  {
  }

  /** A block that was free joins the chain of register `r`. */
  lemma FreshBlock(rused: seq<bv16>, rused': seq<bv16>, chains: seq<seq<nat>>, r: nat, b: nat)
    requires |rused| == |rused'| == WORDS && r < |chains| && MapOK(rused, chains) && Apart(chains)
    requires 0 < b < BLOCKS && !Taken(rused, b) && forall x: nat :: x < BLOCKS ==> (Taken(rused', x) <==> Taken(rused, x) || x == b)
    ensures b !in chains[r] && MapOK(rused', chains[r := chains[r] + [b]]) && Apart(chains[r := chains[r] + [b]])
  {
    hide Taken;
    var chains' := chains[r := chains[r] + [b]];
    assert !OnChain(chains, b);
    assert forall q :: 0 <= q < |chains| ==> b !in chains[q];
    forall x: nat | 0 < x < BLOCKS ensures Taken(rused', x) <==> OnChain(chains', x) {
      if OnChain(chains', x) && x != b {
        var q :| 0 <= q < |chains'| && x in chains'[q];
        assert x in chains[q];
        assert OnChain(chains, x);
      }
      if OnChain(chains, x) {
        var q :| 0 <= q < |chains| && x in chains[q];
        assert x in chains'[q];
      }
      assert b in chains'[r];
    }
    forall p, q, x | 0 <= p < q < |chains'| && x in chains'[p] ensures x !in chains'[q] {
      if x != b {
        assert x in chains[p];
        assert x !in chains[q];
      }
    }
  }

  /** The other registers do not notice what is written to blocks of register `r`. */
  lemma OthersKept(rfile: seq<RBuf>, regs: seq<Reg>, chains: seq<seq<nat>>, lines: seq<seq<seq<int>>>, r: nat, rblock: nat, rbuf: RBuf,
                   cur: seq<nat>, reg: Reg)
    requires OthersOK(rfile, regs, chains, lines, r) && r < |chains| && Apart(chains)
    requires rblock != 0 ==> rblock in chains[r] && rblock < |rfile|
    ensures var rfile' := if rblock != 0 then rfile[rblock := rbuf] else rfile;
      OthersOK(rfile', regs[r := reg], chains[r := cur], lines, r)
  {
    hide RegOK;
    var rfile' := if rblock != 0 then rfile[rblock := rbuf] else rfile;
    forall q: nat | q < |regs| && q != r ensures RegOK(rfile', regs[q], chains[q], lines[q]) {
      forall b | b in chains[q] && b < |rfile| ensures rfile'[b] == rfile[b] {
        if rblock != 0 { ApartAt(chains, r, q, rblock); }
      }
      RegFrame(rfile, rfile', regs[q], chains[q], lines[q]);
    }
  }

  lemma AddedBlock(rfile: seq<RBuf>, regs: seq<Reg>, r: nat, cur: seq<nat>, text: seq<int>, rblock: nat, rbuf: RBuf, b: nat,
                   start: seq<nat>, rfile0: seq<RBuf>, regs0: seq<Reg>)
    requires r < |regs| && Yanking(rfile, regs[r], cur, text, rblock, rbuf, 0) && Added(rfile, regs, r, cur, start, rfile0, regs0)
    ensures rblock != 0 ==> rblock < |rfile|
    ensures var rfile' := if rblock != 0 then rfile[rblock := rbuf.(next := b)] else rfile;
      var regs' := if rblock != 0 then regs[r := Flushed(regs[r], rblock, 0)] else regs;
      Added(rfile', regs', r, cur + [b], start, rfile0, regs0)
  {
  }

  lemma NothingTaken(rused: seq<bv16>, chains: seq<seq<nat>>)
    requires |rused| == WORDS && (forall i :: 0 <= i < WORDS ==> rused[i] == 0) && forall r :: 0 <= r < |chains| ==> chains[r] == []
    ensures MapOK(rused, chains)
  {
    hide BitIn;
    forall b: nat | 0 < b < BLOCKS ensures !Taken(rused, b) && !OnChain(chains, b) {
      BitOfZero(b % 16);
    }
  }

  lemma NothingBelow(rused: seq<bv16>)
    requires |rused| == WORDS
    ensures FullBelow(rused, 0)
  {
  }

  lemma ChainFacts(rfile: seq<RBuf>, regs: seq<Reg>, chains: seq<seq<nat>>, lines: seq<seq<seq<int>>>, r: nat)
    requires AllOK(rfile, regs, chains, lines) && r < |regs|
    ensures regs[r].first == if chains[r] != [] then chains[r][0] else 0
    ensures NoRepeats(chains[r]) && Linked(rfile, chains[r], |chains[r]|)
  {
    assert RegOK(rfile, regs[r], chains[r], lines[r]);
  }

  lemma ChainBlock(rfile: seq<RBuf>, regs: seq<Reg>, chains: seq<seq<nat>>, lines: seq<seq<seq<int>>>, r: nat, i: nat)
    requires AllOK(rfile, regs, chains, lines) && r < |regs| && i < |chains[r]|
    ensures LinkAt(rfile, chains[r], i)
  {
    assert RegOK(rfile, regs[r], chains[r], lines[r]);
  }

  lemma ApartAt(chains: seq<seq<nat>>, q: nat, r: nat, b: nat)
    requires Apart(chains) && q < |chains| && r < |chains| && q != r && b in chains[q]
    ensures b !in chains[r]
  {
  }

  lemma MapAfterKill(rused: seq<bv16>, rused': seq<bv16>, chains: seq<seq<nat>>, r: nat)
    requires |rused| == |rused'| == WORDS && r < |chains| && MapOK(rused, chains) && Apart(chains)
    requires forall x: nat :: x < BLOCKS ==> (Taken(rused', x) <==> Taken(rused, x) && x !in chains[r])
    ensures MapOK(rused', chains[r := []]) && Apart(chains[r := []])
  {
    hide Taken;
    var chains' := chains[r := []];
    forall b: nat | 0 < b < BLOCKS ensures Taken(rused', b) <==> OnChain(chains', b) {
      if OnChain(chains', b) {
        var q :| 0 <= q < |chains'| && b in chains'[q];
        assert b in chains[q];
        assert OnChain(chains, b);
        ApartAt(chains, q, r, b);
      }
      if OnChain(chains, b) && b !in chains[r] {
        var q :| 0 <= q < |chains| && b in chains[q];
        assert b in chains'[q];
      }
    }
  }
}
