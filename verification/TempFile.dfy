/** ex/ex_temp.c: the text of the lines in the temporary file, seen through two read
    buffers and one write buffer.  The layout is that of ex_temp.h with 32-bit line
    pointers and blocks of 512 bytes. */
module TempFiles {

  const BUFSIZ := 512
  const BNDRY := 8
  const INCRMT := 128
  const NMBLKS := 506
  const HBLKS := 2
  const LBSIZE := 1024

  // ---------------------------------------------------------------------
  // Line pointers
  // ---------------------------------------------------------------------

  /** `(atl >> OFFBTS) & BLKMSK` */
  function BlockOf(tl: nat): nat { (tl / 128) % 32768 }

  /** `(atl << SHFT) & LBTMSK`: the lowest bit, the global mark, is dropped. */
  function OffsetOf(tl: nat): nat { ((tl % 128) / 2) * 8 }

  /** The byte in the file where the text of the line begins. */
  function Address(tl: nat): nat { (tl / 2) * 8 }

  lemma PointerParts(tl: nat)
    requires tl < 128 * 32768
    ensures Address(tl) == BUFSIZ * BlockOf(tl) + OffsetOf(tl) && OffsetOf(tl) < BUFSIZ
  {
  }

  // ---------------------------------------------------------------------
  // The cache as a value
  // ---------------------------------------------------------------------

  /** Blocks in the three buffers (-1 for none), whether the read buffers have been
      changed, and the file itself. */
  datatype Cache = Cache(iblock: int, iblock2: int, oblock: int, ichanged: bool, ichang2: bool,
                         ibuff: seq<int>, ibuff2: seq<int>, obuff: seq<int>, disk: seq<seq<int>>)

  ghost predicate Shaped(c: Cache) {
    -1 <= c.iblock < NMBLKS && -1 <= c.iblock2 < NMBLKS && -1 <= c.oblock < NMBLKS &&
    (c.ichanged ==> c.iblock >= 0) && (c.ichang2 ==> c.iblock2 >= 0) &&
    |c.ibuff| == |c.ibuff2| == |c.obuff| == BUFSIZ && |c.disk| == NMBLKS &&
    forall b :: 0 <= b < NMBLKS ==> |c.disk[b]| == BUFSIZ
  }

  /** The contents of block `b`, wherever they are. */
  ghost function Flat(c: Cache, b: int): (s: seq<int>)
    requires Shaped(c) && 0 <= b < NMBLKS
    ensures |s| == BUFSIZ
  {
    if b == c.iblock then c.ibuff else if b == c.iblock2 then c.ibuff2 else if b == c.oblock then c.obuff else c.disk[b]
  }

  ghost predicate Buffered(c: Cache, b: int) {
    b == c.iblock || b == c.iblock2 || b == c.oblock
  }

  /** No block is in two buffers, and a read buffer that is not marked changed agrees
      with the file. */
  ghost predicate Coherent(c: Cache) {
    Shaped(c) &&
    (c.iblock >= 0 ==> c.iblock != c.iblock2 && c.iblock != c.oblock) && (c.iblock2 >= 0 ==> c.iblock2 != c.oblock) &&
    (c.iblock >= 0 && !c.ichanged ==> c.disk[c.iblock] == c.ibuff) &&
    (c.iblock2 >= 0 && !c.ichang2 ==> c.disk[c.iblock2] == c.ibuff2)
  }

  /** The byte at address `a` of the flat file. */
  ghost function Byte(c: Cache, a: int): int
    requires Shaped(c) && 0 <= a < BUFSIZ * NMBLKS
  {
    Flat(c, a / BUFSIZ)[a % BUFSIZ]
  }

  lemma ByteAt(c: Cache, b: int, o: int)
    requires Shaped(c) && 0 <= b < NMBLKS && 0 <= o < BUFSIZ
    ensures 0 <= BUFSIZ * b + o < BUFSIZ * NMBLKS && Byte(c, BUFSIZ * b + o) == Flat(c, b)[o]
  {
    assert (BUFSIZ * b + o) / BUFSIZ == b && (BUFSIZ * b + o) % BUFSIZ == o;
  }

  /** All blocks but `b` are unchanged. */
  ghost predicate SameBut(c: Cache, c': Cache, b: int) {
    Shaped(c) && Shaped(c') && forall k :: 0 <= k < NMBLKS && k != b ==> Flat(c', k) == Flat(c, k)
  }

  ghost predicate SameBelow(c: Cache, c': Cache, a: int) {
    Shaped(c) && Shaped(c') && forall x :: 0 <= x < a && x < BUFSIZ * NMBLKS ==> Byte(c', x) == Byte(c, x)
  }

  // ---------------------------------------------------------------------
  // What getblock does to the cache
  // ---------------------------------------------------------------------

  datatype Which = In1 | In2 | Out

  /** A miss for reading: the read buffer used less recently is written back if it has
      been changed, and takes block `b`. */
  ghost function ReadMiss(c: Cache, b: int, into2: bool): Cache
    requires Shaped(c) && 0 <= b < NMBLKS
  {
    if into2 then
      var d := if c.ichang2 then c.disk[c.iblock2 := c.ibuff2] else c.disk;
      c.(disk := d, ichang2 := false, iblock2 := b, ibuff2 := d[b])
    else
      var d := if c.ichanged then c.disk[c.iblock := c.ibuff] else c.disk;
      c.(disk := d, ichanged := false, iblock := b, ibuff := d[b])
  }

  /** A miss for writing: the write buffer is written back and taken for block `b`,
      without reading the block. */
  ghost function WriteMiss(c: Cache, b: int): Cache
    requires Shaped(c) && 0 <= b < NMBLKS
  {
    c.(disk := if c.oblock >= 0 then c.disk[c.oblock := c.obuff] else c.disk, oblock := b)
  }

  /** Reading never changes what the file looks like. */
  lemma ReadMissKeeps(c: Cache, b: int, into2: bool)
    requires Coherent(c) && 0 <= b < NMBLKS && !Buffered(c, b)
    ensures Coherent(ReadMiss(c, b, into2)) && SameBut(c, ReadMiss(c, b, into2), -1)
  {
    var d := ReadMiss(c, b, into2);
    forall k | 0 <= k < NMBLKS ensures Flat(d, k) == Flat(c, k) {
    }
  }

  /** Taking a block for writing without reading it changes that block only, and keeps
      it exactly when the write buffer happens to hold its contents already. */
  lemma WriteMissKeeps(c: Cache, b: int)
    requires Coherent(c) && 0 <= b < NMBLKS && !Buffered(c, b)
    ensures Coherent(WriteMiss(c, b)) && SameBut(c, WriteMiss(c, b), b)
    ensures Flat(WriteMiss(c, b), b) == Flat(c, b) <==> c.obuff == c.disk[b]
  {
    var d := WriteMiss(c, b);
    forall k | 0 <= k < NMBLKS && k != b ensures Flat(d, k) == Flat(c, k) {
    }
  }

  /** What a caller of getblock can rely on: the block is in buffer `w`; the file looks as
      before, except that a block taken for writing without being in a buffer has
      unknown contents. */
  ghost predicate Fetched(c: Cache, d: Cache, w: Which, b: int, write: bool) {
    Holds(d, w, b) && (write ==> Writable(d, w, b)) &&
    SameBut(c, d, if write && !Buffered(c, b) then b else -1) &&
    (write ==> d.iblock == c.iblock && d.iblock2 == c.iblock2 && (Buffered(c, b) ==> d.oblock == c.oblock) && (!Buffered(c, b) ==> d.oblock == b)) &&
    (!write ==> d.oblock == c.oblock && d.iblock in {c.iblock, b} && d.iblock2 in {c.iblock2, b}) &&
    (!write && Buffered(c, b) ==> d.iblock == c.iblock && d.iblock2 == c.iblock2)
  }

  /** A hit marks a read buffer as changed when it is going to be written. */
  ghost function Hit(c: Cache, w: Which, write: bool): Cache {
    match w
    case In1 => c.(ichanged := c.ichanged || write)
    case In2 => c.(ichang2 := c.ichang2 || write)
    case Out => c
  }

  lemma HitFetched(c: Cache, w: Which, b: int, write: bool)
    requires Coherent(c) && 0 <= b < NMBLKS && Holds(c, w, b)
    ensures Coherent(Hit(c, w, write)) && Fetched(c, Hit(c, w, write), w, b, write)
  {
  }

  lemma ReadMissFetched(c: Cache, b: int, into2: bool)
    requires Coherent(c) && 0 <= b < NMBLKS && !Buffered(c, b)
    ensures Coherent(ReadMiss(c, b, into2)) && Fetched(c, ReadMiss(c, b, into2), if into2 then In2 else In1, b, false)
  {
    hide Flat;
    ReadMissKeeps(c, b, into2);
  }

  lemma WriteMissFetched(c: Cache, b: int)
    requires Coherent(c) && 0 <= b < NMBLKS && !Buffered(c, b)
    ensures Coherent(WriteMiss(c, b)) && Fetched(c, WriteMiss(c, b), Out, b, true)
  {
    hide Flat;
    WriteMissKeeps(c, b);
  }

  /** A byte stored through a buffer that is the write buffer or marked changed. */
  ghost function Stored(c: Cache, w: Which, o: int, x: int): Cache
    requires Shaped(c) && 0 <= o < BUFSIZ
  {
    match w
    case In1 => c.(ibuff := c.ibuff[o := x])
    case In2 => c.(ibuff2 := c.ibuff2[o := x])
    case Out => c.(obuff := c.obuff[o := x])
  }

  ghost predicate Writable(c: Cache, w: Which, b: int) {
    match w
    case In1 => c.iblock == b && c.ichanged
    case In2 => c.iblock2 == b && c.ichang2
    case Out => c.oblock == b
  }

  ghost predicate Holds(c: Cache, w: Which, b: int) {
    match w case In1 => c.iblock == b case In2 => c.iblock2 == b case Out => c.oblock == b
  }

  ghost function BufferOf(c: Cache, w: Which): seq<int> {
    match w case In1 => c.ibuff case In2 => c.ibuff2 case Out => c.obuff
  }

  lemma HeldIsFlat(c: Cache, w: Which, b: int)
    requires Coherent(c) && 0 <= b < NMBLKS && Holds(c, w, b)
    ensures BufferOf(c, w) == Flat(c, b)
  {
  }

  lemma StoredKeeps(c: Cache, w: Which, b: int, o: int, x: int)
    requires Coherent(c) && 0 <= b < NMBLKS && 0 <= o < BUFSIZ && Writable(c, w, b)
    ensures Coherent(Stored(c, w, o, x)) && SameBut(c, Stored(c, w, o, x), b)
    ensures Flat(Stored(c, w, o, x), b) == Flat(c, b)[o := x]
  {
    var d := Stored(c, w, o, x);
    forall k | 0 <= k < NMBLKS && k != b ensures Flat(d, k) == Flat(c, k) {
    }
  }

  // ---------------------------------------------------------------------
  // Addresses and frames
  // ---------------------------------------------------------------------

  lemma SameButBelow(c: Cache, d: Cache, b: int, a: int)
    requires 0 <= b < NMBLKS && SameBut(c, d, b) && a <= BUFSIZ * b
    ensures SameBelow(c, d, a)
  {
    forall x | 0 <= x < a && x < BUFSIZ * NMBLKS ensures Byte(d, x) == Byte(c, x) {
      assert x / BUFSIZ < b;
    }
  }

  lemma SameAllBelow(c: Cache, d: Cache, a: int)
    requires SameBut(c, d, -1)
    ensures SameBelow(c, d, a)
  {
  }

  lemma SameBelowTrans(c: Cache, d: Cache, e: Cache, a: int, a': int)
    requires SameBelow(c, d, a) && SameBelow(d, e, a') && a <= a'
    ensures SameBelow(c, e, a)
  {
  }

  /** A byte stored at the end: everything below keeps. */
  lemma StoreEnd(c: Cache, w: Which, b: int, o: int, x: int)
    requires Coherent(c) && 0 <= b < NMBLKS && 0 <= o < BUFSIZ && Writable(c, w, b)
    ensures Coherent(Stored(c, w, o, x)) && SameBelow(c, Stored(c, w, o, x), BUFSIZ * b + o)
    ensures 0 <= BUFSIZ * b + o < BUFSIZ * NMBLKS && Byte(Stored(c, w, o, x), BUFSIZ * b + o) == x
  {
    var d := Stored(c, w, o, x);
    StoredKeeps(c, w, b, o, x);
    ByteAt(d, b, o);
    forall y | 0 <= y < BUFSIZ * b + o ensures Byte(d, y) == Byte(c, y) {
      if y / BUFSIZ == b {
        assert y % BUFSIZ < o;
      }
    }
  }

  // ---------------------------------------------------------------------
  // Stored lines
  // ---------------------------------------------------------------------

  /** The first `n` bytes of `text` are at address `a`. */
  ghost predicate TextAt(c: Cache, a: int, text: seq<int>, n: int)
    requires Shaped(c) && 0 <= a && 0 <= n <= |text| && a + n <= BUFSIZ * NMBLKS
  {
    forall i :: 0 <= i < n ==> Byte(c, a + i) == text[i]
  }

  /** Line `tl` is stored below address `end`: its text and the byte 0. */
  ghost predicate LineAt(c: Cache, tl: nat, text: seq<int>, end: int)
    requires Shaped(c)
  {
    tl % 2 == 0 && Address(tl) + |text| < end && Address(tl) + |text| < BUFSIZ * NMBLKS &&
    (forall i :: 0 <= i < |text| ==> text[i] != 0) &&
    TextAt(c, Address(tl), text, |text|) && Byte(c, Address(tl) + |text|) == 0
  }

  /** All lines that have been stored, none overlapping another. */
  ghost predicate LinesAt(c: Cache, store: map<nat, seq<int>>, end: int)
    requires Shaped(c)
  {
    (forall tl :: tl in store ==> LineAt(c, tl, store[tl], end)) && Apart(store)
  }

  ghost predicate Apart(store: map<nat, seq<int>>) {
    forall tl, tl' :: tl in store && tl' in store && tl < tl' ==> Address(tl) + |store[tl]| < Address(tl')
  }

  lemma LineKept(c: Cache, d: Cache, tl: nat, text: seq<int>, end: int, end': int)
    requires SameBelow(c, d, end) && LineAt(c, tl, text, end) && end <= end'
    ensures LineAt(d, tl, text, end')
  {
  }

  lemma LinesKept(c: Cache, d: Cache, store: map<nat, seq<int>>, end: int)
    requires SameBelow(c, d, end) && LinesAt(c, store, end)
    ensures LinesAt(d, store, end)
  {
    forall tl | tl in store ensures LineAt(d, tl, store[tl], end) {
      LineKept(c, d, tl, store[tl], end, end);
    }
  }

  /** A new line at the end joins the others. */
  lemma LineAdded(c: Cache, d: Cache, store: map<nat, seq<int>>, tline: nat, text: seq<int>, tline': nat)
    requires SameBelow(c, d, Address(tline)) && LinesAt(c, store, Address(tline))
    requires LineAt(d, tline, text, Address(tline')) && tline < tline'
    ensures tline !in store && LinesAt(d, store[tline := text], Address(tline'))
  {
    var s := store[tline := text];
    forall tl | tl in store ensures tl < tline && Address(tl) + |store[tl]| < Address(tline) {
      assert LineAt(c, tl, store[tl], Address(tline));
    }
    forall tl | tl in s ensures LineAt(d, tl, s[tl], Address(tline')) {
      if tl != tline {
        LineKept(c, d, tl, store[tl], Address(tline), Address(tline'));
      }
    }
  }

  // ---------------------------------------------------------------------
  // The temporary file
  // ---------------------------------------------------------------------

  datatype Result = Ok | TooLarge

  datatype Op = Put(linebuf: seq<int>) | Get(tl: nat)

  datatype Outcome = At(tl: nat) | Full | Text(text: seq<int>)

  /** The answer to a command, seen from the lines that have been stored in the end. */
  ghost predicate Answered(store: map<nat, seq<int>>, op: Op, out: Outcome) {
    match op
    case Get(tl) => tl - tl % 2 in store && out == Text(store[tl - tl % 2])
    case Put(linebuf) => out == Full || (out.At? && out.tl in store && store[out.tl] == linebuf[..LineEnd(linebuf, 0)])
  }

  ghost predicate IsLinebuf(s: seq<int>) {
    |s| < LBSIZE && forall i :: 0 <= i < |s| ==> s[i] != 0
  }

  ghost predicate Kept(store: map<nat, seq<int>>, store': map<nat, seq<int>>) {
    forall tl :: tl in store ==> tl in store' && store'[tl] == store[tl]
  }

  // ---------------------------------------------------------------------
  // What the next line put does to the lines before it
  // ---------------------------------------------------------------------

  /** The next line put finds all of the block it begins in: it starts a block, or the
      block is in a buffer. */
  ghost predicate Safe(c: Cache, tline: nat) {
    OffsetOf(tline) == 0 || Buffered(c, BlockOf(tline))
  }

  /** The byte at address `a`, below `tline`, once a line is put: the block it begins in, if it
      has to be taken without being read, shows what was in the write buffer. */
  ghost function Under(c: Cache, tline: nat, a: int): int
    requires Shaped(c) && 0 <= a < BUFSIZ * NMBLKS
  {
    if Safe(c, tline) || a < BUFSIZ * BlockOf(tline) then Byte(c, a) else c.obuff[a % BUFSIZ]
  }

  ghost predicate Begun(c: Cache, d: Cache, tline: nat) {
    Shaped(c) && Shaped(d) && forall a :: 0 <= a < Address(tline) && a < BUFSIZ * NMBLKS ==> Byte(d, a) == Under(c, tline, a)
  }

  /** The part of the line, with the 0 at its end, that is in the block of `tline` is the same
      in the write buffer as in the file. */
  ghost predicate AlsoInBuffer(c: Cache, tline: nat, line: nat, text: seq<int>)
    requires Shaped(c)
  {
    forall o :: 0 <= o < BUFSIZ && BlockOf(tline) < NMBLKS && Address(line) <= BUFSIZ * BlockOf(tline) + o <= Address(line) + |text| ==>
      c.obuff[o] == c.disk[BlockOf(tline)][o]
  }

  /** No stored line will be lost by the next put. */
  ghost predicate KeepsLines(c: Cache, store: map<nat, seq<int>>, tline: nat)
    requires Shaped(c)
  {
    Safe(c, tline) || forall line :: line in store ==> AlsoInBuffer(c, tline, line, store[line])
  }

  /** The block is found, or taken as it is. */
  lemma FirstBytes(c: Cache, d: Cache, w: Which, tl: nat)
    requires Coherent(c) && Coherent(d) && tl <= 128 * NMBLKS && tl % 2 == 0 && BlockOf(tl) < NMBLKS
    requires Fetched(c, d, w, BlockOf(tl), true) && d.obuff == c.obuff
    ensures Begun(c, d, tl)
  {
    FrontierParts(tl);
    var b := BlockOf(tl);
    forall a | 0 <= a < Address(tl) ensures Byte(d, a) == Under(c, tl, a) {
      assert a / BUFSIZ <= b;
      if a / BUFSIZ == b && !Buffered(c, b) {
        assert w == Out;
      }
    }
  }

  lemma NothingBegun(c: Cache, tl: nat)
    requires Coherent(c) && tl <= 128 * NMBLKS && tl % 2 == 0 && BlockOf(tl) >= NMBLKS
    ensures Begun(c, c, tl) && Address(tl) == BUFSIZ * NMBLKS
  {
    FrontierParts(tl);
  }

  lemma BegunBelow(c: Cache, d: Cache, e: Cache, tl: nat)
    requires Begun(c, d, tl) && SameBelow(d, e, Address(tl))
    ensures Begun(c, e, tl)
  {
    hide Byte, Under;
  }

  lemma ByteKept(c: Cache, d: Cache, tl: nat, a: nat)
    requires Coherent(c) && Begun(c, d, tl) && tl <= 128 * NMBLKS && tl % 2 == 0 && a < Address(tl)
    ensures a < BUFSIZ * NMBLKS && (!Safe(c, tl) && BUFSIZ * BlockOf(tl) <= a ==> BlockOf(tl) < NMBLKS && a - BUFSIZ * BlockOf(tl) < BUFSIZ)
    ensures Byte(d, a) == Byte(c, a) <==> (Safe(c, tl) || a < BUFSIZ * BlockOf(tl) ||
      c.obuff[a - BUFSIZ * BlockOf(tl)] == c.disk[BlockOf(tl)][a - BUFSIZ * BlockOf(tl)])
  {
    FrontierParts(tl);
    if BUFSIZ * BlockOf(tl) <= a {
      assert a / BUFSIZ == BlockOf(tl) && a % BUFSIZ == a - BUFSIZ * BlockOf(tl);
    }
  }

  lemma ByteOfLine(c: Cache, line: nat, text: seq<int>, end: int, a: int)
    requires Shaped(c) && LineAt(c, line, text, end) && Address(line) <= a <= Address(line) + |text|
    ensures 0 <= a < end && a < BUFSIZ * NMBLKS && Byte(c, a) == if a < Address(line) + |text| then text[a - Address(line)] else 0
  {
    hide Byte;
    if a < Address(line) + |text| {
      var i := a - Address(line);
      assert Byte(c, Address(line) + i) == text[i];
    }
  }

  lemma SameLine(c: Cache, d: Cache, line: nat, text: seq<int>, end: int)
    requires Shaped(c) && Shaped(d) && LineAt(c, line, text, end)
    requires forall a: int :: Address(line) <= a <= Address(line) + |text| ==> Byte(d, a) == Byte(c, a)
    ensures LineAt(d, line, text, end)
  {
    hide Byte;
    forall i | 0 <= i < |text| ensures Byte(d, Address(line) + i) == text[i] {
      ByteOfLine(c, line, text, end, Address(line) + i);
    }
  }

  /** A line is kept exactly when what was in the write buffer does it no harm. */
  lemma LineKeptExactly(c: Cache, d: Cache, tl: nat, line: nat, text: seq<int>)
    requires Coherent(c) && Begun(c, d, tl) && LineAt(c, line, text, Address(tl)) && tl <= 128 * NMBLKS && tl % 2 == 0
    ensures LineAt(d, line, text, Address(tl)) <==> Safe(c, tl) || AlsoInBuffer(c, tl, line, text)
  {
    hide Byte, Under, Flat, Safe, BlockOf, OffsetOf, Address, TextAt;
    var b := BlockOf(tl);
    if Safe(c, tl) || AlsoInBuffer(c, tl, line, text) {
      forall a: int | Address(line) <= a <= Address(line) + |text| ensures Byte(d, a) == Byte(c, a) {
        ByteKept(c, d, tl, a);
      }
      SameLine(c, d, line, text, Address(tl));
    }
    if LineAt(d, line, text, Address(tl)) && !Safe(c, tl) {
      forall o | 0 <= o < BUFSIZ && b < NMBLKS && Address(line) <= BUFSIZ * b + o <= Address(line) + |text|
        ensures c.obuff[o] == c.disk[b][o]
      {
        ByteOfLine(c, line, text, Address(tl), BUFSIZ * b + o);
        ByteOfLine(d, line, text, Address(tl), BUFSIZ * b + o);
        ByteKept(c, d, tl, BUFSIZ * b + o);
      }
    }
  }

  /** The put keeps every stored line exactly when it was going to. */
  lemma KeptExactly(c: Cache, d: Cache, store: map<nat, seq<int>>, tl: nat)
    requires Coherent(c) && Begun(c, d, tl) && LinesAt(c, store, Address(tl)) && tl <= 128 * NMBLKS && tl % 2 == 0
    ensures LinesAt(d, store, Address(tl)) <==> KeepsLines(c, store, tl)
  {
    hide Byte, Under, LineAt, Safe, AlsoInBuffer, Address;
    forall line | line in store
      ensures LineAt(d, line, store[line], Address(tl)) <==> Safe(c, tl) || AlsoInBuffer(c, tl, line, store[line])
    {
      LineKeptExactly(c, d, tl, line, store[line]);
    }
  }

  /** So does one that stores a line. */
  lemma PutExactly(c: Cache, d: Cache, store: map<nat, seq<int>>, tl: nat, text: seq<int>, tline: nat)
    requires Coherent(c) && Begun(c, d, tl) && LinesAt(c, store, Address(tl)) && tl <= 128 * NMBLKS && tl % 2 == 0
    requires LineAt(d, tl, text, Address(tline)) && tl < tline
    ensures tl !in store && (LinesAt(d, store[tl := text], Address(tline)) <==> KeepsLines(c, store, tl))
  {
    hide Under, KeepsLines, Byte, TextAt, Flat;
    FreshPointer(c, store, tl);
    KeptExactly(c, d, store, tl);
    var s := store[tl := text];
    if LinesAt(d, store, Address(tl)) {
      LineAdded(d, d, store, tl, text, tline);
    }
    if LinesAt(d, s, Address(tline)) {
      forall line | line in store ensures LineAt(d, line, store[line], Address(tl)) {
        assert LineAt(c, line, store[line], Address(tl));
        assert s[line] == store[line];
      }
    }
  }

  class TempFile {
    const ibuff: array<int>
    const ibuff2: array<int>
    const obuff: array<int>
    const disk: array<seq<int>>
    var iblock: int
    var iblock2: int
    var oblock: int
    var ichanged: bool
    var ichang2: bool
    var hitin2: bool
    var nleft: int
    var tline: nat

    /** Every line that putline has stored in this session. */
    ghost var store: map<nat, seq<int>>

    ghost predicate Arrays() {
      ibuff.Length == ibuff2.Length == obuff.Length == BUFSIZ && disk.Length == NMBLKS &&
      ibuff != ibuff2 && ibuff != obuff && ibuff2 != obuff
    }

    ghost function View(): Cache
      reads this, ibuff, ibuff2, obuff, disk
    {
      Cache(iblock, iblock2, oblock, ichanged, ichang2, ibuff[..], ibuff2[..], obuff[..], disk[..])
    }

    ghost predicate CacheOK()
      reads this, ibuff, ibuff2, obuff, disk
    {
      Arrays() && Coherent(View()) && tline % 2 == 0 && tline <= 128 * NMBLKS
    }

    /** The cache is coherent and holds every line stored so far, below `tline`. */
    ghost predicate Valid()
      reads this, ibuff, ibuff2, obuff, disk
    {
      CacheOK() && LinesAt(View(), store, Address(tline))
    }

    /** As long as the file is not full: the read buffers are on earlier blocks, and a block to
        be continued is in the write buffer, from where no reading can drive it. */
    ghost predicate Ready()
      reads this
    {
      iblock < BlockOf(tline) && iblock2 < BlockOf(tline) && (OffsetOf(tline) != 0 ==> oblock == BlockOf(tline))
    }

    /** fileinit */
    constructor ()
      ensures Valid() && Ready() && store == map[] && tline == INCRMT * (HBLKS + 2)
      ensures fresh(ibuff) && fresh(ibuff2) && fresh(obuff) && fresh(disk)
    {
      ibuff := new int[BUFSIZ](_ => 0);
      ibuff2 := new int[BUFSIZ](_ => 0);
      obuff := new int[BUFSIZ](_ => 0);
      disk := new seq<int>[NMBLKS](_ => seq(BUFSIZ, _ => 0));
      iblock, iblock2, oblock, ichanged, ichang2, hitin2, nleft := -1, -1, -1, false, false, false, 0;
      tline := INCRMT * (HBLKS + 2);
      store := map[];
    }

    /** blkio for writing: block `b` of the file from a buffer. */
    method WriteBlock(b: nat, buf: array<int>)
      requires b < disk.Length
      modifies disk
      ensures disk[..] == old(disk[..])[b := buf[..]]
    {
      disk[b] := buf[..];
    }

    /** blkio for reading. */
    method ReadBlock(b: nat, buf: array<int>)
      requires b < disk.Length && |disk[b]| == buf.Length
      modifies buf
      ensures buf[..] == disk[b]
    {
      for i := 0 to buf.Length
        invariant buf[..i] == disk[b][..i]
      {
        buf[i] := disk[b][i];
      }
    }

    /** getblock: find block and offset of a line pointer, bring the block into a buffer,
        and say which buffer that is. */
    method GetBlock(atl: nat, write: bool) returns (r: Result, w: Which, off: nat)
      requires CacheOK() && atl < 128 * 32768
      modifies this`iblock, this`iblock2, this`oblock, this`ichanged, this`ichang2, this`hitin2, this`nleft, ibuff, ibuff2, disk
      ensures CacheOK() && off == OffsetOf(atl) < BUFSIZ
      ensures r == if BlockOf(atl) >= NMBLKS then TooLarge else Ok
      ensures r == TooLarge ==> View() == old(View())
      ensures r == Ok ==> nleft == BUFSIZ - off && Fetched(old(View()), View(), w, BlockOf(atl), write)
    {
      hide Coherent, SameBut, Fetched;
      ghost var c := View();
      var bno := BlockOf(atl);
      off := OffsetOf(atl);
      w := Out;
      if bno >= NMBLKS {
        return TooLarge, w, off;
      }
      nleft := BUFSIZ - off;
      r := Ok;
      if bno == iblock {
        HitFetched(c, In1, bno, write);
        ichanged := ichanged || write;
        hitin2 := false;
        w := In1;
      } else if bno == iblock2 {
        HitFetched(c, In2, bno, write);
        ichang2 := ichang2 || write;
        hitin2 := true;
        w := In2;
      } else if bno == oblock {
        HitFetched(c, Out, bno, write);
      } else if !write {
        w := ReadInto(bno);
      } else {
        WriteInto(bno);
      }
    }

    /** The miss for writing: take the write buffer without reading the block. */
    method WriteInto(bno: nat)
      requires CacheOK() && bno < NMBLKS && !Buffered(View(), bno)
      modifies this`oblock, disk
      ensures CacheOK() && Fetched(old(View()), View(), Out, bno, true)
    {
      hide Fetched;
      WriteMissFetched(View(), bno);
      if oblock >= 0 {
        WriteBlock(oblock, obuff);
      }
      oblock := bno;
      assert View() == WriteMiss(old(View()), bno);
    }

    /** The miss for reading: take the read buffer that was not hit last. */
    method ReadInto(bno: nat) returns (w: Which)
      requires CacheOK() && bno < NMBLKS && !Buffered(View(), bno)
      modifies this`iblock, this`iblock2, this`ichanged, this`ichang2, this`hitin2, ibuff, ibuff2, disk
      ensures CacheOK() && Fetched(old(View()), View(), w, bno, false)
    {
      hide Fetched;
      ghost var c := View();
      ReadMissFetched(c, bno, !hitin2);
      if !hitin2 {
        if ichang2 {
          WriteBlock(iblock2, ibuff2);
        }
        ichang2 := false;
        iblock2 := bno;
        ReadBlock(bno, ibuff2);
        hitin2 := true;
        assert View() == ReadMiss(c, bno, true);
        return In2;
      }
      hitin2 := false;
      if ichanged {
        WriteBlock(iblock, ibuff);
      }
      ichanged := false;
      iblock := bno;
      ReadBlock(bno, ibuff);
      assert View() == ReadMiss(c, bno, false);
      return In1;
    }

    /** A byte read through a buffer. */
    method Peek(w: Which, o: nat) returns (x: int)
      requires CacheOK() && o < BUFSIZ
      ensures x == BufferOf(View(), w)[o]
    {
      match w
      case In1 => x := ibuff[o];
      case In2 => x := ibuff2[o];
      case Out => x := obuff[o];
    }

    /** A byte stored through a buffer. */
    method Poke(w: Which, o: nat, x: int, ghost b: nat)
      requires CacheOK() && o < BUFSIZ && b < NMBLKS && Writable(View(), w, b)
      modifies ibuff, ibuff2, obuff
      ensures CacheOK() && View() == Stored(old(View()), w, o, x)
    {
      StoredKeeps(View(), w, b, o, x);
      match w
      case In1 => ibuff[o] := x;
      case In2 => ibuff2[o] := x;
      case Out => obuff[o] := x;
    }

    /** getblock for byte `k` of a stored line. */
    method FetchForRead(atl: nat, ghost line: nat, ghost k: nat) returns (w: Which, bp: nat, nl: int)
      requires Valid() && line in store && k <= |store[line]| && atl < 128 * NMBLKS
      requires BUFSIZ * BlockOf(atl) + OffsetOf(atl) == Address(line) + k
      modifies this`iblock, this`iblock2, this`oblock, this`ichanged, this`ichang2, this`hitin2, this`nleft, ibuff, ibuff2, disk
      ensures Valid() && Holds(View(), w, BlockOf(atl)) && bp == OffsetOf(atl) < BUFSIZ && nl == BUFSIZ - bp
      ensures old(Ready()) ==> Ready()
    {
      hide LinesAt, Byte, Flat, Coherent;
      ghost var c0 := View();
      LineStart(c0, store, line, tline);
      InFrontier(line, |store[line]|, k, atl, tline);
      var r;
      r, w, bp := GetBlock(atl, false);
      nl := nleft;
      ReadFrame(c0, View(), store, Address(tline));
    }

    /** ex_getline: the text that `tl` points at, mark or no mark. */
    method GetLine(tl: nat) returns (linebuf: seq<int>)
      requires Valid() && tl - tl % 2 in store
      modifies this`iblock, this`iblock2, this`oblock, this`ichanged, this`ichang2, this`hitin2, this`nleft, ibuff, ibuff2, disk
      ensures Valid() && linebuf == store[tl - tl % 2]
      ensures old(Ready()) ==> Ready()
    {
      hide LinesAt, LineAt, Byte, Flat, Coherent, BlockOf, OffsetOf, Address, Holds, BufferOf;
      ghost var line: nat := tl - tl % 2;
      ghost var text := store[line];
      LineStart(View(), store, line, tline);
      PointerStart(tl, line);
      var w, bp, nl := FetchForRead(tl, line, 0);
      var tlw: nat := tl - tl % INCRMT;
      linebuf := [];
      while true
        invariant Valid() && tlw % INCRMT == 0 && Reading(View(), w, tlw, bp, nl, line, text, linebuf)
        invariant old(Ready()) ==> Ready()
        decreases |text| - |linebuf|
      {
        var c := Peek(w, bp);
        NextByte(View(), w, tlw, bp, nl, line, store, linebuf, tline);
        if c == 0 {
          assert linebuf == text;
          break;
        }
        linebuf := linebuf + [c];
        bp := bp + 1;
        nl := nl - 1;
        if nl == 0 {
          NextBlock(View(), tlw, store, line, |linebuf|, tline);
          tlw := tlw + INCRMT;
          w, bp, nl := FetchForRead(tlw, line, |linebuf|);
        }
      }
    }

    /** getblock for the block that the line begins in. */
    method StartLine(ghost good: bool, ghost linebuf: seq<int>) returns (r: Result, w: Which, bp: nat, nl: int)
      requires CacheOK() && (good ==> Ready())
      modifies this`iblock, this`iblock2, this`oblock, this`ichanged, this`ichang2, this`hitin2, this`nleft, ibuff, ibuff2, disk
      ensures CacheOK() && Begun(old(View()), View(), tline)
      ensures r == TooLarge <==> BlockOf(tline) >= NMBLKS
      ensures r == TooLarge ==> Address(tline) == BUFSIZ * NMBLKS && TextAt(View(), Address(tline), linebuf, 0)
      ensures r == Ok ==> Writing(View(), View(), good, w, tline, tline - tline % INCRMT, bp, nl, linebuf, 0)
    {
      hide Byte, Flat, TextAt, Fetched, Coherent, Begun, BlockOf, OffsetOf, Address;
      ghost var c0 := View();
      FrontierParts(tline);
      r, w, bp := GetBlock(tline, true);
      nl := nleft;
      if r == TooLarge {
        NothingBegun(c0, tline);
        NoText(c0, tline, linebuf);
      } else {
        FirstBytes(c0, View(), w, tline);
        FirstFetch(c0, View(), w, tline, tline - tline % INCRMT, good, linebuf);
      }
    }

    /** getblock for the next block of the line. */
    method ContinueLine(ghost c1: Cache, ghost good: bool, ghost tl: nat, tlw: nat, ghost linebuf: seq<int>, ghost k: nat)
      returns (r: Result, w: Which, bp: nat, nl: int)
      requires CacheOK() && Coherent(c1) && k <= |linebuf| && BlockFull(c1, View(), good, tl, tlw, linebuf, k)
      modifies this`iblock, this`iblock2, this`oblock, this`ichanged, this`ichang2, this`hitin2, this`nleft, ibuff, ibuff2, disk
      ensures CacheOK()
      ensures r == Ok ==> Writing(c1, View(), good, w, tl, tlw + INCRMT, bp, nl, linebuf, k)
      ensures r == TooLarge ==> Address(tl) + k == BUFSIZ * NMBLKS && TextAt(View(), Address(tl), linebuf, k) && SameBelow(c1, View(), Address(tl))
      ensures r == TooLarge && good ==> iblock < BlockOf(tl) && iblock2 < BlockOf(tl) && oblock == NMBLKS - 1
    {
      hide Byte, Flat, TextAt, Fetched, Coherent, SameBelow, Writing, Address, BlockOf, OffsetOf;
      ghost var c2 := View();
      NextPointer(tlw);
      r, w, bp := GetBlock(tlw + INCRMT, true);
      nl := nleft;
      if r == TooLarge {
        FullInLine(c1, c2, good, tl, tlw, linebuf, k);
      } else {
        NextFetch(c1, c2, View(), good, w, tl, tlw, linebuf, k);
      }
    }

    /** putline: store a line at `tline`, up to its end or its first newline, and move
        `tline` past it; when the file is full the call fails without storing a line.

        `tline` never comes back, so no pointer is given out twice.  Below it nothing
        changes, but in a block that has to be taken without being read; so every line
        stored so far is kept exactly when `KeepsLines` says so. */
    method PutLine(linebuf: seq<int>) returns (r: Result, tl: nat, rest: int)
      requires CacheOK() && IsLinebuf(linebuf)
      modifies this, ibuff, ibuff2, obuff, disk
      ensures CacheOK() && tl == old(tline)
      ensures r == TooLarge <==> Address(tl) + LineEnd(linebuf, 0) >= BUFSIZ * NMBLKS
      ensures r == Ok ==> rest == (if LineEnd(linebuf, 0) < |linebuf| then LineEnd(linebuf, 0) + 1 else -1)
      ensures r == Ok ==> Address(tline) == Address(tl) + (LineEnd(linebuf, 0) + 8) / 8 * 8
      ensures r == Ok ==> store == old(store)[tl := linebuf[..LineEnd(linebuf, 0)]] && LineAt(View(), tl, store[tl], Address(tline))
      ensures r == TooLarge ==> tline == tl && store == old(store)
      ensures r == TooLarge ==> Address(tl) <= BUFSIZ * NMBLKS <= Address(tl) + |linebuf| && TextAt(View(), Address(tl), linebuf, BUFSIZ * NMBLKS - Address(tl))
      ensures Begun(old(View()), View(), tl)
      ensures old(Valid()) ==> tl !in old(store) && (Valid() <==> old(KeepsLines(View(), store, tline)))
      ensures old(Ready()) && r == Ok ==> Ready()
      ensures old(Ready()) && r == TooLarge && BlockOf(tl) < NMBLKS ==> (
        iblock < BlockOf(tl) && iblock2 < BlockOf(tl) && oblock == NMBLKS - 1)
    {
      hide LinesAt, LineAt, Byte, Flat, BlockOf, OffsetOf, Address, Writable, TextAt, SameBelow, SameBut, Fetched, LineEnd, Coherent, AtEnd, BlockFull, Begun, KeepsLines;
      ghost var good, c0, n, valid := Ready(), View(), LineEnd(linebuf, 0), Valid();
      tl, rest := tline, -1;
      var w, bp, nl;
      r, w, bp, nl := StartLine(good, linebuf);
      if r == TooLarge {
        PutFailed(c0, View(), store, tl, valid);
        return;
      }
      var tlw: nat := tl - tl % INCRMT;
      ghost var c1 := View();
      var k := 0;
      var lp;
      while true
        invariant CacheOK() && tline == tl && store == old(store) && k <= n && n == LineEnd(linebuf, k) && rest == -1 && r == Ok
        invariant Writing(c1, View(), good, w, tl, tlw, bp, nl, linebuf, k)
        decreases |linebuf| - k
      {
        var x := if k < |linebuf| then linebuf[k] else 0;
        var more := PutByte(c1, good, w, tl, tlw, bp, nl, linebuf, k, x);
        EndHere(linebuf, k);
        if !more {
          assert n == k;
          lp := k + 1;
          rest := if x == 10 then lp else -1;
          break;
        }
        bp := bp + 1;
        k := k + 1;
        nl := nl - 1;
        if nl == 0 {
          r, w, bp, nl := ContinueLine(c1, good, tl, tlw, linebuf, k);
          if r == TooLarge {
            BegunBelow(c0, c1, View(), tl);
            PutFailed(c0, View(), store, tl, valid);
            return;
          }
          tlw := tlw + INCRMT;
        }
      }
      tline := tline + ((lp + BNDRY - 1) / 4 % 32768) / 2 * 2;
      store := store[tl := linebuf[..n]];
      LinePut(c1, View(), good, w, tl, tlw, bp, nl, linebuf, k, tline);
      BegunBelow(c0, c1, View(), tl);
      if valid {
        PutExactly(c0, View(), old(store), tl, linebuf[..n], tline);
      }
    }

    /** One command; a line is put only if its first block is found. */
    method Do(op: Op) returns (more: bool, out: Outcome)
      requires Valid() && (op.Put? ==> IsLinebuf(op.linebuf)) && (op.Get? ==> op.tl - op.tl % 2 in store)
      modifies this, ibuff, ibuff2, obuff, disk
      ensures Valid() && Kept(old(store), store) && (more ==> Answered(store, op, out))
      ensures !more ==> op.Put? && !Safe(View(), tline) && store == old(store)
      ensures old(Ready()) ==> more && (out == Full || Ready())
    {
      hide LinesAt, LineAt, Begun, LineEnd, BlockOf, OffsetOf, Address, AlsoInBuffer, TextAt;
      match op
      case Get(tl) =>
        var text := GetLine(tl);
        return true, Text(text);
      case Put(linebuf) =>
        var b := BlockOf(tline);
        if OffsetOf(tline) != 0 && b != iblock && b != iblock2 && b != oblock {
          return false, Full;
        }
        assert KeepsLines(View(), store, tline);
        var r, tl, rest := PutLine(linebuf);
        return true, if r == Ok then At(tl) else Full;
    }

    /** Any run of puts and gets.  It goes on when the file is full, until a line would have
        to begin inside a block that is in no buffer.  Every line that was stored before is
        still there, and all lines are read back as the text that was put. */
    method Run(ops: seq<Op>) returns (outs: seq<Outcome>)
      requires Valid() && Ready()
      requires forall i :: 0 <= i < |ops| && ops[i].Put? ==> IsLinebuf(ops[i].linebuf)
      requires forall i :: 0 <= i < |ops| && ops[i].Get? ==> ops[i].tl - ops[i].tl % 2 in store
      modifies this, ibuff, ibuff2, obuff, disk
      ensures Valid() && Kept(old(store), store) && |outs| <= |ops|
      ensures forall i :: 0 <= i < |outs| ==> Answered(store, ops[i], outs[i])
      ensures |outs| < |ops| ==> ops[|outs|].Put? && !Safe(View(), tline)
      ensures Full !in outs ==> |outs| == |ops| && Ready()
    {
      hide LinesAt, LineAt, Safe, BlockOf, OffsetOf, Coherent, LineEnd;
      outs := [];
      for i := 0 to |ops|
        invariant Valid() && Kept(old(store), store) && |outs| == i && (Full !in outs ==> Ready())
        invariant forall j :: 0 <= j < i ==> Answered(store, ops[j], outs[j])
      {
        var more, out := Do(ops[i]);
        if !more {
          return;
        }
        outs := outs + [out];
      }
    }

    /** The body of the loop of putline, up to the end of the block: write one byte, the
        byte 0 in place of a newline, and say whether the line goes on. */
    method PutByte(ghost c0: Cache, ghost good: bool, w: Which, ghost tl: nat, ghost tlw: nat, bp: nat, ghost nl: int,
                   ghost linebuf: seq<int>, ghost k: nat, x: int)
      returns (more: bool)
      requires CacheOK() && Coherent(c0) && k <= |linebuf| && x == (if k < |linebuf| then linebuf[k] else 0)
      requires Writing(c0, View(), good, w, tl, tlw, bp, nl, linebuf, k)
      modifies ibuff, ibuff2, obuff
      ensures CacheOK() && more == (x != 0 && x != 10)
      ensures more && bp + 1 < BUFSIZ ==> k < |linebuf| && Writing(c0, View(), good, w, tl, tlw, bp + 1, nl - 1, linebuf, k + 1)
      ensures more && bp + 1 == BUFSIZ ==> k < |linebuf| && BlockFull(c0, View(), good, tl, tlw, linebuf, k + 1)
      ensures !more ==> Written(c0, View(), good, w, tl, tlw, bp, nl, linebuf, k, 0)
    {
      hide Byte, Flat, Writable, TextAt, SameBelow, SameBut;
      WriteByte(c0, View(), good, w, tl, tlw, bp, nl, linebuf, k, x);
      Poke(w, bp, x, BlockOf(tlw));
      if x == 0 {
        return false;
      }
      if x == 10 {
        WriteByte(c0, View(), good, w, tl, tlw, bp, nl, linebuf, k, 0);
        Poke(w, bp, 0, BlockOf(tlw));
        return false;
      }
      ByteWritten(c0, View(), good, w, tl, tlw, bp, nl, linebuf, k);
      return true;
    }
  }

  /** A run that loses a line.  Two blocks at a time are filled until block 504 begins; a
      short line is put there, and a long one that no longer fits leaves block 505 in the
      write buffer.  The next short line takes block 504 without reading it. */
  method LinesLostAfterFull() returns (t: TempFile, line: nat)
    ensures fresh(t) && t.CacheOK() && line in t.store && t.store[line] == [97]
    ensures Address(line) == 258048 && Byte(t.View(), 258048) == 120 && !LineAt(t.View(), line, [97], Address(t.tline))
  {
    hide LinesAt, LineAt, TextAt, Begun, BlockOf, OffsetOf, Coherent, KeepsLines, LineEnd, Address;
    t := new TempFile();
    var long := seq(1023, _ => 120);
    NoNewline(long, 0);
    NoNewline([97], 0);
    NoNewline([98], 0);
    Positions(t.tline);
    for i := 0 to 250
      invariant t.Valid() && t.Ready() && Address(t.tline) == 2048 + 1024 * i
    {
      SafeWhenReady(t.View(), t.store, t.tline);
      var r, tl, rest := t.PutLine(long);
    }
    Positions(t.tline);
    SafeWhenReady(t.View(), t.store, t.tline);
    var r, rest;
    r, line, rest := t.PutLine([97]);
    Positions(t.tline);
    SafeWhenReady(t.View(), t.store, t.tline);
    var tl;
    r, tl, rest := t.PutLine(long);
    ghost var c := t.View();
    r, tl, rest := t.PutLine([98]);
    Positions(line);
    LineLost(c, t.View(), line, tl, long, Address(t.tline));
  }

  lemma SafeWhenReady(c: Cache, store: map<nat, seq<int>>, tline: nat)
    requires Coherent(c) && (OffsetOf(tline) != 0 ==> c.oblock == BlockOf(tline))
    ensures KeepsLines(c, store, tline)
  {
  }

  lemma Positions(tl: nat)
    requires tl % 2 == 0
    ensures Address(tl) == 4 * tl
    ensures tl == 64512 ==> BlockOf(tl) == 504 && OffsetOf(tl) == 0
    ensures tl == 64514 ==> BlockOf(tl) == 504 && OffsetOf(tl) == 8
  {
  }

  lemma {:induction false} NoNewline(s: seq<int>, i: nat)
    requires i <= |s| && forall k :: 0 <= k < |s| ==> s[k] != 10
    ensures LineEnd(s, i) == |s|
    decreases |s| - i
  {
    if i < |s| {
      NoNewline(s, i + 1);
    }
  }

  lemma LineLost(c: Cache, d: Cache, line: nat, tl: nat, long: seq<int>, end: int)
    requires Coherent(c) && Begun(c, d, tl) && line == 64512 && tl == 64514 && c.iblock < 504 && c.iblock2 < 504 && c.oblock == 505
    requires |long| == 1023 && long[504] == 120 && Address(tl) == 258056 && TextAt(c, 258056, long, 1016)
    ensures Byte(d, 258048) == 120 && !LineAt(d, line, [97], end)
  {
    Positions(line);
    Positions(tl);
    ByteAt(c, 505, 0);
    assert Byte(c, 258056 + 504) == long[504];
    ByteAt(d, 504, 0);
    assert Under(c, tl, 258048) == c.obuff[0];
    if LineAt(d, line, [97], end) {
      ByteOfLine(d, line, [97], end, Address(line));
    }
  }

  /** Where the text of a C string ends: at its end or its first newline. */
  ghost function LineEnd(s: seq<int>, i: nat): (n: nat)
    requires i <= |s|
    ensures i <= n <= |s| && (n < |s| ==> s[n] == 10) && forall k :: i <= k < n ==> s[k] != 10
    decreases |s| - i
  {
    if i == |s| || s[i] == 10 then i else LineEnd(s, i + 1)
  }

  /** putline in the middle of a line: `k` bytes have been written, the next one goes to
      `bp` of buffer `w`.  Nothing below the line has changed since its first block was
      found, and if all was well at the beginning the block is in the write buffer. */
  ghost predicate Writing(c0: Cache, c: Cache, good: bool, w: Which, tl: nat, tlw: nat, bp: int, nl: int, linebuf: seq<int>, k: nat)
    requires Coherent(c0) && Coherent(c) && k <= |linebuf|
  {
    tlw % INCRMT == 0 && tlw < 128 * NMBLKS && Writable(c, w, BlockOf(tlw)) && 0 <= bp < BUFSIZ && nl == BUFSIZ - bp &&
    BUFSIZ * BlockOf(tlw) + bp == Address(tl) + k && Address(tl) + k <= BUFSIZ * NMBLKS && TextAt(c, Address(tl), linebuf, k) &&
    SameBelow(c0, c, Address(tl)) && (good ==> AtEnd(c0, c, w, tl, tlw))
  }

  ghost predicate AtEnd(c0: Cache, c: Cache, w: Which, tl: nat, tlw: nat) {
    w == Out && BlockOf(tl) <= BlockOf(tlw) && c.iblock == c0.iblock < BlockOf(tl) && c.iblock2 == c0.iblock2 < BlockOf(tl)
  }

  /** The block of `tlw` has been filled, with `k` bytes of the line. */
  ghost predicate BlockFull(c0: Cache, c: Cache, good: bool, tl: nat, tlw: nat, linebuf: seq<int>, k: nat)
    requires Coherent(c0) && Coherent(c) && k <= |linebuf|
  {
    tlw % INCRMT == 0 && tlw < 128 * NMBLKS && BUFSIZ * BlockOf(tlw) + BUFSIZ == Address(tl) + k && Address(tl) + k <= BUFSIZ * NMBLKS &&
    TextAt(c, Address(tl), linebuf, k) &&
    SameBelow(c0, c, Address(tl)) && (good ==> AtEnd(c0, c, Out, tl, tlw) && c.oblock == BlockOf(tlw))
  }

  /** Byte `x` has been written after the first `k`. */
  ghost predicate Written(c0: Cache, c: Cache, good: bool, w: Which, tl: nat, tlw: nat, bp: int, nl: int, linebuf: seq<int>, k: nat, x: int)
    requires Coherent(c0) && Coherent(c) && k <= |linebuf|
  {
    Writing(c0, c, good, w, tl, tlw, bp, nl, linebuf, k) && Address(tl) + k < BUFSIZ * NMBLKS && Byte(c, Address(tl) + k) == x
  }

  lemma FrontierParts(tl: nat)
    requires tl <= 128 * NMBLKS && tl % 2 == 0
    ensures Address(tl) == BUFSIZ * BlockOf(tl) + OffsetOf(tl) && OffsetOf(tl) < BUFSIZ && OffsetOf(tl) % 8 == 0
    ensures tl - tl % INCRMT < 128 * NMBLKS || BlockOf(tl) >= NMBLKS
    ensures BlockOf(tl - tl % INCRMT) == BlockOf(tl)
  {
    var q, e := tl / 128, tl % 128;
    assert tl == 128 * q + e && q <= NMBLKS;
    assert BlockOf(tl) == q && OffsetOf(tl) == 4 * e;
    assert tl - tl % INCRMT == 128 * q;
    assert (128 * q) / 128 == q;
  }

  lemma FreshPointer(c: Cache, store: map<nat, seq<int>>, tline: nat)
    requires Shaped(c) && LinesAt(c, store, Address(tline))
    ensures tline !in store
  {
    forall tl | tl in store ensures tl < tline {
      assert LineAt(c, tl, store[tl], Address(tline));
    }
  }

  lemma PutFailed(c: Cache, d: Cache, store: map<nat, seq<int>>, tl: nat, valid: bool)
    requires Coherent(c) && Begun(c, d, tl) && tl <= 128 * NMBLKS && tl % 2 == 0 && (valid ==> LinesAt(c, store, Address(tl)))
    ensures valid ==> tl !in store && (LinesAt(d, store, Address(tl)) <==> KeepsLines(c, store, tl))
  {
    hide LinesAt, Begun, KeepsLines;
    if valid {
      FreshPointer(c, store, tl);
      KeptExactly(c, d, store, tl);
    }
  }

  lemma EndHere(s: seq<int>, k: nat)
    requires k <= |s| && forall i :: 0 <= i < |s| ==> s[i] != 0
    ensures k == |s| || s[k] == 10 ==> LineEnd(s, k) == k
    ensures k < |s| && s[k] != 10 ==> LineEnd(s, k) == LineEnd(s, k + 1)
  {
  }

  lemma FirstFetch(c0: Cache, c: Cache, w: Which, tl: nat, tlw: nat, good: bool, linebuf: seq<int>)
    requires Coherent(c0) && Coherent(c) && tl <= 128 * NMBLKS && tl % 2 == 0 && tlw == tl - tl % INCRMT && BlockOf(tl) < NMBLKS
    requires Fetched(c0, c, w, BlockOf(tl), true)
    requires good ==> c0.iblock < BlockOf(tl) && c0.iblock2 < BlockOf(tl) && (OffsetOf(tl) != 0 ==> c0.oblock == BlockOf(tl))
    ensures Writing(c, c, good, w, tl, tlw, OffsetOf(tl), BUFSIZ - OffsetOf(tl), linebuf, 0)
  {
    hide Byte, Flat;
    FrontierParts(tl);
    NoText(c, tl, linebuf);
  }

  lemma NoText(c: Cache, tl: nat, linebuf: seq<int>)
    requires Coherent(c) && Address(tl) <= BUFSIZ * NMBLKS
    ensures TextAt(c, Address(tl), linebuf, 0)
  {
  }

  lemma WriteByte(c0: Cache, c: Cache, good: bool, w: Which, tl: nat, tlw: nat, bp: int, nl: int, linebuf: seq<int>, k: nat, x: int)
    requires Coherent(c0) && Coherent(c) && k <= |linebuf| && Writing(c0, c, good, w, tl, tlw, bp, nl, linebuf, k)
    ensures BlockOf(tlw) < NMBLKS && Writable(c, w, BlockOf(tlw)) && Coherent(Stored(c, w, bp, x))
    ensures Written(c0, Stored(c, w, bp, x), good, w, tl, tlw, bp, nl, linebuf, k, x)
  {
    hide Byte, Flat;
    NextPointer(tlw);
    var b := BlockOf(tlw);
    var d := Stored(c, w, bp, x);
    StoreEnd(c, w, b, bp, x);
    TextKept(c, d, Address(tl), linebuf, k);
    SameBelowTrans(c0, c, d, Address(tl), Address(tl) + k);
  }

  lemma TextKept(c: Cache, d: Cache, a: nat, text: seq<int>, n: nat)
    requires Shaped(c) && Shaped(d) && n <= |text| && a + n <= BUFSIZ * NMBLKS && TextAt(c, a, text, n) && SameBelow(c, d, a + n)
    ensures TextAt(d, a, text, n)
  {
    hide Byte;
    forall i | 0 <= i < n ensures Byte(d, a + i) == text[i] {
      assert Byte(c, a + i) == text[i];
    }
  }

  lemma ByteWritten(c0: Cache, c: Cache, good: bool, w: Which, tl: nat, tlw: nat, bp: int, nl: int, linebuf: seq<int>, k: nat)
    requires Coherent(c0) && Coherent(c) && k < |linebuf| && Written(c0, c, good, w, tl, tlw, bp, nl, linebuf, k, linebuf[k])
    ensures bp + 1 < BUFSIZ ==> Writing(c0, c, good, w, tl, tlw, bp + 1, nl - 1, linebuf, k + 1)
    ensures bp + 1 == BUFSIZ ==> BlockFull(c0, c, good, tl, tlw, linebuf, k + 1)
  {
    hide Byte, SameBelow;
    var k' := k + 1;
    assert TextAt(c, Address(tl), linebuf, k');
  }

  lemma NextFetch(c0: Cache, c: Cache, d: Cache, good: bool, w: Which, tl: nat, tlw: nat, linebuf: seq<int>, k: nat)
    requires Coherent(c0) && Coherent(c) && Coherent(d) && k <= |linebuf| && BlockFull(c0, c, good, tl, tlw, linebuf, k)
    requires BlockOf(tlw + INCRMT) < NMBLKS && Fetched(c, d, w, BlockOf(tlw + INCRMT), true)
    ensures Writing(c0, d, good, w, tl, tlw + INCRMT, 0, BUFSIZ, linebuf, k)
  {
    hide Byte, Flat, TextAt;
    NextPointer(tlw);
    var b := BlockOf(tlw + INCRMT);
    if Buffered(c, b) {
      SameAllBelow(c, d, Address(tl) + k);
    } else {
      SameButBelow(c, d, b, Address(tl) + k);
    }
    TextKept(c, d, Address(tl), linebuf, k);
    SameBelowTrans(c0, c, d, Address(tl), Address(tl) + k);
  }

  /** The file is full in the middle of a line: its end is in the write buffer. */
  lemma FullInLine(c0: Cache, c: Cache, good: bool, tl: nat, tlw: nat, linebuf: seq<int>, k: nat)
    requires Coherent(c0) && Coherent(c) && k <= |linebuf| && BlockFull(c0, c, good, tl, tlw, linebuf, k)
    requires BlockOf(tlw + INCRMT) >= NMBLKS
    ensures Address(tl) + k == BUFSIZ * NMBLKS && TextAt(c, Address(tl), linebuf, k) && SameBelow(c0, c, Address(tl))
    ensures good ==> c.iblock < BlockOf(tl) && c.iblock2 < BlockOf(tl) && c.oblock == NMBLKS - 1
  {
    hide Byte, Flat, TextAt, SameBelow;
    NextPointer(tlw);
  }

  /** The new `tline` is the next multiple of 8 bytes after the line. */
  lemma NewFrontier(tl: nat, tlw: nat, bp: int, k: nat, tline: nat)
    requires tl % 2 == 0 && tlw % INCRMT == 0 && tlw < 128 * NMBLKS && 0 <= bp < BUFSIZ && k < LBSIZE
    requires BUFSIZ * BlockOf(tlw) + bp == Address(tl) + k && tline == tl + ((k + 1 + BNDRY - 1) / 4 % 32768) / 2 * 2
    ensures tline % 2 == 0 && tl < tline <= 128 * NMBLKS && Address(tline) == Address(tl) + (k + 8) / 8 * 8
    ensures BlockOf(tlw) <= BlockOf(tline) && (OffsetOf(tline) != 0 ==> BlockOf(tline) == BlockOf(tlw))
  {
    hide BlockOf, OffsetOf, Address;
    var h := Half(tl);
    var m, e := LineSteps(k);
    NextPointer(tlw);
    NewPointer(h);
    NewPointer(h + m);
    Reaches(h, BlockOf(tlw), bp, k, m, e);
    InBlock(h + m, BlockOf(tlw));
  }

  lemma Half(tl: nat) returns (h: nat)
    requires tl % 2 == 0
    ensures tl == 2 * h
  {
    h := tl / 2;
  }

  /** A line of `k` bytes takes `m` steps of eight bytes. */
  lemma LineSteps(k: nat) returns (m: nat, e: nat)
    requires k < LBSIZE
    ensures k + 8 == 8 * m + e && e < 8 && m > 0 && m == (k + 8) / 8 && ((k + 1 + BNDRY - 1) / 4 % 32768) / 2 * 2 == 2 * m
  {
    m, e := (k + 8) / 8, (k + 8) % 8;
    assert (k + 8) / 4 == 2 * m + e / 4;
  }

  lemma Reaches(h: nat, b: nat, bp: nat, k: nat, m: nat, e: nat)
    requires 8 * h + k == BUFSIZ * b + bp && bp < BUFSIZ && k + 8 == 8 * m + e && e < 8
    ensures 64 * b < h + m <= 64 * b + 64
  {
  }

  lemma InBlock(u: nat, b: nat)
    requires 64 * b < u <= 64 * b + 64
    ensures if u < 64 * b + 64 then u / 64 == b else u / 64 == b + 1 && u % 64 == 0
  {
  }

  lemma NewPointer(u: nat)
    ensures Address(2 * u) == 8 * u
    ensures u / 64 < 32768 ==> BlockOf(2 * u) == u / 64 && OffsetOf(2 * u) == u % 64 * 8
  {
    assert (2 * u) / 128 == u / 64;
    assert (2 * u) % 128 == 2 * (u % 64);
  }

  lemma LinePut(c0: Cache, c: Cache, good: bool, w: Which, tl: nat, tlw: nat, bp: int, nl: int, linebuf: seq<int>, k: nat, tline: nat)
    requires Coherent(c0) && Coherent(c) && k <= |linebuf| < LBSIZE && Written(c0, c, good, w, tl, tlw, bp, nl, linebuf, k, 0)
    requires forall i :: 0 <= i < |linebuf| ==> linebuf[i] != 0
    requires tl % 2 == 0 && tline == tl + ((k + 1 + BNDRY - 1) / 4 % 32768) / 2 * 2
    ensures tline % 2 == 0 && tl < tline <= 128 * NMBLKS && Address(tl) + k < BUFSIZ * NMBLKS
    ensures Address(tline) == Address(tl) + (k + 8) / 8 * 8
    ensures LineAt(c, tl, linebuf[..k], Address(tline)) && SameBelow(c0, c, Address(tl))
    ensures good ==> c.iblock < BlockOf(tline) && c.iblock2 < BlockOf(tline) && (OffsetOf(tline) != 0 ==> c.oblock == BlockOf(tline))
  {
    hide Byte, Flat, SameBelow, BlockOf, OffsetOf, Address;
    NewFrontier(tl, tlw, bp, k, tline);
    assert TextAt(c, Address(tl), linebuf[..k], k);
  }

  /** ex_getline in the middle of a line: `linebuf` has been read, and the next byte is
      at `bp` of buffer `w`. */
  ghost predicate Reading(c: Cache, w: Which, tlw: nat, bp: int, nl: int, line: nat, text: seq<int>, linebuf: seq<int>) {
    tlw < 128 * NMBLKS && Holds(c, w, BlockOf(tlw)) && 0 <= bp < BUFSIZ && nl == BUFSIZ - bp &&
    |linebuf| <= |text| && linebuf == text[..|linebuf|] && BUFSIZ * BlockOf(tlw) + bp == Address(line) + |linebuf|
  }

  lemma LineStart(c: Cache, store: map<nat, seq<int>>, line: nat, tline: nat)
    requires Coherent(c) && LinesAt(c, store, Address(tline)) && line in store && tline <= 128 * NMBLKS
    ensures line % 2 == 0 && line < tline && Address(line) + |store[line]| < Address(tline) <= BUFSIZ * NMBLKS
  {
    assert LineAt(c, line, store[line], Address(tline));
  }

  /** Bytes of stored lines lie before the frontier: in an earlier block, or in the block
      that the frontier is inside. */
  lemma InFrontier(line: nat, size: nat, k: nat, atl: nat, tline: nat)
    requires Address(line) + size < Address(tline) && k <= size && tline <= 128 * NMBLKS && atl < 128 * NMBLKS && tline % 2 == 0
    requires BUFSIZ * BlockOf(atl) + OffsetOf(atl) == Address(line) + k
    ensures BlockOf(atl) < NMBLKS && BlockOf(atl) <= BlockOf(tline) && (BlockOf(atl) == BlockOf(tline) ==> OffsetOf(tline) != 0)
  {
    PointerParts(tline);
  }

  lemma PointerStart(tl: nat, line: nat)
    requires line == tl - tl % 2 && line < 128 * NMBLKS
    ensures tl < 128 * NMBLKS && BUFSIZ * BlockOf(tl) + OffsetOf(tl) == Address(line) && BlockOf(tl - tl % INCRMT) == BlockOf(tl)
  {
    PointerParts(tl);
  }

  /** A read changes nothing that the lines depend on. */
  lemma ReadFrame(c: Cache, d: Cache, store: map<nat, seq<int>>, end: int)
    requires SameBut(c, d, -1) && LinesAt(c, store, end)
    ensures LinesAt(d, store, end)
  {
    SameAllBelow(c, d, end);
    LinesKept(c, d, store, end);
  }

  lemma NextByte(c: Cache, w: Which, tlw: nat, bp: int, nl: int, line: nat, store: map<nat, seq<int>>, linebuf: seq<int>, tline: nat)
    requires Coherent(c) && LinesAt(c, store, Address(tline)) && line in store
    requires Reading(c, w, tlw, bp, nl, line, store[line], linebuf) && BlockOf(tlw) < NMBLKS
    ensures var x, text := BufferOf(c, w)[bp], store[line];
      (x == 0 <==> |linebuf| == |text|) && (x != 0 ==> linebuf + [x] == text[..|linebuf| + 1])
  {
    hide Flat, Byte;
    LineByte(c, line, store, |linebuf|, tline);
    HeldIsFlat(c, w, BlockOf(tlw));
    ByteAt(c, BlockOf(tlw), bp);
  }

  /** Byte `k` of a stored line, counting the 0 at its end. */
  lemma LineByte(c: Cache, line: nat, store: map<nat, seq<int>>, k: nat, tline: nat)
    requires Coherent(c) && LinesAt(c, store, Address(tline)) && line in store && k <= |store[line]|
    ensures Address(line) + k < BUFSIZ * NMBLKS && var x := Byte(c, Address(line) + k);
      (k < |store[line]| ==> x == store[line][k] && x != 0) && (k == |store[line]| ==> x == 0)
  {
    hide Byte;
    assert LineAt(c, line, store[line], Address(tline));
  }

  lemma NextPointer(tlw: nat)
    requires tlw % INCRMT == 0 && tlw < 128 * NMBLKS
    ensures BlockOf(tlw) == tlw / 128 && BlockOf(tlw + INCRMT) == BlockOf(tlw) + 1 && OffsetOf(tlw + INCRMT) == 0
  {
  }

  /** The rest of the line goes on in the next block. */
  lemma NextBlock(c: Cache, tlw: nat, store: map<nat, seq<int>>, line: nat, k: nat, tline: nat)
    requires Coherent(c) && LinesAt(c, store, Address(tline)) && line in store && tline <= 128 * NMBLKS
    requires tlw % INCRMT == 0 && k <= |store[line]| && tlw < 128 * NMBLKS
    requires BUFSIZ * BlockOf(tlw) + BUFSIZ == Address(line) + k
    ensures tlw + INCRMT < 128 * NMBLKS && OffsetOf(tlw + INCRMT) == 0 && BUFSIZ * BlockOf(tlw + INCRMT) == Address(line) + k
  {
    hide LinesAt, Coherent, BlockOf, OffsetOf;
    LineStart(c, store, line, tline);
    NextPointer(tlw);
  }
}
