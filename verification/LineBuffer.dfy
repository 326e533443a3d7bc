/** ex/ex_cmdsub.c and ex/ex_subr.c: the array of line pointers with the undo save area
    behind the buffer, the commands that change it, and undo.

    Slot 0 of the array is the empty slot before line 1.  The buffer is `1..dol`, the
    lines saved for undo are `dol + 1..unddol`, and what open and visual mode save lies
    from `unddol + 1` to `truedol`.  A line is the number that the temporary file knows it
    by; the lowest bit is the mark of the global command. */
module LineBuffers {

  datatype Kind = UNDCHANGE | UNDMOVE | UNDALL | UNDNONE | UNDPUT

  datatype Result = Done | Failed(message: string)

  /** The array and the undo information as a value; positions count lines from 1. */
  datatype Buf = Buf(lines: seq<int>, saved: seq<int>, rest: seq<int>,
                     kind: Kind, undap1: int, undap2: int, unddel: int, dot: int, undadot: int)

  // ---------------------------------------------------------------------
  // What the operations do, as values
  // ---------------------------------------------------------------------

  /** Insert `x` after line `p`. */
  ghost function Inserted(s: seq<int>, p: nat, x: seq<int>): (r: seq<int>)
    requires p <= |s|
    ensures |r| == |s| + |x|
  {
    s[..p] + x + s[p..]
  }

  /** Lines `a..b - 1`. */
  ghost function Block(s: seq<int>, a: int, b: int): (r: seq<int>)
    requires 1 <= a <= b <= |s| + 1
    ensures |r| == b - a
  {
    s[a - 1..b - 1]
  }

  /** All other lines. */
  ghost function Without(s: seq<int>, a: int, b: int): (r: seq<int>)
    requires 1 <= a <= b <= |s| + 1
    ensures |r| == |s| - (b - a)
  {
    s[..a - 1] + s[b - 1..]
  }

  lemma InsertWithout(s: seq<int>, a: int, b: int)
    requires 1 <= a <= b <= |s| + 1
    ensures Inserted(Without(s, a, b), a - 1, Block(s, a, b)) == s
  {
  }

  lemma WithoutInsert(s: seq<int>, p: nat, x: seq<int>)
    requires p <= |s|
    ensures Without(Inserted(s, p, x), p + 1, p + 1 + |x|) == s
    ensures Block(Inserted(s, p, x), p + 1, p + 1 + |x|) == x
  {
  }

  /** delete: the lines go to the save area, to be put back after line `a - 1`. */
  ghost function Deleted(v: Buf, a: int, b: int): Buf
    requires 1 <= a <= b <= |v.lines|
  {
    var rest := Without(v.lines, a, b + 1);
    v.(lines := rest, saved := Block(v.lines, a, b + 1), kind := UNDCHANGE, unddel := a - 1,
       dot := if a > |rest| then |rest| else a)
  }

  ghost function NothingDeleted(v: Buf, a: int): Buf {
    v.(saved := [], kind := UNDCHANGE, unddel := a)
  }

  ghost function NothingAppended(v: Buf, a: int): Buf {
    v.(kind := UNDCHANGE, undap1 := a, undap2 := a)
  }

  /** append after line `a`. */
  ghost function Appended(v: Buf, a: nat, new_: seq<int>): Buf
    requires a <= |v.lines|
  {
    v.(lines := Inserted(v.lines, a, new_), kind := UNDCHANGE, undap1 := a + 1, undap2 := a + 1 + |new_|, dot := a + |new_|)
  }

  /** save: a copy of the lines, and the current line to come back to. */
  ghost function Saved(v: Buf, a: int, b: int): Buf
    requires 1 <= a <= b + 1 && b <= |v.lines|
  {
    v.(saved := Block(v.lines, a, b + 1), kind := UNDALL, unddel := a - 1, undap1 := a, undap2 := b + 1, undadot := v.dot)
  }

  /** What a delete leaves, line by line: those before and those after, and those between in the save area. */
  lemma DeletedLinesAre(v: Buf, a: int, b: int)
    requires 1 <= a <= b <= |v.lines|
    ensures Deleted(v, a, b).lines == v.lines[..a - 1] + v.lines[b..] && Deleted(v, a, b).saved == v.lines[a - 1..b]
    ensures Deleted(v, a, b).dot == if b < |v.lines| then a else a - 1
  {
  }

  lemma AppendedLinesAre(v: Buf, a: nat, new_: seq<int>)
    requires a <= |v.lines|
    ensures Appended(v, a, new_).lines == v.lines[..a] + new_ + v.lines[a..] && Appended(v, a, new_).dot == a + |new_|
  {
  }

  /** What a change leaves: the new lines between those before and those after. */
  lemma ChangedLinesAre(v: Buf, a: int, b: int, new_: seq<int>)
    requires 1 <= a <= b <= |v.lines|
    ensures var w := Appended(Deleted(v, a, b), a - 1, new_);
      w.lines == v.lines[..a - 1] + new_ + v.lines[b..] && w.saved == v.lines[a - 1..b] && w.dot == a - 1 + |new_|
  {
    DeletedLinesAre(v, a, b);
    var p, q := v.lines[..a - 1], v.lines[b..];
    InsertedParts(p, q, new_);
  }

  /** Where the saved lines go, once the appended ones are gone. */
  function Target(v: Buf): int {
    if v.undap1 < v.undap2 && v.unddel >= v.undap1 then v.unddel - (v.undap2 - v.undap1) else v.unddel
  }

  /** The block to take out is inside the buffer, and saved lines have a place to go. */
  ghost predicate Undoable(v: Buf) {
    v.undap1 <= v.undap2 && (v.undap1 < v.undap2 ==> 1 <= v.undap1 && v.undap2 <= |v.lines| + 1) &&
    (v.saved != [] && v.kind != UNDPUT ==> 0 <= Target(v) <= |v.lines| - (v.undap2 - v.undap1))
  }

  ghost function TakenOut(v: Buf): seq<int>
    requires Undoable(v)
  {
    if v.undap1 < v.undap2 then Block(v.lines, v.undap1, v.undap2) else []
  }

  ghost function Remaining(v: Buf): seq<int>
    requires Undoable(v)
  {
    if v.undap1 < v.undap2 then Without(v.lines, v.undap1, v.undap2) else v.lines
  }

  /** undo of a change: appended and saved lines change places. */
  ghost function Undone(v: Buf): Buf
    requires Undoable(v)
  {
    var s := if v.kind == UNDPUT then [] else v.saved;
    var u := if v.kind == UNDPUT then v.undap1 - 1 else Target(v);
    var lines := if s == [] then Remaining(v) else Inserted(Remaining(v), u, s);
    var undap1 := if s != [] && v.undap1 >= u + 1 then v.undap1 + |s| else v.undap1;
    var dot := if s != [] then u + 1 else if v.undap1 < v.undap2 then v.undap1 - 1 else v.dot;
    v.(lines := lines, saved := TakenOut(v), kind := if v.kind == UNDALL then UNDALL else UNDCHANGE,
       unddel := undap1 - 1, undap1 := u + 1, undap2 := u + 1 + |s|,
       dot := Sane(if v.kind == UNDALL then v.undadot else dot, |lines|),
       undadot := if v.kind == UNDALL then v.dot else v.undadot)
  }

  /** The last precaution of undo: a current line outside the buffer becomes line 1. */
  function Sane(dot: int, dol: int): int {
    if (dot <= 0 || dot > dol) && dot != dol then 1 else dot
  }

  // ---------------------------------------------------------------------
  // Undo is its own inverse
  // ---------------------------------------------------------------------

  /** After undo there is again something that can be undone. */
  lemma UndoneUndoable(v: Buf)
    requires Undoable(v)
    ensures Undoable(Undone(v))
  {
  }

  /** Two undos restore the buffer and the saved lines, line by line. */
  lemma UndoTwice(v: Buf)
    requires Undoable(v) && v.kind != UNDPUT
    ensures Undoable(Undone(v)) && Undone(Undone(v)).lines == v.lines && Undone(Undone(v)).saved == v.saved
  {
    hide Inserted, Without, Block;
    var w := Undone(v);
    var u := Target(v);
    UndoneUndoable(v);
    if v.undap1 < v.undap2 {
      InsertWithout(v.lines, v.undap1, v.undap2);
    }
    if v.saved != [] {
      WithoutInsert(Remaining(v), u, v.saved);
      assert Remaining(w) == Remaining(v) && TakenOut(w) == v.saved;
    }
    assert v.undap1 < v.undap2 ==> Target(w) == v.undap1 - 1;
  }

  /** Every undo only changes the order of the lines up to `unddol`. */
  lemma UndoPermutes(v: Buf)
    requires Undoable(v) && v.kind != UNDPUT
    ensures multiset(Undone(v).lines + Undone(v).saved) == multiset(v.lines + v.saved)
  {
    var r, x := Remaining(v), TakenOut(v);
    if v.undap1 < v.undap2 {
      InsertPermutes(Without(v.lines, v.undap1, v.undap2), v.undap1 - 1, x);
      InsertWithout(v.lines, v.undap1, v.undap2);
    }
    if v.saved != [] {
      InsertPermutes(r, Target(v), v.saved);
    }
  }

  lemma InsertPermutes(s: seq<int>, p: nat, x: seq<int>)
    requires p <= |s|
    ensures multiset(Inserted(s, p, x)) == multiset(s) + multiset(x)
  {
    assert s == s[..p] + s[p..];
    InsertedParts(s[..p], s[p..], x);
  }

  lemma InsertedParts(p: seq<int>, q: seq<int>, x: seq<int>)
    ensures Inserted(p + q, |p|, x) == p + x + q
  {
  }

  lemma WithoutParts(p: seq<int>, q: seq<int>, x: seq<int>)
    ensures Without(p + x + q, |p| + 1, |p| + |x| + 1) == p + q && Block(p + x + q, |p| + 1, |p| + |x| + 1) == x
  {
  }

  /** The rule behind command-then-undo: if block `x` of the buffer was replaced by `y`
      and saved, undo puts it back. */
  lemma ReplacedThenUndo(v: Buf, p: seq<int>, x: seq<int>, y: seq<int>, q: seq<int>)
    requires v.lines == p + y + q && v.saved == x && v.kind != UNDPUT
    requires v.undap1 == |p| + 1 && v.undap2 == |p| + 1 + |y| && (x == [] || v.unddel == |p| || v.unddel == |p| + |y|)
    ensures Undoable(v) && Undone(v).lines == p + x + q && Undone(v).saved == y
  {
    WithoutParts(p, q, y);
    EmptyMiddle(p, q);
    assert Remaining(v) == p + q;
    InsertedParts(p, q, x);
  }

  lemma ThreeParts(s: seq<int>, i: nat, j: nat)
    requires i <= j <= |s|
    ensures s == s[..i] + s[i..j] + s[j..]
  {
  }

  lemma EmptyMiddle(p: seq<int>, q: seq<int>)
    ensures p + [] + q == p + q
  {
  }

  /** delete followed by undo. */
  lemma DeleteThenUndo(v: Buf, a: int, b: int)
    requires 1 <= a <= b <= |v.lines|
    ensures var w := NothingAppended(Deleted(v, a, b), a);
      Undoable(w) && Undone(w).lines == v.lines && Undone(w).dot == a
  {
    var w := NothingAppended(Deleted(v, a, b), a);
    var p, x, q := v.lines[..a - 1], v.lines[a - 1..b], v.lines[b..];
    ThreeParts(v.lines, a - 1, b);
    EmptyMiddle(p, q);
    ReplacedThenUndo(w, p, x, [], q);
  }

  /** append followed by undo, wherever the earlier undo information pointed. */
  lemma AppendThenUndo(v: Buf, a: nat, at: int, new_: seq<int>)
    requires a <= |v.lines|
    ensures var w := Appended(NothingDeleted(v, at), a, new_);
      Undoable(w) && Undone(w).lines == v.lines && Undone(w).saved == new_ && Undone(w).dot == if a == 0 && v.lines != [] then 1 else a
  {
    var w := Appended(NothingDeleted(v, at), a, new_);
    var p, q := v.lines[..a], v.lines[a..];
    EmptyMiddle(p, q);
    assert v.lines == p + q;
    InsertedParts(p, q, new_);
    ReplacedThenUndo(w, p, [], new_, q);
  }

  /** change followed by undo. */
  lemma ChangeThenUndo(v: Buf, a: int, b: int, new_: seq<int>)
    requires 1 <= a <= b <= |v.lines|
    ensures var w := Appended(Deleted(v, a, b), a - 1, new_);
      Undoable(w) && Undone(w).lines == v.lines && Undone(w).saved == new_ && Undone(w).dot == a
  {
    var w := Appended(Deleted(v, a, b), a - 1, new_);
    var p, x, q := v.lines[..a - 1], v.lines[a - 1..b], v.lines[b..];
    ThreeParts(v.lines, a - 1, b);
    InsertedParts(p, q, new_);
    ReplacedThenUndo(w, p, x, new_, q);
  }

  /** save followed by undo gives back the lines saved, whatever has been done in the
      meantime to the lines themselves, and the old current line. */
  lemma SaveThenUndo(v: Buf, a: int, b: int, w: Buf, y: seq<int>)
    requires 1 <= a <= b + 1 && b <= |v.lines| && |y| == b + 1 - a
    requires w.(lines := v.lines, dot := v.dot) == Saved(v, a, b) && w.lines == v.lines[..a - 1] + y + v.lines[b..]
    ensures Undoable(w) && Undone(w).lines == v.lines && Undone(w).saved == y
    ensures 1 <= v.dot <= |v.lines| ==> Undone(w).dot == v.dot
  {
    var p, x, q := v.lines[..a - 1], v.lines[a - 1..b], v.lines[b..];
    ThreeParts(v.lines, a - 1, b);
    assert w.saved == x && w.unddel == |p|;
    ReplacedThenUndo(w, p, x, y, q);
  }

  // ---------------------------------------------------------------------
  // Moves
  // ---------------------------------------------------------------------

  /** The line without the mark of the global command. */
  function Unmarked(l: int): int { l - l % 2 }

  ghost function UnmarkedBlock(s: seq<int>, a: int, b: int): (r: seq<int>)
    requires 1 <= a && b <= |s|
    ensures |r| == |s| && forall k :: 0 <= k < |s| ==> r[k] == if a - 1 <= k < b then Unmarked(s[k]) else s[k]
  {
    seq(|s|, k requires 0 <= k < |s| => if a - 1 <= k < b then Unmarked(s[k]) else s[k])
  }

  /** A destination that `a,b m c` accepts. */
  predicate CanMove(n: int, a: int, b: int, c: int) {
    1 <= a <= b <= n && 0 <= c <= n && (c < a - 1 || c > b)
  }

  /** Lines `a..b` after line `c`. */
  ghost function MovedLines(s: seq<int>, a: int, b: int, c: int): (r: seq<int>)
    requires CanMove(|s|, a, b, c)
    ensures |r| == |s|
  {
    if c < a then s[..c] + s[a - 1..b] + s[c..a - 1] + s[b..]
    else s[..a - 1] + s[b..c] + s[a - 1..b] + s[c..]
  }

  ghost function Moved(v: Buf, a: int, b: int, c: int): Buf
    requires CanMove(|v.lines|, a, b, c)
  {
    v.(lines := MovedLines(UnmarkedBlock(v.lines, a, b), a, b, c), saved := [], kind := UNDMOVE, undap1 := a, undap2 := b, unddel := c,
       dot := if c < a then c + (b - a + 1) else c)
  }

  predicate CanMoveInGlobal(n: int, a: int, b: int, c: int) {
    CanMove(n, a, b, c) || (1 <= a <= b <= n && c == a - 1)
  }

  /** A move made for a global command: only the lines and the current line change, and what
      undo is to do stays as the command left it. */
  ghost function MovedInGlobal(v: Buf, a: int, b: int, c: int): Buf
    requires CanMoveInGlobal(|v.lines|, a, b, c)
  {
    v.(lines := if c == a - 1 then UnmarkedBlock(v.lines, a, b) else MovedLines(UnmarkedBlock(v.lines, a, b), a, b, c),
       dot := if c < a then c + (b - a + 1) else c)
  }

  datatype Move = Move(a: int, b: int, c: int)

  /** The moves that one global command makes. */
  ghost function MovedAll(v: Buf, moves: seq<Move>): (w: Buf)
    requires forall m :: m in moves ==> CanMoveInGlobal(|v.lines|, m.a, m.b, m.c)
    ensures |w.lines| == |v.lines| && w == v.(lines := w.lines, dot := w.dot)
    decreases |moves|
  {
    if moves == [] then v
    else
      var m := moves[|moves| - 1];
      MovedInGlobal(MovedAll(v, moves[..|moves| - 1]), m.a, m.b, m.c)
  }

  /** One undo takes back all the moves of a global command. */
  lemma GlobalMovesThenUndo(v: Buf, moves: seq<Move>)
    requires forall m :: m in moves ==> CanMoveInGlobal(|v.lines|, m.a, m.b, m.c)
    ensures var w := MovedAll(Saved(v, 1, |v.lines|), moves);
      Undoable(w) && Undone(w).lines == v.lines && Undone(w).saved == w.lines && (1 <= v.dot <= |v.lines| ==> Undone(w).dot == v.dot)
  {
    hide Undoable, Undone, MovedInGlobal;
    var w := MovedAll(Saved(v, 1, |v.lines|), moves);
    assert w.lines == v.lines[..0] + w.lines + v.lines[|v.lines|..];
    SaveThenUndo(v, 1, |v.lines|, w, w.lines);
  }

  /** Where the lines of a move go: between those before and those after its target, the others
      keeping their order. */
  lemma MovedLinesAre(s: seq<int>, a: int, b: int, c: int)
    requires CanMoveInGlobal(|s|, a, b, c)
    ensures (if c == a - 1 then s else MovedLines(s, a, b, c)) ==
      if c < a then s[..c] + s[a - 1..b] + s[c..a - 1] + s[b..] else s[..a - 1] + s[b..c] + s[a - 1..b] + s[c..]
  {
  }

  /** The move that undo makes instead: first line, last line and destination. */
  function InverseMove(a: int, b: int, c: int): (int, int, int) {
    if c - b > 0 then (a + (c - b), c, a - 1) else (c + 1, c + 1 + (b - a), b)
  }

  /** undo of a move. */
  ghost function UndoneMove(v: Buf): Buf
    requires CanMove(|v.lines|, v.undap1, v.undap2, v.unddel)
  {
    InverseCanMove(|v.lines|, v.undap1, v.undap2, v.unddel);
    var (x, y, z) := InverseMove(v.undap1, v.undap2, v.unddel);
    var w := Moved(v, x, y, z);
    w.(dot := Sane(v.undap1, |w.lines|))
  }

  /** The two sequences differ at most in marks. */
  ghost predicate SameUnmarked(s: seq<int>, t: seq<int>) {
    |s| == |t| && forall k :: 0 <= k < |s| ==> Unmarked(s[k]) == Unmarked(t[k])
  }

  lemma InverseCanMove(n: int, a: int, b: int, c: int)
    requires CanMove(n, a, b, c)
    ensures var (x, y, z) := InverseMove(a, b, c); CanMove(n, x, y, z)
    ensures var (x, y, z) := InverseMove(a, b, c); InverseMove(x, y, z) == (a, b, c)
  {
  }

  lemma FourParts(p: seq<int>, x: seq<int>, y: seq<int>, q: seq<int>)
    ensures var m := p + x + y + q;
      m[..|p|] == p && m[|p|..|p| + |x|] == x && m[|p| + |x|..|p| + |x| + |y|] == y && m[|p| + |x| + |y|..] == q
  {
  }

  lemma MoveUpParts(p: seq<int>, y: seq<int>, x: seq<int>, q: seq<int>)
    requires x != [] && y != []
    ensures MovedLines(p + y + x + q, |p| + |y| + 1, |p| + |y| + |x|, |p|) == p + x + y + q
  {
    FourParts(p, y, x, q);
  }

  lemma MoveDownParts(p: seq<int>, x: seq<int>, y: seq<int>, q: seq<int>)
    requires x != [] && y != []
    ensures MovedLines(p + x + y + q, |p| + 1, |p| + |x|, |p| + |x| + |y|) == p + y + x + q
  {
    FourParts(p, x, y, q);
  }

  lemma SplitFour(s: seq<int>, i: nat, j: nat, k: nat)
    requires i <= j <= k <= |s|
    ensures s == s[..i] + s[i..j] + s[j..k] + s[k..]
  {
  }

  /** A move is undone exactly, whichever way it went. */
  lemma MoveThenUndo(s: seq<int>, a: int, b: int, c: int)
    requires CanMove(|s|, a, b, c)
    ensures var (x, y, z) := InverseMove(a, b, c);
      |MovedLines(s, a, b, c)| == |s| && CanMove(|s|, x, y, z) && MovedLines(MovedLines(s, a, b, c), x, y, z) == s
  {
    hide MovedLines;
    if c < a {
      var p, y, x, q := s[..c], s[c..a - 1], s[a - 1..b], s[b..];
      SplitFour(s, c, a - 1, b);
      MoveUpParts(p, y, x, q);
      MoveDownParts(p, x, y, q);
    } else {
      var p, x, y, q := s[..a - 1], s[a - 1..b], s[b..c], s[c..];
      SplitFour(s, a - 1, b, c);
      MoveDownParts(p, x, y, q);
      MoveUpParts(p, y, x, q);
    }
  }

  /** The marks: undoing a move gives back the lines with the moved ones unmarked. */
  lemma MovedUnmarked(s: seq<int>, a: int, b: int, c: int)
    requires CanMove(|s|, a, b, c)
    ensures var (x, y, z) := InverseMove(a, b, c);
      var m := MovedLines(UnmarkedBlock(s, a, b), a, b, c);
      |m| == |s| && CanMove(|s|, x, y, z) && UnmarkedBlock(m, x, y) == m && MovedLines(m, x, y, z) == UnmarkedBlock(s, a, b)
  {
    hide MovedLines;
    var t := UnmarkedBlock(s, a, b);
    var (x, y, z) := InverseMove(a, b, c);
    MoveThenUndo(t, a, b, c);
    var m := MovedLines(t, a, b, c);
    BlockMoves(t, a, b, c);
    forall k | x - 1 <= k < y ensures Unmarked(m[k]) == m[k] {
      assert m[k] == t[k - (x - 1) + (a - 1)];
    }
    assert UnmarkedBlock(m, x, y) == m;
  }

  /** Where the lines of the block go. */
  lemma BlockMoves(s: seq<int>, a: int, b: int, c: int)
    requires CanMove(|s|, a, b, c)
    ensures var (x, y, z) := InverseMove(a, b, c);
      1 <= x <= y <= |s| && forall k :: x - 1 <= k < y ==> MovedLines(s, a, b, c)[k] == s[k - (x - 1) + (a - 1)]
  {
  }

  /** The same for the whole state: undo gives back the lines, unmarked where they had
      moved, and a second undo moves them again. */
  lemma MoveUndoTwice(v: Buf, a: int, b: int, c: int)
    requires CanMove(|v.lines|, a, b, c)
    ensures var w := Moved(v, a, b, c);
      CanMove(|w.lines|, w.undap1, w.undap2, w.unddel) && UndoneMove(w).lines == UnmarkedBlock(v.lines, a, b)
    ensures var w := Moved(v, a, b, c); var u := UndoneMove(w);
      CanMove(|u.lines|, u.undap1, u.undap2, u.unddel) && UndoneMove(u).lines == w.lines
  {
    hide MovedLines, UnmarkedBlock;
    var t := UnmarkedBlock(v.lines, a, b);
    var (x, y, z) := InverseMove(a, b, c);
    InverseCanMove(|v.lines|, a, b, c);
    MovedUnmarked(v.lines, a, b, c);
    UnmarkedAgain(v.lines, a, b);
  }

  lemma UnmarkedAgain(s: seq<int>, a: int, b: int)
    requires 1 <= a && b <= |s|
    ensures UnmarkedBlock(UnmarkedBlock(s, a, b), a, b) == UnmarkedBlock(s, a, b)
  {
  }

  // ---------------------------------------------------------------------
  // The array
  // ---------------------------------------------------------------------

  /** `m` is `s` with `a..b - 1` turned around. */
  ghost predicate Turned(s: seq<int>, m: seq<int>, a: int, b: int)
    requires 0 <= a <= b <= |s|
  {
    |m| == |s| && (forall k :: a <= k < b ==> m[k] == s[a + b - 1 - k]) &&
    forall k :: 0 <= k < |m| && !(a <= k < b) ==> m[k] == s[k]
  }

  /** `m` is `s` with `b..c - 1` brought before `a..b - 1`. */
  ghost predicate Exchanged(s: seq<int>, m: seq<int>, a: int, b: int, c: int)
    requires 0 <= a <= b <= c <= |s|
  {
    |m| == |s| && (forall k :: 0 <= k < |m| && !(a <= k < c) ==> m[k] == s[k]) &&
    (forall k :: a <= k < a + (c - b) ==> m[k] == s[k + (b - a)]) &&
    (forall k :: a + (c - b) <= k < c ==> m[k] == s[k - (c - b)])
  }

  /** `m` is `s` with `size` words from `from` copied to `to`. */
  ghost predicate Copied(s: seq<int>, m: seq<int>, to: int, from: int, size: int) {
    |m| == |s| && (forall k :: 0 <= k < |m| && to <= k < to + size ==> 0 <= k - to + from < |s| && m[k] == s[k - to + from]) &&
    forall k :: 0 <= k < |m| && !(to <= k < to + size) ==> m[k] == s[k]
  }

  lemma ThreeReversals(s: seq<int>, s1: seq<int>, s2: seq<int>, m: seq<int>, a: int, b: int, c: int)
    requires 0 <= a <= b <= c <= |s| && Turned(s, s1, a, b) && Turned(s1, s2, b, c) && Turned(s2, m, a, c)
    ensures Exchanged(s, m, a, b, c)
  {
  }

  ghost function Slice(m: seq<int>, a: int, b: int): (r: seq<int>)
    requires 0 <= a <= b <= |m|
    ensures |r| == b - a
  {
    m[a..b]
  }

  lemma SliceAt(m: seq<int>, a: int, b: int, k: int)
    requires 0 <= a <= b <= |m| && 0 <= k < b - a
    ensures Slice(m, a, b)[k] == m[a + k]
  {
  }

  lemma InsertedAt(s: seq<int>, p: nat, x: seq<int>, k: int)
    requires p <= |s| && 0 <= k < |s| + |x|
    ensures Inserted(s, p, x)[k] == if k < p then s[k] else if k < p + |x| then x[k - p] else s[k - |x|]
  {
  }

  lemma BlockAt(s: seq<int>, a: int, b: int, k: int)
    requires 1 <= a <= b <= |s| + 1 && 0 <= k < b - a
    ensures Block(s, a, b)[k] == s[a - 1 + k]
  {
  }

  lemma WithoutAt(s: seq<int>, a: int, b: int, k: int)
    requires 1 <= a <= b <= |s| + 1 && 0 <= k < |s| - (b - a)
    ensures Without(s, a, b)[k] == if k < a - 1 then s[k] else s[k + (b - a)]
  {
  }

  lemma FourAt(p: seq<int>, x: seq<int>, y: seq<int>, q: seq<int>, k: int)
    requires 0 <= k < |p| + |x| + |y| + |q|
    ensures (p + x + y + q)[k] ==
      if k < |p| then p[k] else if k < |p| + |x| then x[k - |p|]
      else if k < |p| + |x| + |y| then y[k - |p| - |x|] else q[k - |p| - |x| - |y|]
  {
  }

  lemma MovedUpAt(s: seq<int>, a: int, b: int, c: int, k: int)
    requires CanMove(|s|, a, b, c) && c < a && 0 <= k < |s|
    ensures MovedLines(s, a, b, c)[k] ==
      if c <= k < c + (b + 1 - a) then s[k - c + (a - 1)] else if c + (b + 1 - a) <= k < b then s[k - (b + 1 - a)] else s[k]
  {
    FourAt(s[..c], s[a - 1..b], s[c..a - 1], s[b..], k);
  }

  lemma MovedDownAt(s: seq<int>, a: int, b: int, c: int, k: int)
    requires CanMove(|s|, a, b, c) && c > b && 0 <= k < |s|
    ensures MovedLines(s, a, b, c)[k] ==
      if a - 1 <= k < a - 1 + (c - b) then s[k + (b + 1 - a)] else if a - 1 + (c - b) <= k < c then s[k - (c - b)] else s[k]
  {
    FourAt(s[..a - 1], s[b..c], s[a - 1..b], s[c..], k);
  }

  /** Slices are equal when their elements are. */
  lemma SameSlice(s: seq<int>, a: int, b: int, m: seq<int>, c: int, d: int)
    requires 0 <= a <= b <= |s| && 0 <= c <= d <= |m| && b - a == d - c
    requires forall k :: c <= k < d ==> m[k] == s[k - c + a]
    ensures Slice(m, c, d) == Slice(s, a, b)
  {
    var x, y := Slice(s, a, b), Slice(m, c, d);
    forall k | 0 <= k < b - a ensures x[k] == y[k] {
      SliceAt(s, a, b, k);
      SliceAt(m, c, d, k);
      assert m[c + k] == s[c + k - c + a];
    }
  }

  /** The three parts of the array. */
  ghost function Parts(m: seq<int>, dol: int, unddol: int, truedol: int): Buf
    requires 0 <= dol <= unddol <= truedol < |m|
  {
    Buf(Slice(m, 1, dol + 1), Slice(m, dol + 1, unddol + 1), Slice(m, unddol + 1, truedol + 1), UNDNONE, 0, 0, 0, 0, 0)
  }

  class LineBuffer {
    const mem: array<int>
    var dol: int
    var unddol: int
    var truedol: int
    var dot: int
    var undkind: Kind
    var undap1: int
    var undap2: int
    var unddel: int
    var undadot: int

    ghost predicate Valid()
      reads this
    {
      0 <= dol <= unddol <= truedol < mem.Length
    }

    ghost function View(): (v: Buf)
      requires Valid()
      reads this, mem
      ensures |v.lines| == dol && |v.saved| == unddol - dol && |v.rest| == truedol - unddol
    {
      LinesSize(mem[..], dol, unddol, truedol);
      Parts(mem[..], dol, unddol, truedol).(kind := undkind, undap1 := undap1, undap2 := undap2, unddel := unddel, dot := dot, undadot := undadot)
    }

    constructor (size: nat)
      requires size > 0
      ensures Valid() && fresh(mem) && mem.Length == size && View() == Buf([], [], [], UNDNONE, 0, 0, 0, 0, 0)
    {
      mem := new int[size](_ => 0);
      dol, unddol, truedol, dot, undkind, undap1, undap2, unddel, undadot := 0, 0, 0, 0, UNDNONE, 0, 0, 0, 0;
    }

    /** reverse: turn `a1..a2 - 1` around in place. */
    method Reverse(a1: int, a2: int)
      requires 1 <= a1 <= a2 <= mem.Length
      modifies mem
      ensures Turned(old(mem[..]), mem[..], a1, a2)
    {
      ghost var s := mem[..];
      var l, h := a1, a2;
      while true
        invariant a1 <= l <= h <= a2 && l - a1 == a2 - h
        invariant forall k :: 0 <= k < mem.Length && (a1 <= k < l || h <= k < a2) ==> mem[k] == s[a1 + a2 - 1 - k]
        invariant forall k :: 0 <= k < mem.Length && !(a1 <= k < l || h <= k < a2) ==> mem[k] == s[k]
        decreases h - l
      {
        var t := mem[h - 1];
        if h - 1 <= l {
          break;
        }
        h := h - 1;
        mem[h] := mem[l];
        mem[l] := t;
        l := l + 1;
      }
    }

    /** Three reversals exchange two neighbouring stretches. */
    method Rotate(a: int, b: int, c: int)
      requires 1 <= a <= b <= c <= mem.Length
      modifies mem
      ensures Exchanged(old(mem[..]), mem[..], a, b, c)
    {
      ghost var s := mem[..];
      Reverse(a, b);
      ghost var s1 := mem[..];
      Reverse(b, c);
      ghost var s2 := mem[..];
      Reverse(a, c);
      ThreeReversals(s, s1, s2, mem[..], a, b, c);
    }

    /** squish: crush out the undo save area. */
    method Squish()
      requires Valid()
      modifies mem, this`truedol, this`unddol
      ensures Valid() && View() == old(View()).(saved := [])
      ensures unddol == dol == old(dol)
    {
      hide Slice;
      ghost var s, d := mem[..], unddol - dol;
      var a1, a2, a3 := dol + 1, unddol + 1, truedol + 1;
      if a1 < a2 && a2 < a3 {
        while a2 < a3
          modifies mem
          invariant a1 == a2 - d && unddol + 1 <= a2 <= a3
          invariant forall k :: dol + 1 <= k < a1 ==> mem[k] == s[k + d]
          invariant forall k :: 0 <= k < mem.Length && !(dol + 1 <= k < a1) ==> mem[k] == s[k]
        {
          mem[a1] := mem[a2];
          a1, a2 := a1 + 1, a2 + 1;
        }
      }
      truedol := truedol - (unddol - dol);
      unddol := dol;
      SquishSlices(s, mem[..], dol, old(unddol), old(truedol));
    }

    /** Bring lines `a1..a2 - 1` behind the others, and out of the buffer. */
    method MoveBehind(a1: int, a2: int)
      requires Valid() && unddol == dol && 1 <= a1 < a2 <= dol + 1
      modifies mem, this`dol
      ensures Valid() && dol == old(dol) - (a2 - a1)
      ensures View() == old(View()).(lines := Without(old(View()).lines, a1, a2), saved := Block(old(View()).lines, a1, a2))
    {
      hide Slice, Without, Block, Exchanged;
      ghost var s := mem[..];
      RotateIf(a2 != dol + 1, a1, a2, dol + 1);
      ghost var m := mem[..];
      DeleteSlices(s, m, dol, truedol, a1, a2);
      dol := dol - (a2 - a1);
      assert mem[..] == m;
    }

    /** The exchange, left out when one of the stretches is empty. */
    method RotateIf(both: bool, a: int, b: int, c: int)
      requires 1 <= a <= b <= c <= mem.Length && (!both ==> a == b || b == c)
      modifies mem
      ensures Exchanged(old(mem[..]), mem[..], a, b, c)
    {
      if both {
        Rotate(a, b, c);
      }
    }

    /** ex_delete, with undo information. */
    method ExDelete(addr1: int, addr2: int) returns (r: Result)
      requires Valid() && 0 <= addr1 <= addr2 <= dol
      modifies this, mem
      ensures Valid()
      ensures r == (if addr1 == 0 then Failed("Nonzero address required") else Done)
      ensures addr1 == 0 ==> View() == old(View())
      ensures addr1 > 0 ==> View() == Deleted(old(View()), addr1, addr2)
      ensures addr1 > 0 ==> View().lines == old(View()).lines[..addr1 - 1] + old(View()).lines[addr2..]
      ensures addr1 > 0 ==> View().saved == old(View()).lines[addr1 - 1..addr2] && dot == if addr2 < old(dol) then addr1 else addr1 - 1
    {
      hide Slice, Without, Block;
      if addr1 == 0 {
        return Failed("Nonzero address required");
      }
      DeletedLinesAre(View(), addr1, addr2);
      Squish();
      var a1, a2 := addr1, addr2 + 1;
      MoveBehind(a1, a2);
      ghost var v := View();
      undkind := UNDCHANGE;
      unddel := a1 - 1;
      if a1 > dol {
        a1 := dol;
      }
      dot := a1;
      assert View() == v.(kind := UNDCHANGE, unddel := addr1 - 1, dot := a1);
      return Done;
    }

    method DeleteNone(addr1: int)
      requires Valid()
      modifies this, mem
      ensures Valid() && View() == NothingDeleted(old(View()), addr1) && dol == old(dol)
    {
      undkind := UNDCHANGE;
      Squish();
      unddel := addr1;
    }

    method AppendNone(addr1: int)
      requires Valid()
      modifies this
      ensures Valid() && View() == NothingAppended(old(View()), addr1)
    {
      undkind := UNDCHANGE;
      undap1, undap2 := addr1, addr1;
    }

    /** append: the lines are those that the input function returns until its end.  When
        the array is full the command fails with the lines so far in place. */
    method Append(new_: seq<int>, a: int) returns (r: Result, n: nat)
      requires Valid() && 0 <= a <= dol
      modifies this, mem
      ensures Valid() && n <= |new_| && View() == Appended(old(View()), a, new_[..n])
      ensures r == Done <==> n == |new_|
      ensures View().lines == old(View()).lines[..a] + new_[..n] + old(View()).lines[a..]
      ensures View().saved == old(View()).saved && dot == a + n
      ensures n == if |new_| < mem.Length - old(truedol) then |new_| else mem.Length - 1 - old(truedol)
    {
      hide Slice;
      ghost var v := View();
      dot := a;
      undap1, undap2 := dot + 1, dot + 1;
      undkind := UNDCHANGE;
      n := 0;
      assert Inserted(v.lines, a, []) == v.lines;
      while n < |new_|
        invariant Valid() && n <= |new_| && View() == Appended(v, a, new_[..n]) && dol == |v.lines| + n && truedol == old(truedol) + n
      {
        if truedol >= mem.Length - 1 {
          AppendedLinesAre(v, a, new_[..n]);
          return Failed("Out of memory"), n;
        }
        InsertLine(new_[n]);
        AppendedStep(v, a, new_, n);
        n := n + 1;
      }
      assert new_[..n] == new_;
      AppendedLinesAre(v, a, new_[..n]);
      r := Done;
    }

    /** The body of the loop of append: open a slot after `dot` and fill it. */
    method InsertLine(l: int)
      requires Valid() && truedol < mem.Length - 1 && 0 <= dot <= dol
      modifies this, mem
      ensures Valid() && dol == old(dol) + 1
      ensures View() == old(View()).(lines := Inserted(old(View()).lines, old(dot), [l]), dot := old(dot) + 1, undap2 := old(undap2) + 1)
    {
      var a1 := truedol + 1;
      dot := dot + 1;
      undap2 := undap2 + 1;
      ghost var v := View();
      OpenSlot(a1, dot, l);
      assert View() == v.(lines := Inserted(v.lines, dot - 1, [l]));
    }

    method OpenSlot(a1: int, rdot: int, l: int)
      requires Valid() && a1 == truedol + 1 < mem.Length && 1 <= rdot <= dol + 1
      modifies this`dol, this`unddol, this`truedol, mem
      ensures Valid() && dol == old(dol) + 1
      ensures View() == old(View()).(lines := Inserted(old(View()).lines, rdot - 1, [l]))
    {
      hide Slice, Inserted;
      ghost var s := mem[..];
      Shift(rdot, a1, l);
      ghost var m := mem[..];
      InsertSlices(s, m, dol + 1, unddol + 1, truedol + 1, rdot, l);
      dol := dol + 1;
      unddol := unddol + 1;
      truedol := truedol + 1;
      assert mem[..] == m;
    }

    /** Make room at `rdot` and put `l` there. */
    method Shift(rdot: int, a1: int, l: int)
      requires 1 <= rdot <= a1 < mem.Length
      modifies mem
      ensures mem[rdot] == l
      ensures forall i :: rdot < i <= a1 ==> mem[i] == old(mem[i - 1])
      ensures forall i :: 0 <= i < mem.Length && !(rdot <= i <= a1) ==> mem[i] == old(mem[i])
    {
      ShiftUp(rdot, a1);
      mem[rdot] := l;
    }

    /** Move `rdot..a1 - 1` one place up. */
    method ShiftUp(rdot: int, a1: int)
      requires 1 <= rdot <= a1 < mem.Length
      modifies mem
      ensures forall i :: rdot < i <= a1 ==> mem[i] == old(mem[i - 1])
      ensures forall i :: 0 <= i < mem.Length && !(rdot < i <= a1) ==> mem[i] == old(mem[i])
    {
      ghost var s := mem[..];
      var k := a1;
      while k > rdot
        invariant rdot <= k <= a1
        invariant forall i :: k < i <= a1 ==> mem[i] == s[i - 1]
        invariant forall i :: 0 <= i < mem.Length && !(k < i <= a1) ==> mem[i] == s[i]
      {
        k := k - 1;
        mem[k + 1] := mem[k];
      }
    }

    /** First half of undo: the appended lines go behind the others, just before the
        saved ones. */
    method TakeOut() returns (newdol: int)
      requires Valid() && Undoable(View())
      modifies mem, this`unddel, this`dot
      ensures Valid() && newdol == dol - (undap2 - undap1)
      ensures 0 <= newdol <= dol && var v := old(View());
        Cut(mem[..], newdol, dol, unddol, truedol) == Stretches(Remaining(v), TakenOut(v), v.saved, v.rest)
      ensures unddel == Target(old(View())) && dot == if undap1 < undap2 then undap1 - 1 else old(dot)
    {
      hide Slice, Without, Block, Exchanged;
      ghost var v := View();
      newdol := dol;
      var dolp1 := dol + 1;
      var jp, kp := undap1, undap2;
      var i := kp - jp;
      if i > 0 {
        ghost var s := mem[..];
        RotateIf(kp != dolp1, jp, kp, dolp1);
        TakeOutSlices(s, mem[..], dol, unddol, truedol, jp, kp);
        if unddel >= jp {
          unddel := unddel - i;
        }
        newdol := newdol - i;
        dot := jp - 1;
      } else {
        CutParts(mem[..], dol, dol, unddol, truedol);
        assert v.lines[..dol] == v.lines;
      }
    }

    /** Second half: the saved lines go back after line `jp - 1`. */
    method PutBack(newdol: int, jp: int)
      requires Valid() && 0 <= newdol <= dol && (dol < unddol ==> 1 <= jp <= newdol + 1)
      modifies mem
      ensures Valid() && var c := old(Cut(mem[..], newdol, dol, unddol, truedol));
        var p := Parts(mem[..], newdol + (unddol - dol), unddol, truedol);
        p.lines == (if dol < unddol then Inserted(c.kept, jp - 1, c.saved) else c.kept) && p.saved == c.taken && p.rest == c.rest
    {
      hide Slice, Inserted, Parts, Cut, Exchanged;
      var kp := unddol;
      var i := kp - dol;
      if i > 0 {
        ghost var s := mem[..];
        RotateIf(jp != dol + 1, jp, dol + 1, kp + 1);
        PutBackSlices(s, mem[..], newdol, dol, unddol, truedol, jp);
      } else {
        NothingToPutBack(mem[..], newdol, dol, truedol);
      }
    }

    /** The branch of undo for everything but moves. */
    method UndoChange()
      requires Valid() && Undoable(View())
      modifies this, mem
      ensures Valid() && View() == Undone(old(View()))
    {
      hide Slice, Without, Block, Inserted, Remaining, TakenOut, Parts, Cut;
      ghost var v := View();
      var newadot := dot;
      var newdol := TakeOut();
      if undkind == UNDPUT {
        unddel := undap1 - 1;
        SquishTaken(newdol);
      }
      var jp := unddel + 1;
      var i := unddol - dol;
      PutBack(newdol, jp);
      FinishUndo(newdol + i, jp, i, newadot);
    }

    /** The last lines of undo, for both branches. */
    method CheckDot()
      modifies this`dot
      ensures dot == Sane(old(dot), dol)
    {
      if (dot <= 0 || dot > dol) && dot != dol {
        dot := 1;
      }
    }

    /** The bookkeeping at the end of undo. */
    method FinishUndo(newdol: int, jp: int, i: int, newadot: int)
      requires 0 <= newdol <= unddol <= truedol < mem.Length && i >= 0
      modifies this`dol, this`dot, this`undadot, this`undkind, this`undap1, this`undap2, this`unddel
      ensures dol == newdol && undap1 == jp && undap2 == jp + i
      ensures unddel == old(if i > 0 && undap1 >= jp then undap1 + i else undap1) - 1
      ensures undkind == if old(undkind) == UNDALL then UNDALL else UNDCHANGE
      ensures undadot == if undkind == UNDALL then newadot else old(undadot)
      ensures dot == Sane(if undkind == UNDALL then old(undadot) else if i > 0 then jp else old(dot), newdol)
    {
      if i > 0 {
        if undap1 >= jp {
          undap1 := undap1 + i;
        }
        dot := jp;
      }
      unddel := undap1 - 1;
      undap1 := jp;
      undap2 := jp + i;
      dol := newdol;
      if undkind == UNDALL {
        dot := undadot;
        undadot := newadot;
      } else {
        undkind := UNDCHANGE;
      }
      CheckDot();
    }

    /** squish while the taken lines are the last ones of the buffer. */
    method SquishTaken(ghost newdol: int)
      requires Valid() && 0 <= newdol <= dol
      modifies mem, this`truedol, this`unddol
      ensures Valid() && unddol == dol
      ensures Cut(mem[..], newdol, dol, unddol, truedol) == old(Cut(mem[..], newdol, dol, unddol, truedol)).(saved := [])
    {
      CutParts(mem[..], newdol, dol, unddol, truedol);
      Squish();
      CutParts(mem[..], newdol, dol, unddol, truedol);
    }

    /** Clear the global marks of lines `addr1..addr2`. */
    method ClearMarks(addr1: int, addr2: int)
      requires Valid() && 1 <= addr1 <= addr2 <= dol
      modifies mem
      ensures View() == old(View()).(lines := UnmarkedBlock(old(View()).lines, addr1, addr2))
    {
      ghost var s := mem[..];
      var ad1 := addr1;
      while ad1 <= addr2
        invariant addr1 <= ad1 <= addr2 + 1
        invariant forall k :: 0 <= k < mem.Length ==> mem[k] == if addr1 <= k < ad1 then Unmarked(s[k]) else s[k]
      {
        mem[ad1] := Unmarked(mem[ad1]);
        ad1 := ad1 + 1;
      }
      UnmarkSlices(s, mem[..], dol, unddol, truedol, addr1, addr2);
    }

    /** move1 without the copy flag: `addr1,addr2 m addrt`.  Inside a global command a move that
        would do nothing is no error, and undo is left to that command. */
    method Move1(addr1: int, addr2: int, addrt: int, inglobal: bool) returns (r: Result)
      requires Valid() && 1 <= addr1 <= addr2 <= dol && 0 <= addrt <= dol
      modifies this, mem
      ensures Valid()
      ensures r == (if addrt + 1 == addr1 && !inglobal then Failed("That move would do nothing!")
                    else if addr1 <= addrt <= addr2 then Failed("Move to a moved line")
                    else Done)
      ensures r == Done && !inglobal ==> CanMove(|old(View()).lines|, addr1, addr2, addrt) && View() == Moved(old(View()), addr1, addr2, addrt)
      ensures r == Done && inglobal ==> CanMoveInGlobal(|old(View()).lines|, addr1, addr2, addrt)
      ensures r == Done && inglobal ==> View() == MovedInGlobal(old(View()), addr1, addr2, addrt)
      ensures r != Done ==> View() == old(View()).(lines := UnmarkedBlock(old(View()).lines, addr1, addr2))
      ensures r == Done ==> var u := UnmarkedBlock(old(View()).lines, addr1, addr2);
        View().lines ==
        (if addrt < addr1 then u[..addrt] + u[addr1 - 1..addr2] + u[addrt..addr1 - 1] + u[addr2..]
         else u[..addr1 - 1] + u[addr2..addrt] + u[addr1 - 1..addr2] + u[addrt..]) &&
        dot == if addrt < addr1 then addrt + (addr2 - addr1 + 1) else addrt
    {
      hide Slice, UnmarkedBlock, MovedLines, Parts;
      ClearMarks(addr1, addr2);
      var adt, ad1, ad2 := addrt, addr1, addr2 + 1;
      if adt < ad1 {
        if adt + 1 == ad1 && !inglobal {
          return Failed("That move would do nothing!");
        }
        if adt + 1 != ad1 {
          MoveUp(adt, ad1, ad2);
        }
        dot := adt + (ad2 - ad1);
      } else if adt >= ad2 {
        MoveDown(ad1, ad2, adt);
        dot := adt;
      } else {
        return Failed("Move to a moved line");
      }
      MovedLinesAre(UnmarkedBlock(old(View()).lines, addr1, addr2), addr1, addr2, addrt);
      if !inglobal {
        undkind := UNDMOVE;
        undap1 := addr1;
        undap2 := addr2;
        unddel := addrt;
        Squish();
      }
      return Done;
    }

    /** Lines `ad1..ad2 - 1` before the lines after `adt`. */
    method MoveUp(adt: int, ad1: int, ad2: int)
      requires Valid() && 0 <= adt && adt + 1 < ad1 < ad2 <= dol + 1
      modifies mem
      ensures View() == old(View()).(lines := MovedLines(old(View()).lines, ad1, ad2 - 1, adt))
    {
      hide Slice, MovedLines, Parts, Exchanged;
      ghost var s := mem[..];
      Rotate(adt + 1, ad1, ad2);
      MoveUpSlices(s, mem[..], dol, unddol, truedol, ad1, ad2 - 1, adt);
    }

    /** The lines after `ad1..ad2 - 1`, up to `adt`, before them. */
    method MoveDown(ad1: int, ad2: int, adt: int)
      requires Valid() && 1 <= ad1 < ad2 <= adt <= dol
      modifies mem
      ensures View() == old(View()).(lines := MovedLines(old(View()).lines, ad1, ad2 - 1, adt))
    {
      hide Slice, MovedLines, Parts, Exchanged;
      ghost var s := mem[..];
      Rotate(ad1, ad2, adt + 1);
      MoveDownSlices(s, mem[..], dol, unddol, truedol, ad1, ad2 - 1, adt);
    }

    /** somechange: is there anything to undo? */
    method SomeChange() returns (r: Result)
      requires Valid()
      ensures r == (match undkind
                    case UNDMOVE => Done
                    case UNDCHANGE => if undap1 == undap2 && View().saved == [] then Failed("Nothing changed") else Done
                    case UNDPUT => if undap1 != undap2 then Done else Failed("Nothing changed")
                    case UNDALL => if SameUnmarked(View().lines, View().saved) then Failed("Nothing changed") else Done
                    case UNDNONE => Failed("Nothing to undo"))
    {
      match undkind {
        case UNDMOVE => return Done;
        case UNDCHANGE => return if undap1 == undap2 && dol == unddol then Failed("Nothing changed") else Done;
        case UNDPUT => return if undap1 != undap2 then Done else Failed("Nothing changed");
        case UNDNONE => return Failed("Nothing to undo");
        case UNDALL =>
          LinesAt(mem[..], dol, unddol, truedol);
          if unddol - dol != dol {
            return Done;
          }
          var ip, jp := 1, dol + 1;
          while ip <= dol
            invariant 1 <= ip <= dol + 1 && jp == dol + ip
            invariant forall k :: 0 <= k < ip - 1 ==> Unmarked(View().lines[k]) == Unmarked(View().saved[k])
          {
            if Unmarked(mem[ip]) != Unmarked(mem[jp]) {
              assert View().lines[ip - 1] == mem[ip] && View().saved[ip - 1] == mem[jp];
              return Done;
            }
            ip, jp := ip + 1, jp + 1;
          }
          return Failed("Nothing changed");
      }
    }

    /** What the undo information must be like for undo to work. */
    ghost predicate CanUndo()
      requires Valid()
      reads this, mem
    {
      if undkind == UNDMOVE then CanMove(dol, undap1, undap2, unddel) else Undoable(View())
    }

    /** undo; with `c` set it does not insist on a change. */
    method Undo(c: bool) returns (r: Result)
      requires Valid() && CanUndo()
      modifies this, mem
      ensures Valid() && CanUndo()
      ensures r != Done ==> !c && View() == old(View())
      ensures r == Done && old(undkind) != UNDMOVE ==> View() == Undone(old(View()))
      ensures r == Done && old(undkind) == UNDMOVE ==> View() == UndoneMove(old(View()))
    {
      if !c {
        r := SomeChange();
        if r != Done {
          return;
        }
      }
      if undkind == UNDMOVE {
        UndoMove();
      } else {
        ghost var v := View();
        UndoChange();
        UndoneUndoable(v);
      }
      return Done;
    }

    /** The branch of undo for moves: another move. */
    method UndoMove()
      requires Valid() && undkind == UNDMOVE && CanUndo()
      modifies this, mem
      ensures Valid() && undkind == UNDMOVE && CanUndo() && View() == UndoneMove(old(View()))
    {
      hide Slice, UnmarkedBlock, MovedLines, Parts;
      InverseCanMove(dol, undap1, undap2, unddel);
      var jp, kp := unddel, undap1;
      var i := jp - undap2;
      var addr1, addr2;
      if i > 0 {
        addr2 := jp;
        jp := undap1;
        addr1 := jp + i;
        unddel := jp - 1;
      } else {
        jp := jp + 1;
        addr1 := jp;
        unddel := undap2;
        addr2 := jp + (unddel - undap1);
      }
      var r := Move1(addr1, addr2, unddel, false);
      dot := kp;
      CheckDot();
    }

    /** copyw: from the first word upwards. */
    method CopyW(to: int, from: int, size: int)
      requires size > 0 ==> 0 <= to && 0 <= from && to + size <= mem.Length && from + size <= mem.Length
      requires size > 0 ==> to <= from || from + size <= to
      modifies mem
      ensures Copied(old(mem[..]), mem[..], to, from, size)
    {
      ghost var s := mem[..];
      var i := 0;
      while i < size
        invariant 0 <= i && (size > 0 ==> i <= size) && (size <= 0 ==> i == 0)
        invariant Copied(s, mem[..], to, from, i)
      {
        mem[to + i] := mem[from + i];
        i := i + 1;
      }
    }

    /** copywR: from the last word downwards. */
    method CopyWR(to: int, from: int, size: int)
      requires size > 0 ==> 0 <= from <= to && to + size <= mem.Length
      modifies mem
      ensures Copied(old(mem[..]), mem[..], to, from, size)
    {
      ghost var s := mem[..];
      var i := size;
      while i > 0
        invariant if size > 0 then 0 <= i <= size else i == size
        invariant forall k :: 0 <= k < mem.Length && to + i <= k < to + size ==> 0 <= k - to + from < |s| && mem[k] == s[k - to + from]
        invariant forall k :: 0 <= k < mem.Length && !(to + i <= k < to + size) ==> mem[k] == s[k]
      {
        i := i - 1;
        mem[to + i] := mem[from + i];
      }
    }

    /** save: a copy of lines `a1..a2` goes to the save area. */
    method Save(a1: int, a2: int) returns (r: Result)
      requires Valid() && 1 <= a1 <= a2 + 1 && a2 <= dol
      modifies this, mem
      ensures Valid()
      ensures r == (if a2 - a1 + 1 - (old(unddol) - old(dol)) > mem.Length - 1 - old(truedol) then Failed("Out of memory") else Done)
      ensures r == Done ==> View() == Saved(old(View()), a1, a2)
      ensures r == Done ==> View().lines == old(View()).lines && View().saved == old(View()).lines[a1 - 1..a2]
      ensures r != Done ==> View() == old(View()).(kind := UNDNONE, undadot := old(dot))
    {
      undkind := UNDNONE;
      undadot := dot;
      if a2 - a1 + 1 - (unddol - dol) > mem.Length - 1 - truedol {
        return Failed("Out of memory");
      }
      SaveLines(a1, a2);
      undkind := UNDALL;
      unddel := a1 - 1;
      undap1 := a1;
      undap2 := a2 + 1;
      return Done;
    }

    /** Resize the save area, moving what comes after it, and copy the lines in. */
    method SaveLines(a1: int, a2: int)
      requires Valid() && 1 <= a1 <= a2 + 1 && a2 <= dol && a2 - a1 + 1 - (unddol - dol) <= mem.Length - 1 - truedol
      modifies mem, this`unddol, this`truedol
      ensures Valid() && View() == old(View()).(saved := Block(old(View()).lines, a1, a2 + 1))
    {
      hide Slice, Block, Parts, Copied;
      var more := a2 - a1 + 1 - (unddol - dol);
      ghost var s := mem[..];
      if more > 0 {
        CopyWR(unddol + more + 1, unddol + 1, truedol - unddol);
      } else if more < 0 {
        CopyW(unddol + more + 1, unddol + 1, truedol - unddol);
      } else {
        NothingCopied(s, unddol + more + 1, unddol + 1, truedol - unddol);
      }
      ghost var s1 := mem[..];
      CopyW(dol + 1, a1, a2 - a1 + 1);
      SaveSlices(s, s1, mem[..], dol, unddol, truedol, a1, a2);
      unddol := unddol + more;
      truedol := truedol + more;
    }

    /** The delete command. */
    method Delete(addr1: int, addr2: int) returns (r: Result)
      requires Valid() && 1 <= addr1 <= addr2 <= dol
      modifies this, mem
      ensures Valid() && r == Done && View() == NothingAppended(Deleted(old(View()), addr1, addr2), addr1)
      ensures Undoable(View()) && Undone(View()).lines == old(View()).lines
      ensures View().lines == old(View()).lines[..addr1 - 1] + old(View()).lines[addr2..]
      ensures View().saved == old(View()).lines[addr1 - 1..addr2] && dot == if addr2 < old(dol) then addr1 else addr1 - 1
    {
      ghost var v := View();
      r := ExDelete(addr1, addr2);
      AppendNone(addr1);
      DeleteThenUndo(v, addr1, addr2);
    }

    /** The append command, after line `addr2`: with `n` of the lines, all of them if there is room. */
    method AppendCommand(new_: seq<int>, addr1: int, addr2: int) returns (r: Result, n: nat)
      requires Valid() && 0 <= addr2 <= dol
      modifies this, mem
      ensures Valid() && Undoable(View()) && Undone(View()).lines == old(View()).lines
      ensures r == Done ==> View() == Appended(NothingDeleted(old(View()), addr1), addr2, new_)
      ensures n <= |new_| && (r == Done <==> n == |new_|) && dot == addr2 + n
      ensures View().lines == old(View()).lines[..addr2] + new_[..n] + old(View()).lines[addr2..]
    {
      ghost var v := View();
      DeleteNone(addr1);
      r, n := Append(new_, addr2);
      AppendThenUndo(v, addr2, addr1, new_[..n]);
      assert n == |new_| ==> new_[..n] == new_;
    }

    /** The change command. */
    method Change(new_: seq<int>, addr1: int, addr2: int) returns (r: Result, n: nat)
      requires Valid() && 1 <= addr1 <= addr2 <= dol
      modifies this, mem
      ensures Valid() && Undoable(View()) && Undone(View()).lines == old(View()).lines
      ensures r == Done ==> View() == Appended(Deleted(old(View()), addr1, addr2), addr1 - 1, new_)
      ensures n <= |new_| && (r == Done <==> n == |new_|) && dot == addr1 - 1 + n
      ensures View().lines == old(View()).lines[..addr1 - 1] + new_[..n] + old(View()).lines[addr2..]
      ensures View().saved == old(View()).lines[addr1 - 1..addr2]
    {
      hide Slice, Without, Block;
      ghost var v := View();
      var d := ExDelete(addr1, addr2);
      assert dol == |View().lines|;
      r, n := Append(new_, addr1 - 1);
      ChangeThenUndo(v, addr1, addr2, new_[..n]);
      ChangedLinesAre(v, addr1, addr2, new_[..n]);
      assert n == |new_| ==> new_[..n] == new_;
    }
  }

  // ---------------------------------------------------------------------
  // The slices that undo works on
  // ---------------------------------------------------------------------

  /** While undo is at work: lines kept, lines taken out, lines saved before, and the rest. */
  datatype Stretches = Stretches(kept: seq<int>, taken: seq<int>, saved: seq<int>, rest: seq<int>)

  ghost function Cut(m: seq<int>, newdol: int, dol: int, unddol: int, truedol: int): Stretches
    requires 0 <= newdol <= dol <= unddol <= truedol < |m|
  {
    Stretches(Slice(m, 1, newdol + 1), Slice(m, newdol + 1, dol + 1), Slice(m, dol + 1, unddol + 1), Slice(m, unddol + 1, truedol + 1))
  }

  lemma TakeOutSlices(s: seq<int>, m: seq<int>, dol: int, unddol: int, truedol: int, jp: int, kp: int)
    requires 0 <= dol <= unddol <= truedol < |s| && 1 <= jp < kp <= dol + 1 && Exchanged(s, m, jp, kp, dol + 1)
    ensures |m| == |s| && var v := Parts(s, dol, unddol, truedol);
      |v.lines| == dol &&
      Cut(m, dol - (kp - jp), dol, unddol, truedol) == Stretches(Without(v.lines, jp, kp), Block(v.lines, jp, kp), v.saved, v.rest)
  {
    hide Slice, Without, Block;
    DeletedLines(s, m, dol, jp, kp);
    SameSlice(s, dol + 1, unddol + 1, m, dol + 1, unddol + 1);
    SameSlice(s, unddol + 1, truedol + 1, m, unddol + 1, truedol + 1);
  }

  lemma PutBackSlices(s: seq<int>, m: seq<int>, newdol: int, dol: int, unddol: int, truedol: int, jp: int)
    requires 0 <= newdol <= dol < unddol <= truedol < |s| && 1 <= jp <= newdol + 1 && Exchanged(s, m, jp, dol + 1, unddol + 1)
    ensures |m| == |s| && var c := Cut(s, newdol, dol, unddol, truedol);
      var p := Parts(m, newdol + (unddol - dol), unddol, truedol);
      |c.kept| == newdol && p.lines == Inserted(c.kept, jp - 1, c.saved) && p.saved == c.taken && p.rest == c.rest
  {
    hide Slice, Inserted;
    var i := unddol - dol;
    PutBackLines(s, m, newdol, dol, unddol, jp);
    SameSlice(s, newdol + 1, dol + 1, m, newdol + i + 1, unddol + 1);
    SameSlice(s, unddol + 1, truedol + 1, m, unddol + 1, truedol + 1);
  }

  lemma UnmarkSlices(s: seq<int>, m: seq<int>, dol: int, unddol: int, truedol: int, a: int, b: int)
    requires 0 <= dol <= unddol <= truedol < |s| == |m| && 1 <= a <= b <= dol
    requires forall k :: 0 <= k < |m| ==> m[k] == if a <= k < b + 1 then Unmarked(s[k]) else s[k]
    ensures var v := Parts(s, dol, unddol, truedol); Parts(m, dol, unddol, truedol) == v.(lines := UnmarkedBlock(v.lines, a, b))
  {
    SameSlice(s, dol + 1, unddol + 1, m, dol + 1, unddol + 1);
    SameSlice(s, unddol + 1, truedol + 1, m, unddol + 1, truedol + 1);
    assert Slice(m, 1, dol + 1) == UnmarkedBlock(Slice(s, 1, dol + 1), a, b);
  }

  lemma LinesAt(m: seq<int>, dol: int, unddol: int, truedol: int)
    requires 0 <= dol <= unddol <= truedol < |m|
    ensures var v := Parts(m, dol, unddol, truedol);
      (forall k :: 0 <= k < dol ==> v.lines[k] == m[k + 1]) && forall k :: 0 <= k < unddol - dol ==> v.saved[k] == m[dol + 1 + k]
  {
  }

  lemma MoveUpSlices(s: seq<int>, m: seq<int>, dol: int, unddol: int, truedol: int, a: int, b: int, c: int)
    requires 0 <= dol <= unddol <= truedol < |s| && CanMove(dol, a, b, c) && c < a && Exchanged(s, m, c + 1, a, b + 1)
    ensures |m| == |s| && var v := Parts(s, dol, unddol, truedol); Parts(m, dol, unddol, truedol) == v.(lines := MovedLines(v.lines, a, b, c))
  {
    hide Slice, MovedLines;
    SameSlice(s, dol + 1, unddol + 1, m, dol + 1, unddol + 1);
    SameSlice(s, unddol + 1, truedol + 1, m, unddol + 1, truedol + 1);
    MoveUpLines(s, m, dol, a, b, c);
  }

  lemma MoveUpLines(s: seq<int>, m: seq<int>, dol: int, a: int, b: int, c: int)
    requires 0 <= dol < |s| && CanMove(dol, a, b, c) && c < a && Exchanged(s, m, c + 1, a, b + 1)
    ensures Slice(m, 1, dol + 1) == MovedLines(Slice(s, 1, dol + 1), a, b, c)
  {
    hide Slice, MovedLines;
    var lines := Slice(s, 1, dol + 1);
    var x, y := Slice(m, 1, dol + 1), MovedLines(lines, a, b, c);
    forall k | 0 <= k < dol ensures x[k] == y[k] {
      SliceAt(m, 1, dol + 1, k);
      MovedUpAt(lines, a, b, c, k);
      forall l | 0 <= l < dol ensures lines[l] == s[1 + l] { SliceAt(s, 1, dol + 1, l); }
    }
  }

  lemma MoveDownSlices(s: seq<int>, m: seq<int>, dol: int, unddol: int, truedol: int, a: int, b: int, c: int)
    requires 0 <= dol <= unddol <= truedol < |s| && CanMove(dol, a, b, c) && c > b && Exchanged(s, m, a, b + 1, c + 1)
    ensures |m| == |s| && var v := Parts(s, dol, unddol, truedol); Parts(m, dol, unddol, truedol) == v.(lines := MovedLines(v.lines, a, b, c))
  {
    hide Slice, MovedLines;
    SameSlice(s, dol + 1, unddol + 1, m, dol + 1, unddol + 1);
    SameSlice(s, unddol + 1, truedol + 1, m, unddol + 1, truedol + 1);
    MoveDownLines(s, m, dol, a, b, c);
  }

  lemma MoveDownLines(s: seq<int>, m: seq<int>, dol: int, a: int, b: int, c: int)
    requires 0 <= dol < |s| && CanMove(dol, a, b, c) && c > b && Exchanged(s, m, a, b + 1, c + 1)
    ensures Slice(m, 1, dol + 1) == MovedLines(Slice(s, 1, dol + 1), a, b, c)
  {
    hide Slice, MovedLines;
    var lines := Slice(s, 1, dol + 1);
    var x, y := Slice(m, 1, dol + 1), MovedLines(lines, a, b, c);
    forall k | 0 <= k < dol ensures x[k] == y[k] {
      SliceAt(m, 1, dol + 1, k);
      MovedDownAt(lines, a, b, c, k);
      forall l | 0 <= l < dol ensures lines[l] == s[1 + l] { SliceAt(s, 1, dol + 1, l); }
    }
  }

  lemma NothingCopied(s: seq<int>, to: int, from: int, size: int)
    requires to == from
    ensures Copied(s, s, to, from, size)
  {
  }

  lemma SaveSlices(s: seq<int>, s1: seq<int>, m: seq<int>, dol: int, unddol: int, truedol: int, a1: int, a2: int)
    requires 0 <= dol <= unddol <= truedol < |s| && 1 <= a1 <= a2 + 1 && a2 <= dol
    requires var more := a2 - a1 + 1 - (unddol - dol);
      more <= |s| - 1 - truedol && Copied(s, s1, unddol + more + 1, unddol + 1, truedol - unddol)
    requires Copied(s1, m, dol + 1, a1, a2 - a1 + 1)
    ensures |m| == |s| && var more, v := a2 - a1 + 1 - (unddol - dol), Parts(s, dol, unddol, truedol);
      Parts(m, dol, unddol + more, truedol + more) == v.(saved := Block(v.lines, a1, a2 + 1))
  {
    hide Slice, Block;
    var more := a2 - a1 + 1 - (unddol - dol);
    SameSlice(s, 1, dol + 1, m, 1, dol + 1);
    SameSlice(s, unddol + 1, truedol + 1, m, unddol + more + 1, truedol + more + 1);
    SameSlice(s, a1, a2 + 1, m, dol + 1, unddol + more + 1);
    BlockOfSlice(s, dol, a1, a2);
  }

  lemma BlockOfSlice(s: seq<int>, dol: int, a1: int, a2: int)
    requires 0 <= dol < |s| && 1 <= a1 <= a2 + 1 && a2 <= dol
    ensures Block(Slice(s, 1, dol + 1), a1, a2 + 1) == Slice(s, a1, a2 + 1)
  {
    var x, y := Block(Slice(s, 1, dol + 1), a1, a2 + 1), Slice(s, a1, a2 + 1);
    forall k | 0 <= k < |y| ensures x[k] == y[k] {
      BlockAt(Slice(s, 1, dol + 1), a1, a2 + 1, k);
      SliceAt(s, 1, dol + 1, a1 - 1 + k);
      SliceAt(s, a1, a2 + 1, k);
    }
  }

  lemma NothingToPutBack(m: seq<int>, newdol: int, dol: int, truedol: int)
    requires 0 <= newdol <= dol <= truedol < |m|
    ensures var c := Cut(m, newdol, dol, dol, truedol);
      var p := Parts(m, newdol, dol, truedol);
      p.lines == c.kept && p.saved == c.taken && p.rest == c.rest
  {
  }

  lemma PutBackLines(s: seq<int>, m: seq<int>, newdol: int, dol: int, unddol: int, jp: int)
    requires 0 <= newdol <= dol < unddol < |s| && 1 <= jp <= newdol + 1 && Exchanged(s, m, jp, dol + 1, unddol + 1)
    ensures |Slice(s, 1, newdol + 1)| == newdol
    ensures Slice(m, 1, newdol + (unddol - dol) + 1) == Inserted(Slice(s, 1, newdol + 1), jp - 1, Slice(s, dol + 1, unddol + 1))
  {
    var i := unddol - dol;
    var x, y := Slice(m, 1, newdol + i + 1), Inserted(Slice(s, 1, newdol + 1), jp - 1, Slice(s, dol + 1, unddol + 1));
    hide Slice, Inserted;
    var kept, saved := Slice(s, 1, newdol + 1), Slice(s, dol + 1, unddol + 1);
    forall k | 0 <= k < newdol + i ensures x[k] == y[k] {
      SliceAt(m, 1, newdol + i + 1, k);
      InsertedAt(kept, jp - 1, saved, k);
      if k < jp - 1 {
        SliceAt(s, 1, newdol + 1, k);
      } else if k < jp - 1 + i {
        SliceAt(s, dol + 1, unddol + 1, k - (jp - 1));
      } else {
        SliceAt(s, 1, newdol + 1, k - i);
      }
    }
  }

  /** The same stretches, when the lines are known as a whole. */
  lemma CutParts(m: seq<int>, newdol: int, dol: int, unddol: int, truedol: int)
    requires 0 <= newdol <= dol <= unddol <= truedol < |m|
    ensures var p := Parts(m, dol, unddol, truedol);
      |p.lines| == dol && Cut(m, newdol, dol, unddol, truedol) == Stretches(p.lines[..newdol], p.lines[newdol..], p.saved, p.rest)
  {
  }

  lemma LinesSize(m: seq<int>, dol: int, unddol: int, truedol: int)
    requires 0 <= dol <= unddol <= truedol < |m|
    ensures var p := Parts(m, dol, unddol, truedol);
      |p.lines| == dol && |p.saved| == unddol - dol && |p.rest| == truedol - unddol
  {
  }

  lemma AppendedStep(v: Buf, a: nat, new_: seq<int>, n: nat)
    requires a <= |v.lines| && n < |new_|
    ensures var w := Appended(v, a, new_[..n]);
      w.dot <= |w.lines| &&
      w.(lines := Inserted(w.lines, w.dot, [new_[n]]), dot := w.dot + 1, undap2 := w.undap2 + 1) == Appended(v, a, new_[..n + 1])
  {
    assert new_[..n + 1] == new_[..n] + [new_[n]];
  }

  /** The parts of the array after a line has been put in. */
  lemma InsertSlices(s: seq<int>, m: seq<int>, dol: int, unddol: int, truedol: int, dot: int, l: int)
    requires 1 <= dot <= dol <= unddol <= truedol < |s| == |m| && m[dot] == l
    requires forall i :: dot < i <= truedol ==> m[i] == s[i - 1]
    requires forall i :: 0 <= i < dot ==> m[i] == s[i]
    ensures var v := Parts(s, dol - 1, unddol - 1, truedol - 1);
      |v.lines| == dol - 1 && Parts(m, dol, unddol, truedol) == v.(lines := Inserted(v.lines, dot - 1, [l]))
  {
    hide Slice, Inserted;
    InsertedLine(s, m, dol, dot, l);
    SameSlice(s, dol, unddol, m, dol + 1, unddol + 1);
    SameSlice(s, unddol, truedol, m, unddol + 1, truedol + 1);
  }

  lemma InsertedLine(s: seq<int>, m: seq<int>, dol: int, dot: int, l: int)
    requires 1 <= dot <= dol < |s| == |m| && m[dot] == l
    requires forall i :: dot < i <= dol ==> m[i] == s[i - 1]
    requires forall i :: 0 <= i < dot ==> m[i] == s[i]
    ensures |Slice(s, 1, dol)| == dol - 1 && Slice(m, 1, dol + 1) == Inserted(Slice(s, 1, dol), dot - 1, [l])
  {
    var x, y := Slice(m, 1, dol + 1), Inserted(Slice(s, 1, dol), dot - 1, [l]);
    hide Slice, Inserted;
    forall k | 0 <= k < dol ensures x[k] == y[k] {
      SliceAt(m, 1, dol + 1, k);
      InsertedAt(Slice(s, 1, dol), dot - 1, [l], k);
      if k < dot - 1 {
        SliceAt(s, 1, dol, k);
      } else if k > dot - 1 {
        SliceAt(s, 1, dol, k - 1);
      }
    }
  }

  lemma SquishSlices(s: seq<int>, m: seq<int>, dol: int, unddol: int, truedol: int)
    requires 0 <= dol <= unddol <= truedol < |s| == |m| && forall k :: 0 <= k <= dol ==> m[k] == s[k]
    requires var d := unddol - dol; forall k :: dol + 1 <= k < truedol - d + 1 ==> m[k] == s[k + d]
    ensures Parts(m, dol, dol, truedol - (unddol - dol)) == Parts(s, dol, unddol, truedol).(saved := [])
  {
    hide Slice;
    SameSlice(s, 1, dol + 1, m, 1, dol + 1);
    SameSlice(s, unddol + 1, truedol + 1, m, dol + 1, truedol - (unddol - dol) + 1);
  }

  /** The parts of the array after lines `a1..a2 - 1` have been brought behind the others. */
  lemma DeleteSlices(s: seq<int>, m: seq<int>, dol: int, truedol: int, a1: int, a2: int)
    requires 1 <= a1 < a2 <= dol + 1 <= truedol + 1 <= |s| && Exchanged(s, m, a1, a2, dol + 1)
    ensures |m| == |s| && var d, v := dol - (a2 - a1), Parts(s, dol, dol, truedol);
      |v.lines| == dol && Parts(m, d, dol, truedol) == v.(lines := Without(v.lines, a1, a2), saved := Block(v.lines, a1, a2))
  {
    hide Slice, Without, Block;
    DeletedLines(s, m, dol, a1, a2);
    SameSlice(s, dol + 1, truedol + 1, m, dol + 1, truedol + 1);
  }

  lemma DeletedLines(s: seq<int>, m: seq<int>, dol: int, a1: int, a2: int)
    requires 1 <= a1 < a2 <= dol + 1 <= |s| && Exchanged(s, m, a1, a2, dol + 1)
    ensures var d, lines := dol - (a2 - a1), Slice(s, 1, dol + 1);
      |lines| == dol && Slice(m, 1, d + 1) == Without(lines, a1, a2) && Slice(m, d + 1, dol + 1) == Block(lines, a1, a2)
  {
    var d, lines := dol - (a2 - a1), Slice(s, 1, dol + 1);
    var x, y := Slice(m, 1, d + 1), Without(lines, a1, a2);
    hide Slice, Without, Block;
    forall k | 0 <= k < d ensures x[k] == y[k] {
      SliceAt(m, 1, d + 1, k);
      WithoutAt(lines, a1, a2, k);
      SliceAt(s, 1, dol + 1, if k < a1 - 1 then k else k + (a2 - a1));
    }
    var z, b := Slice(m, d + 1, dol + 1), Block(lines, a1, a2);
    forall k | 0 <= k < a2 - a1 ensures z[k] == b[k] {
      SliceAt(m, d + 1, dol + 1, k);
      BlockAt(lines, a1, a2, k);
      SliceAt(s, 1, dol + 1, a1 - 1 + k);
    }
  }
}
