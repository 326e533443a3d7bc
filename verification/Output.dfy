/** byacc/output.c, token_actions to save_column and the arrays that are written out:
    the action lists and transitions become sparse vectors, the vectors are packed,
    and the arrays mean what the action lists and transitions mean. */
module Output {
  import opened Grammars
  import opened LR0
  import opened Automata
  import opened GotoMaps
  import opened Lalr
  import opened Mkpar
  import opened Packing

  /** The numbers that symbols have in the generated parser: different non-negative
      numbers for the tokens, 0 for the end marker; nonterminals count from the goal. */
  ghost predicate ValuesOK(g: Grammar, value: seq<int>) {
    |value| == g.nsyms && g.start < g.nsyms && value[0] == 0 &&
    (forall t :: 0 <= t < g.start ==> value[t] >= 0) &&
    (forall t, u :: 0 <= t < u < g.start ==> value[t] != value[u]) &&
    (forall x :: g.start <= x < g.nsyms ==> value[x] == x - g.start - 1)
  }

  // ---------------------------------------------------------------------
  // token_actions
  // ---------------------------------------------------------------------

  /** The list keeps a shift of token `t` to state `s`. */
  ghost predicate LiveShift(row: seq<Action>, t: int, s: int) {
    exists i :: 0 <= i < |row| && row[i].suppressed == 0 && row[i].shift && row[i].symbol == t && row[i].number == s
  }

  /** The list keeps a reduction by `r` on token `t`, other than the default one. */
  ghost predicate LiveReduce(row: seq<Action>, defred: nat, t: int, r: int) {
    r != defred &&
    exists i :: 0 <= i < |row| && row[i].suppressed == 0 && !row[i].shift && row[i].symbol == t && row[i].number == r
  }

  /** The same for the rule that the parser knows by number `n`. */
  ghost predicate LiveNumber(row: seq<Action>, defred: nat, t: int, n: int) {
    LiveReduce(row, defred, t, n + 2)
  }

  /** What makes a list representable: tokens in range, numbers not 0, and at most one
      live action for each token. */
  ghost predicate Representable(row: seq<Action>, ntokens: nat) {
    (forall i :: 0 <= i < |row| ==> 0 <= row[i].symbol < ntokens && row[i].number > 0) &&
    forall i, j :: 0 <= i < j < |row| && row[i].symbol == row[j].symbol ==> row[i].suppressed != 0 || row[j].suppressed != 0
  }

  ghost function NonZero(s: seq<int>, lo: nat, hi: nat): nat
    requires lo <= hi <= |s|
  {
    if lo == hi then 0 else NonZero(s, lo, hi - 1) + (if s[hi - 1] != 0 then 1 else 0)
  }

  lemma {:induction false} NonZeroUpdate(s: seq<int>, lo: nat, hi: nat, k: nat, x: int)
    requires lo <= hi <= |s| && k < |s| && s[k] == 0 && x != 0
    ensures NonZero(s[k := x], lo, hi) == NonZero(s, lo, hi) + (if lo <= k < hi then 1 else 0)
    decreases hi
  {
    if lo < hi {
      NonZeroUpdate(s, lo, hi - 1, k, x);
    }
  }

  lemma {:induction false} NonZeroZero(s: seq<int>, lo: nat, hi: nat)
    requires lo <= hi <= |s| && forall k :: 0 <= k < |s| ==> s[k] == 0
    ensures NonZero(s, lo, hi) == 0
    decreases hi
  {
    if lo < hi {
      NonZeroZero(s, lo, hi - 1);
    }
  }

  lemma {:induction false} NonZeroMonotone(s: seq<int>, lo: nat, mid: nat, hi: nat)
    requires lo <= mid <= hi <= |s|
    ensures NonZero(s, lo, mid) <= NonZero(s, lo, hi)
    decreases hi
  {
    if mid < hi {
      NonZeroMonotone(s, lo, mid, hi - 1);
    }
  }

  /** The cell of token `t` after the first `n` actions of the list. */
  ghost predicate ShiftCell(row: seq<Action>, n: nat, t: int, c: int)
    requires n <= |row|
  {
    (c != 0 ==> LiveShift(row[..n], t, c)) && forall s :: LiveShift(row[..n], t, s) ==> c == s
  }

  ghost predicate ReduceCell(row: seq<Action>, n: nat, defred: nat, t: int, c: int)
    requires n <= |row|
  {
    (c != 0 ==> LiveReduce(row[..n], defred, t, c)) && forall r :: LiveReduce(row[..n], defred, t, r) ==> c == r
  }

  ghost predicate RowCells(row: seq<Action>, n: nat, ntokens: nat, defred: nat, cells: seq<int>)
    requires n <= |row|
  {
    |cells| == 2 * ntokens && forall t :: 0 <= t < ntokens ==>
      ShiftCell(row, n, t, cells[t]) && ReduceCell(row, n, defred, t, cells[t + ntokens])
  }

  lemma LiveStep(row: seq<Action>, n: nat, defred: nat, t: int, c: int)
    requires n < |row|
    ensures LiveShift(row[..n + 1], t, c) <==>
      LiveShift(row[..n], t, c) || (row[n].suppressed == 0 && row[n].shift && row[n].symbol == t && row[n].number == c)
    ensures LiveReduce(row[..n + 1], defred, t, c) <==>
      LiveReduce(row[..n], defred, t, c) ||
      (row[n].suppressed == 0 && !row[n].shift && row[n].symbol == t && row[n].number == c && c != defred)
  {
    var r, r' := row[..n], row[..n + 1];
    assert forall i :: 0 <= i < n ==> r[i] == r'[i];
    assert r'[n] == row[n];
  }

  /** Before the live action of a token is met, its cells are 0. */
  lemma CellsEmpty(row: seq<Action>, n: nat, ntokens: nat, defred: nat, cells: seq<int>)
    requires n < |row| && Representable(row, ntokens) && RowCells(row, n, ntokens, defred, cells) && row[n].suppressed == 0
    ensures 0 <= row[n].symbol < ntokens && cells[row[n].symbol] == 0 && cells[row[n].symbol + ntokens] == 0
  {
    var t := row[n].symbol;
    assert ShiftCell(row, n, t, cells[t]) && ReduceCell(row, n, defred, t, cells[t + ntokens]);
    forall i | 0 <= i < n && row[..n][i].symbol == t ensures row[..n][i].suppressed != 0 {
      assert row[i].symbol == row[n].symbol;
    }
  }

  lemma CellsStep(row: seq<Action>, n: nat, ntokens: nat, defred: nat, cells: seq<int>)
    requires n < |row| && Representable(row, ntokens) && RowCells(row, n, ntokens, defred, cells)
    ensures 0 <= row[n].symbol < ntokens
    ensures var t := row[n].symbol;
      RowCells(row, n + 1, ntokens, defred,
               if row[n].suppressed != 0 then cells
               else if row[n].shift then cells[t := row[n].number]
               else if row[n].number != defred then cells[t + ntokens := row[n].number]
               else cells)
  {
    var t := row[n].symbol;
    if row[n].suppressed == 0 {
      CellsEmpty(row, n, ntokens, defred, cells);
    }
    var cells' := if row[n].suppressed != 0 then cells
               else if row[n].shift then cells[t := row[n].number]
               else if row[n].number != defred then cells[t + ntokens := row[n].number]
               else cells;
    var n' := n + 1;
    forall u | 0 <= u < ntokens ensures ShiftCell(row, n', u, cells'[u]) && ReduceCell(row, n', defred, u, cells'[u + ntokens]) {
      CellStep(row, n, ntokens, defred, u, cells[u], cells[u + ntokens], cells'[u], cells'[u + ntokens]);
    }
  }

  lemma CellStep(row: seq<Action>, n: nat, ntokens: nat, defred: nat, u: int, c: int, d: int, c': int, d': int)
    requires n < |row| && (forall i :: 0 <= i < |row| ==> row[i].number > 0) && ShiftCell(row, n, u, c) && ReduceCell(row, n, defred, u, d)
    requires var hit := row[n].suppressed == 0 && row[n].symbol == u;
      (hit ==> c == 0 && d == 0) &&
      c' == (if hit && row[n].shift then row[n].number else c) &&
      d' == (if hit && !row[n].shift && row[n].number != defred then row[n].number else d)
    ensures ShiftCell(row, n + 1, u, c') && ReduceCell(row, n + 1, defred, u, d')
  {
    var n' := n + 1;
    forall s ensures LiveShift(row[..n'], u, s) <==>
      LiveShift(row[..n], u, s) || (row[n].suppressed == 0 && row[n].shift && row[n].symbol == u && row[n].number == s)
    {
      LiveStep(row, n, defred, u, s);
    }
    forall s ensures LiveReduce(row[..n'], defred, u, s) <==>
      LiveReduce(row[..n], defred, u, s) ||
      (row[n].suppressed == 0 && !row[n].shift && row[n].symbol == u && row[n].number == s && s != defred)
    {
      LiveStep(row, n, defred, u, s);
    }
    if row[n].suppressed == 0 && row[n].symbol == u {
      NoZeroNumbers(row, n, defred, u);
    }
  }

  lemma NoZeroNumbers(row: seq<Action>, n: nat, defred: nat, u: int)
    requires n <= |row| && (forall i :: 0 <= i < |row| ==> row[i].number > 0)
    ensures !LiveShift(row[..n], u, 0) && !LiveReduce(row[..n], defred, u, 0)
  {
  }

  /** The cells of a list and how many there are of each kind. */
  ghost predicate Tallied(row: seq<Action>, n: nat, ntokens: nat, defred: nat, cells: seq<int>, shiftcount: nat, reducecount: nat)
    requires n <= |row|
  {
    RowCells(row, n, ntokens, defred, cells) &&
    shiftcount == NonZero(cells, 0, ntokens) && reducecount == NonZero(cells, ntokens, 2 * ntokens)
  }

  /** The loop over one action list. */
  method FillRow(row: seq<Action>, ntokens: nat, defred: nat, actionrow: array<int>) returns (shiftcount: nat, reducecount: nat)
    requires Representable(row, ntokens) && actionrow.Length == 2 * ntokens
    modifies actionrow
    ensures Tallied(row, |row|, ntokens, defred, actionrow[..], shiftcount, reducecount)
  {
    for j := 0 to 2 * ntokens
      invariant forall k :: 0 <= k < j ==> actionrow[k] == 0
    {
      actionrow[j] := 0;
    }
    NonZeroZero(actionrow[..], 0, ntokens);
    NonZeroZero(actionrow[..], ntokens, 2 * ntokens);
    shiftcount, reducecount := 0, 0;
    for p := 0 to |row|
      invariant Tallied(row, p, ntokens, defred, actionrow[..], shiftcount, reducecount)
    {
      shiftcount, reducecount := FillNext(row, p, ntokens, defred, actionrow, shiftcount, reducecount);
    }
  }

  method FillNext(row: seq<Action>, p: nat, ntokens: nat, defred: nat, actionrow: array<int>, sc: nat, rc: nat)
    returns (shiftcount: nat, reducecount: nat)
    requires p < |row| && Representable(row, ntokens) && actionrow.Length == 2 * ntokens
    requires Tallied(row, p, ntokens, defred, actionrow[..], sc, rc)
    modifies actionrow
    ensures Tallied(row, p + 1, ntokens, defred, actionrow[..], shiftcount, reducecount)
  {
    shiftcount, reducecount := sc, rc;
    ghost var cells := actionrow[..];
    CellsStep(row, p, ntokens, defred, cells);
    if row[p].suppressed == 0 {
      CellsEmpty(row, p, ntokens, defred, cells);
      ghost var k := if row[p].shift then row[p].symbol else row[p].symbol + ntokens;
      assert row[p].number > 0;
      NonZeroUpdate(cells, 0, ntokens, k, row[p].number);
      NonZeroUpdate(cells, ntokens, 2 * ntokens, k, row[p].number);
      if row[p].shift {
        shiftcount := shiftcount + 1;
        actionrow[row[p].symbol] := row[p].number;
        assert actionrow[..] == cells[row[p].symbol := row[p].number];
      } else if row[p].number != defred {
        reducecount := reducecount + 1;
        actionrow[row[p].symbol + ntokens] := row[p].number;
        assert actionrow[..] == cells[row[p].symbol + ntokens := row[p].number];
      }
    }
  }

  const MAXSHORT := 32767

  /** The vector lists the non-zero ones of `n` cells from `lo` on, under the values of
      their tokens. */
  ghost predicate ListsCells(cells: seq<int>, lo: nat, n: nat, value: seq<int>, delta: int, v: Vector)
    requires lo + n <= |cells| && n <= |value|
  {
    forall key, val :: Entry(v, key, val) <==> CellEntry(cells, lo, n, value, delta, key, val)
  }

  ghost predicate CellEntry(cells: seq<int>, lo: nat, n: nat, value: seq<int>, delta: int, key: int, val: int)
    requires lo + n <= |cells| && n <= |value|
  {
    exists t :: 0 <= t < n && value[t] == key && cells[lo + t] != 0 && val == cells[lo + t] - delta
  }

  /** The vector as filled from the first `n` cells: `idx` names the tokens. */
  ghost predicate Filled(cells: seq<int>, lo: nat, n: nat, value: seq<int>, delta: int, from: seq<int>, to: seq<int>, idx: seq<int>)
    requires lo + n <= |cells| && n <= |value|
  {
    |from| == |to| == |idx| &&
    (forall k :: 0 <= k < |idx| ==> 0 <= idx[k] < n && cells[lo + idx[k]] != 0) &&
    (forall k :: 0 <= k < |idx| ==> 0 <= idx[k] < n && from[k] == value[idx[k]] && to[k] == cells[lo + idx[k]] - delta) &&
    (forall k, l :: 0 <= k < l < |idx| ==> idx[k] < idx[l]) &&
    forall t :: 0 <= t < n && cells[lo + t] != 0 ==> t in idx
  }

  /** One half of token_actions for a state: copy the non-zero cells out.  The arrays are
      allocated for exactly as many entries as are written. */
  method CopyCells(actionrow: array<int>, lo: nat, n: nat, count: nat, value: seq<int>, delta: int) returns (v: Vector)
    requires lo + n <= actionrow.Length && n <= |value| && count == NonZero(actionrow[..], lo, lo + n)
    requires (forall t :: 0 <= t < n ==> value[t] >= 0) && forall t, u :: 0 <= t < u < n ==> value[t] != value[u]
    ensures VectorOK(v) && Tally(v) == count && ListsCells(actionrow[..], lo, n, value, delta, v)
  {
    ghost var cells := actionrow[..];
    ghost var idx: seq<int> := [];
    var r := new int[count];
    var s := new int[count];
    var k := 0;
    var min, max := MAXSHORT, 0;
    for j := 0 to n
      invariant actionrow[..] == cells && k == NonZero(cells, lo, lo + j) <= count
      invariant Filled(cells, lo, j, value, delta, r[..k], s[..k], idx)
    {
      NonZeroMonotone(cells, lo, lo + j + 1, lo + n);
      if actionrow[lo + j] != 0 {
        if min > value[j] {
          min := value[j];
        }
        if max < value[j] {
          max := value[j];
        }
        FilledStep(cells, lo, j, value, delta, r[..k], s[..k], idx);
        ghost var rs, ss := r[..k], s[..k];
        r[k] := value[j];
        s[k] := actionrow[lo + j] - delta;
        k := k + 1;
        idx := idx + [j];
        assert r[..k] == rs + [value[j]] && s[..k] == ss + [cells[lo + j] - delta];
      } else {
        FilledSkip(cells, lo, j, value, delta, r[..k], s[..k], idx);
      }
    }
    v := Vector(r[..], s[..], if count > 0 then max - min + 1 else 0);
    assert r[..k] == r[..] && s[..k] == s[..];
    FilledLists(cells, lo, n, value, delta, v, idx);
  }

  lemma FilledStep(cells: seq<int>, lo: nat, n: nat, value: seq<int>, delta: int, from: seq<int>, to: seq<int>, idx: seq<int>)
    requires lo + n < |cells| && n < |value| && cells[lo + n] != 0 && Filled(cells, lo, n, value, delta, from, to, idx)
    ensures Filled(cells, lo, n + 1, value, delta, from + [value[n]], to + [cells[lo + n] - delta], idx + [n])
  {
    var idx' := idx + [n];
    forall t | 0 <= t < n + 1 && cells[lo + t] != 0 ensures t in idx' {
      if t == n { assert idx'[|idx|] == n; }
    }
  }

  lemma FilledSkip(cells: seq<int>, lo: nat, n: nat, value: seq<int>, delta: int, from: seq<int>, to: seq<int>, idx: seq<int>)
    requires lo + n < |cells| && n < |value| && cells[lo + n] == 0 && Filled(cells, lo, n, value, delta, from, to, idx)
    ensures Filled(cells, lo, n + 1, value, delta, from, to, idx)
  {
  }

  lemma FilledLists(cells: seq<int>, lo: nat, n: nat, value: seq<int>, delta: int, v: Vector, idx: seq<int>)
    requires lo + n <= |cells| && n <= |value| && Filled(cells, lo, n, value, delta, v.from, v.to, idx)
    requires (forall t :: 0 <= t < n ==> value[t] >= 0) && forall t, u :: 0 <= t < u < n ==> value[t] != value[u]
    ensures VectorOK(v) && ListsCells(cells, lo, n, value, delta, v)
  {
    forall k, l | 0 <= k < l < |v.from| ensures v.from[k] != v.from[l] {
      assert idx[k] < idx[l];
    }
    forall key, val ensures Entry(v, key, val) <==> CellEntry(cells, lo, n, value, delta, key, val) {
      if Entry(v, key, val) {
        var k :| 0 <= k < |v.from| && v.from[k] == key && v.to[k] == val;
        assert value[idx[k]] == key;
      }
      if CellEntry(cells, lo, n, value, delta, key, val) {
        var t :| 0 <= t < n && value[t] == key && cells[lo + t] != 0 && val == cells[lo + t] - delta;
        assert t in idx;
        var k :| 0 <= k < |idx| && idx[k] == t;
        assert v.from[k] == key && v.to[k] == val;
      }
    }
  }

  /** The row of shifts of a state: its live shifts under the values of their tokens. */
  ghost predicate ShiftVector(g: Grammar, value: seq<int>, row: seq<Action>, v: Vector)
    requires g.start <= |value|
  {
    forall key, val :: Entry(v, key, val) <==> exists t :: 0 <= t < g.start && value[t] == key && LiveShift(row, t, val)
  }

  /** The row of reductions: live reductions other than the default, by numbers that
      count rules from 2. */
  ghost predicate ReduceVector(g: Grammar, value: seq<int>, row: seq<Action>, defred: nat, v: Vector)
    requires g.start <= |value|
  {
    forall key, val :: Entry(v, key, val) <==> exists t :: 0 <= t < g.start && value[t] == key && LiveNumber(row, defred, t, val)
  }

  /** token_actions for one state. */
  method RowVectors(g: Grammar, value: seq<int>, row: seq<Action>, defred: nat, actionrow: array<int>)
    returns (shifts: Vector, reduces: Vector)
    requires ValuesOK(g, value) && Representable(row, g.start) && actionrow.Length == 2 * g.start
    modifies actionrow
    ensures VectorOK(shifts) && ShiftVector(g, value, row, shifts)
    ensures VectorOK(reduces) && ReduceVector(g, value, row, defred, reduces)
  {
    var n := g.start;
    var shiftcount, reducecount := FillRow(row, n, defred, actionrow);
    shifts := CopyCells(actionrow, 0, n, shiftcount, value, 0);
    reduces := CopyCells(actionrow, n, n, reducecount, value, 2);
    CellsAreShifts(g, value, row, defred, actionrow[..], shifts);
    CellsAreReduces(g, value, row, defred, actionrow[..], reduces);
  }

  lemma CellsAreShifts(g: Grammar, value: seq<int>, row: seq<Action>, defred: nat, cells: seq<int>, v: Vector)
    requires g.start <= |value| && Representable(row, g.start) && RowCells(row, |row|, g.start, defred, cells)
    requires ListsCells(cells, 0, g.start, value, 0, v)
    ensures ShiftVector(g, value, row, v)
  {
    var n := g.start;
    assert row[..|row|] == row;
    forall key, val ensures Entry(v, key, val) <==> exists t :: 0 <= t < n && value[t] == key && LiveShift(row, t, val) {
      assert Entry(v, key, val) <==> CellEntry(cells, 0, n, value, 0, key, val);
      if CellEntry(cells, 0, n, value, 0, key, val) {
        var t :| 0 <= t < n && value[t] == key && cells[0 + t] != 0 && val == cells[0 + t] - 0;
        assert ShiftCell(row, |row|, t, cells[t]);
        assert LiveShift(row, t, val);
      }
      if t :| 0 <= t < n && value[t] == key && LiveShift(row, t, val) {
        assert ShiftCell(row, |row|, t, cells[t]);
        assert cells[0 + t] == val != 0;
      }
    }
  }

  lemma CellsAreReduces(g: Grammar, value: seq<int>, row: seq<Action>, defred: nat, cells: seq<int>, v: Vector)
    requires g.start <= |value| && Representable(row, g.start) && RowCells(row, |row|, g.start, defred, cells)
    requires ListsCells(cells, g.start, g.start, value, 2, v)
    ensures ReduceVector(g, value, row, defred, v)
  {
    var n := g.start;
    assert row[..|row|] == row;
    forall key, val ensures Entry(v, key, val) <==> exists t :: 0 <= t < n && value[t] == key && LiveNumber(row, defred, t, val) {
      assert Entry(v, key, val) <==> CellEntry(cells, n, n, value, 2, key, val);
      if CellEntry(cells, n, n, value, 2, key, val) {
        var t :| 0 <= t < n && value[t] == key && cells[n + t] != 0 && val == cells[n + t] - 2;
        assert ReduceCell(row, |row|, defred, t, cells[t + n]);
        assert LiveNumber(row, defred, t, val);
      }
      if t :| 0 <= t < n && value[t] == key && LiveNumber(row, defred, t, val) {
        assert ReduceCell(row, |row|, defred, t, cells[t + n]);
        assert cells[n + t] == val + 2 != 0;
      }
    }
  }

  // ---------------------------------------------------------------------
  // default_goto and save_column
  // ---------------------------------------------------------------------

  /** How many of the transitions `m..n` enter state `q`. */
  ghost function Entering(to: seq<nat>, m: nat, n: nat, q: nat): nat
    requires m <= n <= |to|
  {
    if m == n then 0 else Entering(to, m, n - 1, q) + (if to[n - 1] == q then 1 else 0)
  }

  lemma {:induction false} SomeEnters(to: seq<nat>, m: nat, n: nat, q: nat)
    requires m <= n <= |to| && Entering(to, m, n, q) > 0
    ensures exists i :: m <= i < n && to[i] == q
    decreases n
  {
    if to[n - 1] != q {
      SomeEnters(to, m, n - 1, q);
    }
  }

  ghost predicate Counts(to: seq<nat>, m: nat, n: nat, counts: seq<nat>)
    requires m <= n <= |to|
  {
    forall q :: 0 <= q < |counts| ==> counts[q] == Entering(to, m, n, q)
  }

  /** The target that most transitions on a nonterminal enter, or 0 without any. */
  method DefaultGoto(to: seq<nat>, m: nat, n: nat, stateCount: array<nat>) returns (defaultState: nat)
    requires m <= n <= |to| && forall i :: m <= i < n ==> to[i] < stateCount.Length
    modifies stateCount
    ensures m == n ==> defaultState == 0
    ensures m < n ==> exists i :: m <= i < n && to[i] == defaultState
    ensures forall q :: 0 <= q < stateCount.Length ==> Entering(to, m, n, q) <= Entering(to, m, n, defaultState)
  {
    if m == n {
      return 0;
    }
    for i := 0 to stateCount.Length
      invariant forall k :: 0 <= k < i ==> stateCount[k] == 0
    {
      stateCount[i] := 0;
    }
    for i := m to n
      invariant Counts(to, m, i, stateCount[..])
    {
      ghost var before := stateCount[..];
      stateCount[to[i]] := stateCount[to[i]] + 1;
      assert stateCount[..] == before[to[i] := before[to[i]] + 1];
    }
    ghost var counts := stateCount[..];
    var max := 0;
    defaultState := 0;
    for i := 0 to stateCount.Length
      invariant stateCount[..] == counts
      invariant max == 0 || (defaultState < stateCount.Length && counts[defaultState] == max)
      invariant max >= 0 && forall q :: 0 <= q < i ==> counts[q] <= max
    {
      assert stateCount[i] == counts[i];
      if stateCount[i] > max {
        max := stateCount[i];
        defaultState := i;
      }
    }
    assert counts[to[n - 1]] == Entering(to, m, n, to[n - 1]) > 0;
    SomeEnters(to, m, n, defaultState);
  }

  /** The sources, or targets, of the transitions `m..n` that do not enter `d`. */
  function Others(to: seq<nat>, m: nat, n: nat, d: nat, what: seq<nat>): (s: seq<int>)
    requires m <= n <= |to| && |what| == |to|
  {
    if m == n then [] else Others(to, m, n - 1, d, what) + (if to[n - 1] != d then [what[n - 1]] else [])
  }

  lemma {:induction false} OthersSize(to: seq<nat>, m: nat, n: nat, d: nat, what: seq<nat>, what': seq<nat>)
    requires m <= n <= |to| && |what| == |what'| == |to|
    ensures |Others(to, m, n, d, what)| == |Others(to, m, n, d, what')|
    decreases n
  {
    if m < n { OthersSize(to, m, n - 1, d, what, what'); }
  }

  lemma {:induction false} OthersMonotone(to: seq<nat>, m: nat, k: nat, n: nat, d: nat, what: seq<nat>)
    requires m <= k <= n <= |to| && |what| == |to|
    ensures |Others(to, m, k, d, what)| <= |Others(to, m, n, d, what)|
    decreases n
  {
    if k < n { OthersMonotone(to, m, k, n - 1, d, what); }
  }

  /** Entry `e` of the two lists comes from one transition. */
  lemma {:induction false} OthersEntry(from: seq<nat>, to: seq<nat>, m: nat, n: nat, d: nat, e: nat) returns (i: nat)
    requires m <= n <= |to| == |from| && e < |Others(to, m, n, d, from)|
    ensures e < |Others(to, m, n, d, to)| && m <= i < n && to[i] != d
    ensures Others(to, m, n, d, from)[e] == from[i] && Others(to, m, n, d, to)[e] == to[i]
    decreases n
  {
    OthersSize(to, m, n - 1, d, from, to);
    if e < |Others(to, m, n - 1, d, from)| {
      i := OthersEntry(from, to, m, n - 1, d, e);
    } else {
      i := n - 1;
    }
  }

  lemma {:induction false} OthersHas(from: seq<nat>, to: seq<nat>, m: nat, n: nat, d: nat, i: nat) returns (e: nat)
    requires m <= i < n <= |to| == |from| && to[i] != d
    ensures e < |Others(to, m, n, d, from)| == |Others(to, m, n, d, to)|
    ensures Others(to, m, n, d, from)[e] == from[i] && Others(to, m, n, d, to)[e] == to[i]
    decreases n
  {
    OthersSize(to, m, n, d, from, to);
    OthersSize(to, m, n - 1, d, from, to);
    if i < n - 1 {
      e := OthersHas(from, to, m, n - 1, d, i);
    } else {
      e := |Others(to, m, n - 1, d, from)|;
    }
  }

  /** The column of a nonterminal: its transitions that do not enter the default. */
  ghost predicate ColumnVector(a: Automaton, x: int, d: nat, v: Vector) {
    forall key, val :: Entry(v, key, val) <==> ColumnEntry(a, x, d, key, val)
  }

  ghost predicate ColumnEntry(a: Automaton, x: int, d: nat, key: int, val: int) {
    0 <= key < |a.states| && HasGoto(a, key, x) && val == Goto(a, key, x) != d
  }

  /** save_column */
  method SaveColumn(from: seq<nat>, to: seq<nat>, m: nat, n: nat, d: nat) returns (v: Vector)
    requires m <= n <= |to| == |from|
    ensures v.from == Others(to, m, n, d, from) && v.to == Others(to, m, n, d, to)
  {
    var count := 0;
    for i := m to n
      invariant count == |Others(to, m, i, d, from)|
    {
      if to[i] != d {
        count := count + 1;
      }
    }
    if count == 0 {
      OthersSize(to, m, n, d, from, to);
      return Vector([], [], 0);
    }
    var sp1 := new int[count];
    var sp2 := new int[count];
    var k := 0;
    for i := m to n
      invariant k == |Others(to, m, i, d, from)| <= count
      invariant sp1[..k] == Others(to, m, i, d, from) && sp2[..k] == Others(to, m, i, d, to)
    {
      OthersMonotone(to, m, i + 1, n, d, from);
      if to[i] != d {
        ghost var fs, ts := sp1[..k], sp2[..k];
        sp1[k] := from[i];
        sp2[k] := to[i];
        k := k + 1;
        assert sp1[..k] == fs + [from[i]] && sp2[..k] == ts + [to[i]];
      }
    }
    assert sp1[..k] == sp1[..] && sp2[..k] == sp2[..];
    v := Vector(sp1[..], sp2[..], sp1[count - 1] - sp1[0] + 1);
  }

  lemma ColumnIsVector(g: Grammar, a: Automaton, m: GotoMap, x: nat, d: nat, v: Vector)
    requires IsLR0(g, a) && GotoMapOK(g, a, m) && g.start <= x < g.nsyms
    requires var k, l := m.start[x - g.start], m.start[x - g.start + 1];
      k <= l <= |m.to| && v.from == Others(m.to, k, l, d, m.from) && v.to == Others(m.to, k, l, d, m.to)
    ensures VectorOK(v) && ColumnVector(a, x, d, v)
  {
    var k, l := m.start[x - g.start], m.start[x - g.start + 1];
    OthersSize(m.to, k, l, d, m.from, m.to);
    forall e | 0 <= e < |v.from| ensures v.from[e] >= 0 {
      var i := OthersEntry(m.from, m.to, k, l, d, e);
    }
    forall e, f | 0 <= e < f < |v.from| ensures v.from[e] != v.from[f] {
      OthersAscend(g, a, m, x - g.start, l, d, e, f);
    }
    forall key, val ensures Entry(v, key, val) <==> ColumnEntry(a, x, d, key, val) {
      if Entry(v, key, val) {
        var e :| 0 <= e < |v.from| && v.from[e] == key && v.to[e] == val;
        var i := OthersEntry(m.from, m.to, k, l, d, e);
        TransitionInBlock(g, a, m, x, i);
      }
      if ColumnEntry(a, x, d, key, val) {
        var i := BlockHas(g, a, m, x, key);
        var e := OthersHas(m.from, m.to, k, l, d, i);
      }
    }
  }

  lemma {:induction false} OthersAscend(g: Grammar, a: Automaton, m: GotoMap, v: nat, n: nat, d: nat, e: nat, f: nat)
    requires IsLR0(g, a) && GotoMapOK(g, a, m) && v < g.nsyms - g.start
    requires m.start[v] <= n <= m.start[v + 1] <= |m.to|
    requires e < f < |Others(m.to, m.start[v], n, d, m.from)|
    ensures Others(m.to, m.start[v], n, d, m.from)[e] < Others(m.to, m.start[v], n, d, m.from)[f]
    decreases n
  {
    var k := m.start[v];
    if f < |Others(m.to, k, n - 1, d, m.from)| {
      OthersAscend(g, a, m, v, n - 1, d, e, f);
    } else {
      var i := OthersEntry(m.from, m.to, k, n - 1, d, e);
      BlockAscending(g, a, m, v, i, n - 1);
    }
  }

  lemma TransitionInBlock(g: Grammar, a: Automaton, m: GotoMap, x: nat, i: nat)
    requires IsLR0(g, a) && GotoMapOK(g, a, m) && g.start <= x < g.nsyms
    requires m.start[x - g.start] <= i < m.start[x - g.start + 1] && i < |m.from|
    ensures m.from[i] < |a.states| && HasGoto(a, m.from[i], x) && m.to[i] == Goto(a, m.from[i], x)
  {
    var p, y := GotoOfIndex(g, a, m, i);
    SameBlock(g, a, m, x - g.start, i, p, y);
  }

  lemma BlockHas(g: Grammar, a: Automaton, m: GotoMap, x: nat, p: nat) returns (i: nat)
    requires IsLR0(g, a) && GotoMapOK(g, a, m) && g.start <= x < g.nsyms && p < |a.states| && HasGoto(a, p, x)
    ensures m.start[x - g.start] <= i < m.start[x - g.start + 1] && i < |m.from|
    ensures m.from[i] == p && m.to[i] == Goto(a, p, x)
  {
    i := GotoIndex(g, a, p, x);
    GotoIndexInjective(g, a, p, x, p, x);
    assert Recorded(g, a, m.from, m.to, p, x);
    assert m.start[x - g.start] == Start(g, a, x - g.start) && m.start[x - g.start + 1] == Start(g, a, x - g.start + 1);
  }

  lemma BlockInside(g: Grammar, a: Automaton, m: GotoMap, v: nat)
    requires IsLR0(g, a) && GotoMapOK(g, a, m) && v < g.nsyms - g.start
    ensures m.start[v] <= m.start[v + 1] <= |m.to| == |m.from|
  {
    StartBound(g, a, v + 1);
  }

  // ---------------------------------------------------------------------
  // All vectors
  // ---------------------------------------------------------------------

  lemma RowRepresentable(g: Grammar, a: Automaton, pr: Precedence, t: Reductions, la: seq<set<nat>>, final: nat, q: nat, row: seq<Action>)
    requires IsLR0(g, a) && q < |a.states| && PrecedenceFor(g, pr) && |la| == |t.ruleno| && ReductionsNumbered(a, t)
    requires FinalRow(g, a, pr, t, la, final, q, row)
    ensures Representable(row, g.start)
  {
    LiveRules(g, a, pr, t, la, final, q, row);
    var was :| IsActionRow(g, a, pr, t, la, q, was) && Resolves(was, q == final, row);
    RowIsOK(g, a, pr, t, la, q, was);
    forall i | 0 <= i < |row| ensures 0 <= row[i].symbol < g.start && row[i].number > 0 {
      assert row[i] in row;
      if row[i].shift {
        GotoOK(g, a, q, row[i].symbol);
      }
    }
    forall i, j | 0 <= i < j < |row| && row[i].symbol == row[j].symbol ensures row[i].suppressed != 0 || row[j].suppressed != 0 {
      AtMostOneKept(was, q == final, row, i, j);
    }
  }

  const EMPTY := Vector([], [], 0)

  ghost predicate RowPair(g: Grammar, value: seq<int>, p: ParserRows, q: nat, shifts: Vector, reduces: Vector)
    requires g.start <= |value| && q < |p.rows| == |p.defred|
  {
    VectorOK(shifts) && ShiftVector(g, value, p.rows[q], shifts) &&
    VectorOK(reduces) && ReduceVector(g, value, p.rows[q], p.defred[q], reduces)
  }

  lemma EmptyRow(g: Grammar, value: seq<int>, defred: nat)
    requires g.start <= |value|
    ensures VectorOK(EMPTY) && ShiftVector(g, value, [], EMPTY) && ReduceVector(g, value, [], defred, EMPTY)
  {
  }

  /** token_actions */
  method TokenActions(g: Grammar, value: seq<int>, p: ParserRows, vectors: array<Vector>)
    requires ValuesOK(g, value) && |p.rows| == |p.defred| && 2 * |p.rows| <= vectors.Length
    requires forall q :: 0 <= q < |p.rows| ==> Representable(p.rows[q], g.start)
    modifies vectors
    ensures forall q :: 0 <= q < |p.rows| ==> RowPair(g, value, p, q, vectors[q], vectors[|p.rows| + q])
    ensures forall i :: 2 * |p.rows| <= i < vectors.Length ==> vectors[i] == old(vectors[i])
  {
    var n := |p.rows|;
    var actionrow := new int[2 * g.start];
    for i := 0 to n
      invariant forall q :: 0 <= q < i ==> RowPair(g, value, p, q, vectors[q], vectors[n + q])
      invariant forall i :: 2 * n <= i < vectors.Length ==> vectors[i] == old(vectors[i])
    {
      EmptyRow(g, value, p.defred[i]);
      var shifts, reduces := EMPTY, EMPTY;
      if p.rows[i] != [] {
        shifts, reduces := RowVectors(g, value, p.rows[i], p.defred[i], actionrow);
      }
      vectors[i] := shifts;
      vectors[n + i] := reduces;
    }
  }

  /** Column `c` belongs to the nonterminal with value `c`. */
  ghost predicate Column(g: Grammar, a: Automaton, c: nat, d: int, v: Vector) {
    d >= 0 && VectorOK(v) && ColumnVector(a, g.start + 1 + c, d, v)
  }

  /** The column of nonterminal `x`. */
  method GotoColumn(g: Grammar, a: Automaton, m: GotoMap, x: nat, stateCount: array<nat>) returns (d: int, v: Vector)
    requires IsLR0(g, a) && GotoMapOK(g, a, m) && g.start < x < g.nsyms && stateCount.Length == |a.states|
    modifies stateCount
    ensures Column(g, a, x - g.start - 1, d, v)
  {
    var k, l := m.start[x - g.start], m.start[x - g.start + 1];
    BlockInside(g, a, m, x - g.start);
    TargetsInRange(g, a, m, x);
    d := DefaultGoto(m.to, k, l, stateCount);
    v := SaveColumn(m.from, m.to, k, l, d);
    ColumnIsVector(g, a, m, x, d, v);
  }

  /** goto_actions: the columns and the default targets. */
  method GotoActions(g: Grammar, a: Automaton, m: GotoMap, value: seq<int>, vectors: array<Vector>) returns (dgoto: seq<int>)
    requires IsLR0(g, a) && GotoMapOK(g, a, m) && ValuesOK(g, value) && vectors.Length == 2 * |a.states| + (g.nsyms - g.start)
    modifies vectors
    ensures |dgoto| == g.nsyms - g.start - 1
    ensures forall c :: 0 <= c < |dgoto| ==> Column(g, a, c, dgoto[c], vectors[2 * |a.states| + c])
    ensures forall i :: 0 <= i < 2 * |a.states| ==> vectors[i] == old(vectors[i])
    ensures vectors[2 * |a.states| + |dgoto|] == old(vectors[2 * |a.states| + (g.nsyms - g.start - 1)])
  {
    var n := |a.states|;
    hide IsLR0, GotoMapOK, Column;
    var stateCount := new nat[n];
    dgoto := [];
    for i := g.start + 1 to g.nsyms
      invariant |dgoto| == i - g.start - 1
      invariant forall c :: 0 <= c < |dgoto| ==> Column(g, a, c, dgoto[c], vectors[2 * n + c])
      invariant forall i :: 0 <= i < 2 * n ==> vectors[i] == old(vectors[i])
      invariant vectors[2 * n + (g.nsyms - g.start - 1)] == old(vectors[2 * n + (g.nsyms - g.start - 1)])
    {
      var d, v := GotoColumn(g, a, m, i, stateCount);
      vectors[2 * n + value[i]] := v;
      dgoto := dgoto + [d];
    }
  }

  lemma TargetsInRange(g: Grammar, a: Automaton, m: GotoMap, x: nat)
    requires IsLR0(g, a) && GotoMapOK(g, a, m) && g.start <= x < g.nsyms && m.start[x - g.start + 1] <= |m.to|
    ensures forall i :: m.start[x - g.start] <= i < m.start[x - g.start + 1] ==> m.to[i] < |a.states|
  {
    forall i | m.start[x - g.start] <= i < m.start[x - g.start + 1] ensures m.to[i] < |a.states| {
      TransitionInBlock(g, a, m, x, i);
    }
  }

  // ---------------------------------------------------------------------
  // Packing all vectors
  // ---------------------------------------------------------------------

  /** The probe through a vector's displacement answers exactly its entries. */
  ghost predicate FindsVector(v: Vector, base: int, table: seq<int>, check: seq<int>, high: nat)
    requires high < |check| == |table|
  {
    forall key, val :: key >= 0 ==> (Probe(base, key, table, check, high) == Value(val) <==> Entry(v, key, val))
  }

  /** sort_actions, pack_table, and the arrays as output_base, output_table and
      output_check write them. */
  method PackVectors(vectors: seq<Vector>, nrows: nat) returns (base: seq<int>, table: seq<int>, check: seq<int>, high: nat)
    requires forall i :: 0 <= i < |vectors| ==> VectorOK(vectors[i])
    ensures |base| == |vectors| && |table| == |check| == high + 1
    ensures forall i :: 0 <= i < |vectors| ==> FindsVector(vectors[i], base[i], table, check, high)
  {
    var order := SortActions(vectors);
    var pk := new Packer(vectors, order, nrows);
    pk.PackTable();
    base, high := pk.base[..], pk.high;
    table, check := pk.table[..high + 1], pk.check[..high + 1];
    forall i | 0 <= i < |vectors| ensures FindsVector(vectors[i], base[i], table, check, high) {
      BaseFinds(vectors, order, pk.pos[..], base, pk.table, pk.check, high, i);
    }
  }

  lemma BaseFinds(vectors: seq<Vector>, order: seq<nat>, pos: seq<int>, base: seq<int>, table: seq<int>, check: seq<int>, high: nat, i: nat)
    requires Plan(vectors, order) && Packed(vectors, order, pos, |order|, table, check, high) && i < |vectors| == |base|
    requires |pos| == |order| && forall k :: 0 <= k < |order| ==> order[k] < |vectors| && base[order[k]] == pos[k]
    requires i !in order ==> base[i] == 0
    ensures FindsVector(vectors[i], base[i], table[..high + 1], check[..high + 1], high)
  {
    forall key, val | key >= 0
      ensures Probe(base[i], key, table[..high + 1], check[..high + 1], high) == Value(val) <==> Entry(vectors[i], key, val)
    {
      if i in order {
        var k: nat :| k < |order| && order[k] == i;
        ProbeFindsExactly(vectors, order, pos, |order|, table, check, high, k, key, val);
      } else {
        assert Tally(vectors[i]) == 0;
      }
    }
  }

  // ---------------------------------------------------------------------
  // The arrays of the generated parser
  // ---------------------------------------------------------------------

  /** yylhs, yylen, yydefred, yydgoto, yysindex, yyrindex, yygindex, yytable, yycheck,
      YYTABLESIZE, YYFINAL and YYERRCODE. */
  datatype Tables = Tables(lhs: seq<int>, len: seq<int>, defred: seq<int>, dgoto: seq<int>,
                           sindex: seq<int>, rindex: seq<int>, gindex: seq<int>,
                           table: seq<int>, check: seq<int>, high: nat, final: nat, errcode: int)
  {
    function ShiftAt(q: nat, key: int): Found
      requires q < |sindex| && high < |check| == |table|
    {
      Probe(sindex[q], key, table, check, high)
    }

    function ReduceAt(q: nat, key: int): Found
      requires q < |rindex| && high < |check| == |table|
    {
      Probe(rindex[q], key, table, check, high)
    }

    /** The goto of state `q` on the nonterminal with value `x`. */
    function GotoAt(q: nat, x: nat): int
      requires x < |gindex| && x < |dgoto| && high < |check| == |table|
    {
      match Probe(gindex[x], q, table, check, high)
      case Value(s) => s
      case Nothing => dgoto[x]
    }
  }

  /** Rules are numbered from 2 in byacc and from 0 in the parser; 0 also stands for no
      default reduction. */
  function RuleNumber(r: int): int {
    if r != 0 then r - 2 else 0
  }

  ghost predicate Sizes(g: Grammar, n: nat, tb: Tables) {
    g.start < g.nsyms && g.nrules >= 2 &&
    |tb.sindex| == |tb.rindex| == |tb.defred| == n && |tb.gindex| == |tb.dgoto| == g.nsyms - g.start - 1 &&
    |tb.lhs| == |tb.len| == g.nrules - 2 && |tb.table| == |tb.check| == tb.high + 1
  }

  /** The arrays for state `q` mean what its action list means. */
  ghost predicate StateRefines(g: Grammar, value: seq<int>, p: ParserRows, tb: Tables, q: nat)
    requires Sizes(g, |p.rows|, tb) && g.start <= |value| && q < |p.rows| == |p.defred|
  {
    tb.defred[q] == RuleNumber(p.defred[q]) &&
    (forall key, s :: key >= 0 ==> (tb.ShiftAt(q, key) == Value(s) <==>
      exists t :: 0 <= t < g.start && value[t] == key && LiveShift(p.rows[q], t, s))) &&
    (forall key, n :: key >= 0 ==> (tb.ReduceAt(q, key) == Value(n) <==>
      exists t :: 0 <= t < g.start && value[t] == key && LiveNumber(p.rows[q], p.defred[q], t, n)))
  }

  ghost predicate GotosRefine(g: Grammar, a: Automaton, tb: Tables)
    requires Sizes(g, |a.states|, tb)
  {
    forall q, c :: 0 <= q < |a.states| && 0 <= c < |tb.dgoto| && HasGoto(a, q, g.start + 1 + c) ==>
      tb.GotoAt(q, c) == Goto(a, q, g.start + 1 + c)
  }

  ghost predicate RuleDataOK(g: Grammar, tb: Tables)
    requires g.WellFormed()
  {
    |tb.lhs| == |tb.len| == g.nrules - 2 && forall r: nat :: 2 <= r < g.nrules ==> RuleDatum(g, tb, r)
  }

  ghost predicate RuleDatum(g: Grammar, tb: Tables, r: nat)
    requires g.WellFormed() && 2 <= r < g.nrules && |tb.lhs| == |tb.len| == g.nrules - 2
  {
    tb.lhs[r - 2] == g.rlhs[r] - g.start - 1 && tb.len[r - 2] == (if r == 2 then 2 else |g.Rhs(r)|)
  }

  /** The packed arrays refine the action lists, the transitions and the rules. */
  ghost predicate Refines(g: Grammar, a: Automaton, value: seq<int>, p: ParserRows, tb: Tables)
    requires g.WellFormed()
  {
    |a.states| == |p.rows| == |p.defred| && Sizes(g, |a.states|, tb) && ValuesOK(g, value) &&
    (forall q: nat :: q < |p.rows| ==> StateRefines(g, value, p, tb, q)) &&
    GotosRefine(g, a, tb) && RuleDataOK(g, tb) && tb.final == p.final && tb.errcode == value[1]
  }

  /** output_rule_data */
  method OutputRuleData(g: Grammar, value: seq<int>) returns (lhs: seq<int>, len: seq<int>)
    requires g.WellFormed() && ValuesOK(g, value)
    ensures |lhs| == |len| == g.nrules - 2
    ensures forall r: nat :: 2 <= r < g.nrules ==>
      lhs[r - 2] == g.rlhs[r] - g.start - 1 && len[r - 2] == (if r == 2 then 2 else |g.Rhs(r)|)
  {
    lhs, len := [value[g.start]], [2];
    for i := 3 to g.nrules
      invariant |lhs| == |len| == i - 2
      invariant forall r: nat :: 2 <= r < i ==>
        lhs[r - 2] == g.rlhs[r] - g.start - 1 && len[r - 2] == (if r == 2 then 2 else |g.Rhs(r)|)
    {
      g.GetRule(i);
      lhs := lhs + [value[g.rlhs[i]]];
      len := len + [g.rrhs[i + 1] - g.rrhs[i] - 1];
    }
  }

  /** output_yydefred */
  method OutputDefred(defred: seq<nat>) returns (d: seq<int>)
    ensures |d| == |defred|
    ensures forall q :: 0 <= q < |d| ==> d[q] == RuleNumber(defred[q])
  {
    d := [];
    for i := 0 to |defred|
      invariant |d| == i && forall q :: 0 <= q < i ==> d[q] == RuleNumber(defred[q])
    {
      d := d + [RuleNumber(defred[i])];
    }
  }

  /** output_actions and the rule data. */
  method OutputTables(g: Grammar, a: Automaton, m: GotoMap, value: seq<int>, p: ParserRows) returns (tb: Tables)
    requires IsLR0(g, a) && GotoMapOK(g, a, m) && ValuesOK(g, value) && |a.states| == |p.rows| == |p.defred|
    requires forall q :: 0 <= q < |p.rows| ==> Representable(p.rows[q], g.start)
    ensures Refines(g, a, value, p, tb)
  {
    var n := |a.states|;
    var vectors, dgoto := AllVectors(g, a, m, value, p);
    VectorsAreOK(g, a, value, p, vectors, dgoto);
    var base, table, check, high := PackVectors(vectors, 2 * n);
    var lhs, len := OutputRuleData(g, value);
    var defred := OutputDefred(p.defred);
    tb := Tables(lhs, len, defred, dgoto, base[..n], base[n..2 * n], base[2 * n..|base| - 1], table, check, high, p.final, value[1]);
    AllRefine(g, a, value, p, vectors, base, tb);
  }

  /** What the vectors have to be. */
  ghost predicate VectorsFor(g: Grammar, a: Automaton, value: seq<int>, p: ParserRows, vectors: seq<Vector>, dgoto: seq<int>) {
    g.start < g.nsyms && g.start <= |value| && |a.states| == |p.rows| == |p.defred| && |dgoto| == g.nsyms - g.start - 1 &&
    |vectors| == 2 * |p.rows| + |dgoto| + 1 &&
    (forall q :: 0 <= q < |p.rows| ==> RowPair(g, value, p, q, vectors[q], vectors[|p.rows| + q])) &&
    (forall c :: 0 <= c < |dgoto| ==> Column(g, a, c, dgoto[c], vectors[2 * |p.rows| + c])) &&
    vectors[2 * |p.rows| + |dgoto|] == EMPTY
  }

  method AllVectors(g: Grammar, a: Automaton, m: GotoMap, value: seq<int>, p: ParserRows) returns (vectors: seq<Vector>, dgoto: seq<int>)
    requires IsLR0(g, a) && GotoMapOK(g, a, m) && ValuesOK(g, value) && |a.states| == |p.rows| == |p.defred|
    requires forall q :: 0 <= q < |p.rows| ==> Representable(p.rows[q], g.start)
    ensures VectorsFor(g, a, value, p, vectors, dgoto)
  {
    var n, nvars := |a.states|, g.nsyms - g.start;
    var vs := new Vector[2 * n + nvars](_ => EMPTY);
    TokenActions(g, value, p, vs);
    ghost var rows := vs[..];
    dgoto := GotoActions(g, a, m, value, vs);
    vectors := vs[..];
    forall q | 0 <= q < n ensures RowPair(g, value, p, q, vectors[q], vectors[n + q]) {
      assert RowPair(g, value, p, q, rows[q], rows[n + q]);
    }
  }

  lemma VectorsAreOK(g: Grammar, a: Automaton, value: seq<int>, p: ParserRows, vectors: seq<Vector>, dgoto: seq<int>)
    requires VectorsFor(g, a, value, p, vectors, dgoto)
    ensures forall i :: 0 <= i < |vectors| ==> VectorOK(vectors[i])
  {
    var n := |p.rows|;
    forall i | 0 <= i < |vectors| ensures VectorOK(vectors[i]) {
      if i < n {
        assert RowPair(g, value, p, i, vectors[i], vectors[n + i]);
      } else if i < 2 * n {
        assert RowPair(g, value, p, i - n, vectors[i - n], vectors[n + (i - n)]);
      } else if i < 2 * n + |dgoto| {
        assert Column(g, a, i - 2 * n, dgoto[i - 2 * n], vectors[2 * n + (i - 2 * n)]);
      }
    }
  }

  lemma AllRefine(g: Grammar, a: Automaton, value: seq<int>, p: ParserRows, vectors: seq<Vector>, base: seq<int>, tb: Tables)
    requires VectorsFor(g, a, value, p, vectors, tb.dgoto) && |base| == |vectors| && Sizes(g, |a.states|, tb)
    requires tb.sindex == base[..|a.states|] && tb.rindex == base[|a.states|..2 * |a.states|] && tb.gindex == base[2 * |a.states|..|base| - 1]
    requires forall i :: 0 <= i < |vectors| ==> FindsVector(vectors[i], base[i], tb.table, tb.check, tb.high)
    requires forall q :: 0 <= q < |tb.defred| ==> tb.defred[q] == RuleNumber(p.defred[q])
    ensures forall q: nat :: q < |p.rows| ==> StateRefines(g, value, p, tb, q)
    ensures GotosRefine(g, a, tb)
  {
    var n := |a.states|;
    forall q: nat | q < n ensures StateRefines(g, value, p, tb, q) {
      assert FindsVector(vectors[q], base[q], tb.table, tb.check, tb.high);
      assert FindsVector(vectors[n + q], base[n + q], tb.table, tb.check, tb.high);
      StateRefinesLemma(g, value, p, tb, q, vectors[q], vectors[n + q]);
    }
    forall q, c | 0 <= q < n && 0 <= c < |tb.dgoto| && HasGoto(a, q, g.start + 1 + c)
      ensures tb.GotoAt(q, c) == Goto(a, q, g.start + 1 + c)
    {
      assert FindsVector(vectors[2 * n + c], base[2 * n + c], tb.table, tb.check, tb.high);
      GotoRefines(g, a, tb, q, c, vectors[2 * n + c]);
    }
  }

  lemma StateRefinesLemma(g: Grammar, value: seq<int>, p: ParserRows, tb: Tables, q: nat, shifts: Vector, reduces: Vector)
    requires Sizes(g, |p.rows|, tb) && g.start <= |value| && q < |p.rows| == |p.defred|
    requires RowPair(g, value, p, q, shifts, reduces)
    requires FindsVector(shifts, tb.sindex[q], tb.table, tb.check, tb.high)
    requires FindsVector(reduces, tb.rindex[q], tb.table, tb.check, tb.high)
    requires tb.defred[q] == RuleNumber(p.defred[q])
    ensures StateRefines(g, value, p, tb, q)
  {
    forall key, s | key >= 0 ensures tb.ShiftAt(q, key) == Value(s) <==>
      exists t :: 0 <= t < g.start && value[t] == key && LiveShift(p.rows[q], t, s)
    {
      assert Entry(shifts, key, s) <==> exists t :: 0 <= t < g.start && value[t] == key && LiveShift(p.rows[q], t, s);
    }
    forall key, n | key >= 0 ensures tb.ReduceAt(q, key) == Value(n) <==>
      exists t :: 0 <= t < g.start && value[t] == key && LiveNumber(p.rows[q], p.defred[q], t, n)
    {
      assert Entry(reduces, key, n) <==> exists t :: 0 <= t < g.start && value[t] == key && LiveNumber(p.rows[q], p.defred[q], t, n);
    }
  }

  lemma GotoRefines(g: Grammar, a: Automaton, tb: Tables, q: nat, c: nat, v: Vector)
    requires Sizes(g, |a.states|, tb) && q < |a.states| && c < |tb.dgoto| && HasGoto(a, q, g.start + 1 + c)
    requires Column(g, a, c, tb.dgoto[c], v) && FindsVector(v, tb.gindex[c], tb.table, tb.check, tb.high)
    ensures tb.GotoAt(q, c) == Goto(a, q, g.start + 1 + c)
  {
    FoundInColumn(a, g.start + 1 + c, tb.dgoto[c], v, q, Probe(tb.gindex[c], q, tb.table, tb.check, tb.high));
  }

  lemma FoundInColumn(a: Automaton, x: nat, d: nat, v: Vector, q: nat, r: Found)
    requires q < |a.states| && HasGoto(a, q, x) && VectorOK(v) && ColumnVector(a, x, d, v)
    requires forall y :: r == Value(y) <==> Entry(v, q, y)
    ensures (match r case Value(y) => y case Nothing => d) == Goto(a, q, x)
  {
    if r.Value? {
      assert ColumnEntry(a, x, d, q, r.val);
    }
    assert Goto(a, q, x) != d ==> ColumnEntry(a, x, d, q, Goto(a, q, x)) && Entry(v, q, Goto(a, q, x));
  }

  // ---------------------------------------------------------------------
  // What the parser decides
  // ---------------------------------------------------------------------

  datatype Decision = Shift(state: int) | Reduce(rule: int) | Fail

  /** The parser's choice: the default reduction if there is one, otherwise by token. */
  function Decide(tb: Tables, q: nat, key: int): Decision
    requires q < |tb.sindex| && q < |tb.rindex| && q < |tb.defred| && tb.high < |tb.check| == |tb.table|
  {
    if tb.defred[q] != 0 then Reduce(tb.defred[q])
    else match tb.ShiftAt(q, key)
      case Value(s) => Shift(s)
      case Nothing =>
        match tb.ReduceAt(q, key)
        case Value(n) => Reduce(n)
        case Nothing => Fail
  }

  /** In a state without a default reduction the parser does exactly what the one live
      action on the token says, and fails when there is none. */
  lemma DecideByToken(g: Grammar, a: Automaton, value: seq<int>, p: ParserRows, tb: Tables, q: nat, t: nat)
    requires g.WellFormed() && Refines(g, a, value, p, tb) && q < |a.states| && t < g.start
    requires Representable(p.rows[q], g.start) && p.defred[q] == 0
    ensures forall s :: Decide(tb, q, value[t]) == Shift(s) <==> LiveShift(p.rows[q], t, s)
    ensures forall n :: Decide(tb, q, value[t]) == Reduce(n) <==> LiveNumber(p.rows[q], 0, t, n)
    ensures Decide(tb, q, value[t]) == Fail <==> forall i :: 0 <= i < |p.rows[q]| && p.rows[q][i].symbol == t ==> p.rows[q][i].suppressed != 0
  {
    var row := p.rows[q];
    assert StateRefines(g, value, p, tb, q);
    forall s ensures tb.ShiftAt(q, value[t]) == Value(s) <==> LiveShift(row, t, s) {
      ShiftAnswer(g, a, value, p, tb, q, t, s);
    }
    forall n ensures tb.ReduceAt(q, value[t]) == Value(n) <==> LiveNumber(row, 0, t, n) {
      ReduceAnswer(g, a, value, p, tb, q, t, n);
    }
    forall s, n ensures !(LiveShift(row, t, s) && LiveNumber(row, 0, t, n)) {
    }
    SomeLive(row, t);
  }

  lemma ShiftAnswer(g: Grammar, a: Automaton, value: seq<int>, p: ParserRows, tb: Tables, q: nat, t: nat, s: int)
    requires g.WellFormed() && Refines(g, a, value, p, tb) && q < |a.states| && t < g.start
    ensures tb.ShiftAt(q, value[t]) == Value(s) <==> LiveShift(p.rows[q], t, s)
  {
    assert StateRefines(g, value, p, tb, q);
    assert tb.ShiftAt(q, value[t]) == Value(s) <==> exists u :: 0 <= u < g.start && value[u] == value[t] && LiveShift(p.rows[q], u, s);
  }

  lemma ReduceAnswer(g: Grammar, a: Automaton, value: seq<int>, p: ParserRows, tb: Tables, q: nat, t: nat, n: int)
    requires g.WellFormed() && Refines(g, a, value, p, tb) && q < |a.states| && t < g.start
    ensures tb.ReduceAt(q, value[t]) == Value(n) <==> LiveNumber(p.rows[q], p.defred[q], t, n)
  {
    assert StateRefines(g, value, p, tb, q);
    assert tb.ReduceAt(q, value[t]) == Value(n) <==>
      exists u :: 0 <= u < g.start && value[u] == value[t] && LiveNumber(p.rows[q], p.defred[q], u, n);
  }

  /** A live action on a token is a live shift or a live reduction. */
  lemma SomeLive(row: seq<Action>, t: nat)
    requires forall i :: 0 <= i < |row| ==> row[i].number > 0
    ensures (forall i :: 0 <= i < |row| && row[i].symbol == t ==> row[i].suppressed != 0) <==>
      (forall s :: !LiveShift(row, t, s)) && (forall n :: !LiveNumber(row, 0, t, n))
  {
    forall i | 0 <= i < |row| && row[i].symbol == t && row[i].suppressed == 0
      ensures LiveShift(row, t, row[i].number) || LiveNumber(row, 0, t, row[i].number - 2)
    {
    }
  }

  /** A number that no token has is never shifted or reduced on without a default. */
  lemma DecideUnknown(g: Grammar, a: Automaton, value: seq<int>, p: ParserRows, tb: Tables, q: nat, key: nat)
    requires g.WellFormed() && Refines(g, a, value, p, tb) && q < |a.states| && p.defred[q] == 0
    requires forall t :: 0 <= t < g.start ==> value[t] != key
    ensures tb.defred[q] == 0 && Decide(tb, q, key) == Fail
  {
    assert StateRefines(g, value, p, tb, q);
    assert forall s :: tb.ShiftAt(q, key) != Value(s);
    assert forall n :: tb.ReduceAt(q, key) != Value(n);
  }

  /** A state with a default reduction has no other live action, so the default agrees
      with the list wherever the list has an action. */
  lemma DefaultAgrees(g: Grammar, a: Automaton, value: seq<int>, p: ParserRows, tb: Tables, q: nat, t: nat)
    requires g.WellFormed() && Refines(g, a, value, p, tb) && q < |a.states| && t < g.start
    requires DefaultOK(p.rows[q], p.defred[q]) && p.defred[q] > 2
    ensures Decide(tb, q, value[t]) == Reduce(p.defred[q] - 2)
    ensures forall s :: !LiveShift(p.rows[q], t, s)
    ensures forall r :: !LiveReduce(p.rows[q], p.defred[q], t, r)
    ensures tb.ShiftAt(q, value[t]) == Nothing && tb.ReduceAt(q, value[t]) == Nothing
  {
    assert StateRefines(g, value, p, tb, q);
    var row, r := p.rows[q], p.defred[q];
    assert SoleRule(row, r);
    assert forall u, s :: !LiveShift(row, u, s);
    assert forall u, s :: !LiveReduce(row, r, u, s);
    assert forall s :: tb.ShiftAt(q, value[t]) != Value(s);
    assert forall n :: tb.ReduceAt(q, value[t]) != Value(n);
  }
}
