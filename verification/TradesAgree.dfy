/** When trades rebuild the weights they came from, and how their signals compare. */
module TradesAgree {
  import opened Wrappers
  import opened Trades

  /** The weight of the column goes from below 0 to above, or from above to below, in one row. */
  ghost predicate JumpAt(p: Panel, row: nat, col: nat)
    requires Valid(p) && row < |p.weights| && col < p.width
  {
    var before, after := Before(p, row, col), p.weights[row][col];
    (before < 0.0 && after > 0.0) || (before > 0.0 && after < 0.0)
  }

  /** The column never jumps over 0; non-negative weights never do. */
  ghost predicate NoJump(p: Panel, col: nat, n: nat)
    requires Valid(p) && col < p.width && n <= |p.weights|
  {
    forall row :: 0 <= row < n ==> !JumpAt(p, row, col)
  }

  lemma NonNegativeNeverJumps(p: Panel)
    requires Valid(p)
    requires forall r, c :: 0 <= r < |p.weights| && 0 <= c < p.width ==> p.weights[r][c] >= 0.0
    ensures forall col :: 0 <= col < p.width ==> NoJump(p, col, |p.weights|)
  {
  }

  ghost predicate CoversRow(t: Trade, col: nat, row: nat) {
    t.col == col && t.entry <= row < t.exit
  }

  ghost predicate InRecord(records: seq<Trade>, col: nat, row: nat) {
    exists k :: 0 <= k < |records| && CoversRow(records[k], col, row)
  }

  ghost predicate InOpen(open: seq<Open>, col: nat, row: nat) {
    EntryOf(open, col).Some? && EntryOf(open, col).value <= row
  }

  /** A closed trade of the column contains the row, or its open entry reaches back to it. */
  ghost predicate Inside(s: State, col: nat, row: nat) {
    InRecord(s.records, col, row) || InOpen(s.open, col, row)
  }

  /** The column's trades follow one another. */
  ghost predicate Disjoint(s: State, col: nat) {
    && (forall i, j :: 0 <= i < j < |s.records| && s.records[i].col == col && s.records[j].col == col ==>
          s.records[i].exit < s.records[j].entry)
    && (forall i :: 0 <= i < |s.records| && s.records[i].col == col ==> s.records[i].entry < s.records[i].exit)
    && (EntryOf(s.open, col).Some? ==>
          forall i :: 0 <= i < |s.records| && s.records[i].col == col ==> s.records[i].exit < EntryOf(s.open, col).value)
  }

  /** What holds of a column after n rows without a jump. */
  ghost predicate ColumnFacts(p: Panel, s: State, col: nat, n: nat)
    requires Valid(p) && col < p.width && n <= |p.weights|
  {
    && (EntryOf(s.open, col).Some? <==> Before(p, n, col) > 0.0)
    && (EntryOf(s.open, col).Some? ==> EntryOf(s.open, col).value < n)
    && (forall i :: 0 <= i < |s.records| && s.records[i].col == col ==> s.records[i].exit < n)
    && Disjoint(s, col)
    && (forall row :: 0 <= row < n ==> (p.weights[row][col] > 0.0 <==> Inside(s, col, row)))
  }

  // ----- one cell

  /** How a cell changes its own column's open entry and the records. */
  ghost predicate CellOutcome(p: Panel, s: State, row: nat, col: nat, next: State)
    requires Valid(p) && row < |p.weights| && col < p.width
  {
    var before, after, entry := Before(p, row, col), p.weights[row][col], EntryOf(s.open, col);
    && DistinctColumns(next.open)
    && if before == 0.0 && after > 0.0 then next.records == s.records && EntryOf(next.open, col) == Some(row)
       else if before > 0.0 && after == 0.0 && entry.Some? then
         next.records == s.records + [Closed(p, Open(col, entry.value), row)] && EntryOf(next.open, col) == None
       else next == s
  }

  lemma CellDoes(p: Panel, s: State, row: nat, col: nat)
    requires Valid(p) && row < |p.weights| && col < p.width && DistinctColumns(s.open)
    ensures CellOutcome(p, s, row, col, Cell(p, s, row, col))
    ensures DistinctColumns(Cell(p, s, row, col).open)
  {
    var at := Find(s.open, col);
    PutMeans(s.open, Open(col, row), col);
    if at >= 0 {
      DropMeans(s.open, at, col);
    }
  }

  lemma CellLeavesOthers(p: Panel, s: State, row: nat, col: nat, other: nat)
    requires Valid(p) && row < |p.weights| && col < p.width && DistinctColumns(s.open) && other != col
    ensures var next := Cell(p, s, row, col);
      EntryOf(next.open, other) == EntryOf(s.open, other) &&
      (next.records == s.records || (|next.records| == |s.records| + 1 && next.records[..|s.records|] == s.records
                                     && next.records[|s.records|].col == col))
  {
    PutMeans(s.open, Open(col, row), other);
    var at := Find(s.open, col);
    if at >= 0 {
      DropMeans(s.open, at, other);
    }
  }

  /** Appending a record of another column changes nothing for this one. */
  lemma OtherRecord(records: seq<Trade>, t: Trade, col: nat, row: nat)
    ensures InRecord(records + [t], col, row) <==> InRecord(records, col, row) || CoversRow(t, col, row)
  {
    assert (records + [t])[|records|] == t;
    if InRecord(records, col, row) {
      var k :| 0 <= k < |records| && CoversRow(records[k], col, row);
      assert (records + [t])[k] == records[k];
    }
  }

  /** The states agree on a column. */
  ghost predicate SameColumn(s: State, next: State, col: nat) {
    && EntryOf(next.open, col) == EntryOf(s.open, col)
    && (next.records == s.records || (|next.records| == |s.records| + 1 && next.records[..|s.records|] == s.records
                                      && next.records[|s.records|].col != col))
  }

  lemma SameInside(s: State, next: State, col: nat, row: nat)
    requires SameColumn(s, next, col)
    ensures Inside(next, col, row) == Inside(s, col, row)
  {
    if next.records != s.records {
      var t := next.records[|s.records|];
      assert next.records == s.records + [t];
      OtherRecord(s.records, t, col, row);
    }
    hide InRecord;
  }

  lemma SameDisjoint(s: State, next: State, col: nat, n: nat)
    requires SameColumn(s, next, col) && Disjoint(s, col)
    ensures Disjoint(next, col)
    ensures (forall i :: 0 <= i < |s.records| && s.records[i].col == col ==> s.records[i].exit < n) ==>
      forall i :: 0 <= i < |next.records| && next.records[i].col == col ==> next.records[i].exit < n
  {
    assert forall i :: 0 <= i < |s.records| ==> next.records[i] == s.records[i];
    hide EntryOf;
  }

  lemma OthersKeepFacts(p: Panel, s: State, row: nat, col: nat, other: nat, n: nat)
    requires Valid(p) && row < |p.weights| && col < p.width && other < p.width && n <= |p.weights| && other != col
    requires DistinctColumns(s.open) && ColumnFacts(p, s, other, n)
    ensures ColumnFacts(p, Cell(p, s, row, col), other, n)
  {
    CellLeavesOthers(p, s, row, col, other);
    var next := Cell(p, s, row, col);
    assert SameColumn(s, next, other);
    SameDisjoint(s, next, other, n);
    forall r | 0 <= r < n
      ensures Inside(next, other, r) == Inside(s, other, r)
    {
      SameInside(s, next, other, r);
    }
    hide Cell, Inside, Disjoint;
  }

  lemma CellKeepsDisjoint(p: Panel, s: State, row: nat, col: nat)
    requires Valid(p) && row < |p.weights| && col < p.width && DistinctColumns(s.open)
    requires ColumnFacts(p, s, col, row) && !JumpAt(p, row, col)
    ensures var next := Cell(p, s, row, col);
      && Disjoint(next, col)
      && forall i :: 0 <= i < |next.records| && next.records[i].col == col ==> next.records[i].exit < row + 1
  {
    CellDoes(p, s, row, col);
    hide Cell, Inside, EntryOf;
  }

  /** The rows that are inside a trade after one more row. */
  lemma CellKeepsRows(p: Panel, s: State, row: nat, col: nat, r: nat)
    requires Valid(p) && row < |p.weights| && col < p.width && DistinctColumns(s.open) && r <= row
    requires ColumnFacts(p, s, col, row) && !JumpAt(p, row, col)
    ensures p.weights[r][col] > 0.0 <==> Inside(Cell(p, s, row, col), col, r)
  {
    CellDoes(p, s, row, col);
    var next := Cell(p, s, row, col);
    NotYetInRecord(s, col, row);
    if |next.records| > |s.records| {
      OtherRecord(s.records, next.records[|s.records|], col, r);
    }
    assert r < row ==> (p.weights[r][col] > 0.0 <==> Inside(s, col, r));
    hide Cell, Disjoint, InRecord;
  }

  lemma CellKeepsFacts(p: Panel, s: State, row: nat, col: nat)
    requires Valid(p) && row < |p.weights| && col < p.width && DistinctColumns(s.open)
    requires ColumnFacts(p, s, col, row) && !JumpAt(p, row, col)
    ensures ColumnFacts(p, Cell(p, s, row, col), col, row + 1)
  {
    CellDoes(p, s, row, col);
    CellKeepsDisjoint(p, s, row, col);
    forall r | 0 <= r < row + 1
      ensures p.weights[r][col] > 0.0 <==> Inside(Cell(p, s, row, col), col, r)
    {
      CellKeepsRows(p, s, row, col, r);
    }
    hide Cell, Disjoint, Inside;
  }

  lemma NotYetInRecord(s: State, col: nat, row: nat)
    requires forall i :: 0 <= i < |s.records| && s.records[i].col == col ==> s.records[i].exit < row
    ensures !InRecord(s.records, col, row)
  {
  }

  // ----- all cells

  lemma {:induction false} ScanDistinct(p: Panel, row: nat, col: nat)
    requires Valid(p) && Position(p, row, col)
    ensures DistinctColumns(Scan(p, row, col).open)
    decreases row, col
  {
    hide Cell, CellOutcome, DistinctColumns;
    if row == 0 && col == 0 {
      assert DistinctColumns([]) by {
        NothingOpen();
      }
    } else if col > 0 {
      ScanDistinct(p, row, col - 1);
      CellDoes(p, Scan(p, row, col - 1), row, col - 1);
    } else {
      ScanDistinct(p, row - 1, p.width);
    }
  }

  lemma NothingOpen()
    ensures DistinctColumns([])
  {
  }

  /** The rows of a column that the loops have passed. */
  function Passed(row: nat, col: nat, c: nat): nat {
    if c < col then row + 1 else row
  }

  lemma {:induction false} ScanFacts(p: Panel, row: nat, col: nat, c: nat)
    requires Valid(p) && Position(p, row, col) && c < p.width && NoJump(p, c, Passed(row, col, c))
    ensures ColumnFacts(p, Scan(p, row, col), c, Passed(row, col, c))
    decreases row, col
  {
    hide ColumnFacts, Cell;
    if col > 0 {
      ScanDistinct(p, row, col - 1);
      ScanFacts(p, row, col - 1, c);
      if c == col - 1 {
        CellKeepsFacts(p, Scan(p, row, col - 1), row, col - 1);
      } else {
        OthersKeepFacts(p, Scan(p, row, col - 1), row, col - 1, c, Passed(row, col, c));
      }
    } else if row > 0 {
      ScanFacts(p, row - 1, p.width, c);
    } else {
      FactsAtStart(p, c);
    }
  }

  lemma FactsAtStart(p: Panel, c: nat)
    requires Valid(p) && c < p.width
    ensures ColumnFacts(p, State([], []), c, 0)
  {
  }

  /** Closed and open trades of the column rebuild exactly the rows where its weight is positive. */
  ghost predicate Rebuilds(p: Panel, col: nat)
    requires Valid(p) && col < p.width
  {
    forall row :: 0 <= row < |p.weights| ==>
      (p.weights[row][col] > 0.0 <==> Inside(Scan(p, |p.weights|, 0), col, row))
  }

  // ----- after a jump

  /** No closed trade of the column contains the row and none that is open reaches it. */
  ghost predicate Uncovered(s: State, col: nat, row: nat) {
    !InRecord(s.records, col, row) && !InOpen(s.open, col, row)
  }

  /** After a jump at row u the column stays wrong at u, or at the entry e that it lost. */
  ghost predicate Wrong(p: Panel, s: State, col: nat, u: nat, e: nat)
    requires Valid(p) && col < p.width && u < |p.weights| && e <= u
  {
    || (p.weights[u][col] > 0.0 && Uncovered(s, col, u))
    || (p.weights[u][col] < 0.0 && p.weights[e][col] > 0.0 &&
          (|| InRecord(s.records, col, u)
           || (EntryOf(s.open, col) == Some(e) && !InRecord(s.records, col, e))
           || Uncovered(s, col, e)))
  }

  lemma WrongIsNotRebuilt(p: Panel, s: State, col: nat, u: nat, e: nat)
    requires Valid(p) && col < p.width && u < |p.weights| && e <= u && Wrong(p, s, col, u, e)
    ensures exists row :: 0 <= row < |p.weights| && (p.weights[row][col] > 0.0) != Inside(s, col, row)
  {
    if p.weights[u][col] > 0.0 || InRecord(s.records, col, u) || EntryOf(s.open, col) == Some(e) {
      assert (p.weights[u][col] > 0.0) != Inside(s, col, u);
    } else {
      assert (p.weights[e][col] > 0.0) != Inside(s, col, e);
    }
  }

  lemma CellKeepsUncovered(p: Panel, s: State, row: nat, col: nat, u: nat)
    requires Valid(p) && row < |p.weights| && col < p.width && DistinctColumns(s.open)
    requires u < row && Uncovered(s, col, u)
    ensures Uncovered(Cell(p, s, row, col), col, u)
  {
    CellDoes(p, s, row, col);
    var next := Cell(p, s, row, col);
    hide Cell;
    if |next.records| > |s.records| {
      OtherRecord(s.records, Closed(p, Open(col, EntryOf(s.open, col).value), row), col, u);
    }
  }

  lemma CellKeepsWrong(p: Panel, s: State, row: nat, col: nat, u: nat, e: nat)
    requires Valid(p) && row < |p.weights| && col < p.width && DistinctColumns(s.open)
    requires e <= u < row && Wrong(p, s, col, u, e)
    ensures Wrong(p, Cell(p, s, row, col), col, u, e)
  {
    CellDoes(p, s, row, col);
    var next := Cell(p, s, row, col);
    if Uncovered(s, col, u) {
      CellKeepsUncovered(p, s, row, col, u);
    }
    if Uncovered(s, col, e) {
      CellKeepsUncovered(p, s, row, col, e);
    }
    hide Cell;
    if EntryOf(s.open, col).Some? {
      OtherRecord(s.records, Closed(p, Open(col, EntryOf(s.open, col).value), row), col, u);
    }
    hide InRecord;
  }

  lemma OthersKeepWrong(p: Panel, s: State, row: nat, col: nat, other: nat, u: nat, e: nat)
    requires Valid(p) && row < |p.weights| && col < p.width && other < p.width && other != col
    requires DistinctColumns(s.open) && e <= u < |p.weights| && Wrong(p, s, other, u, e)
    ensures Wrong(p, Cell(p, s, row, col), other, u, e)
  {
    CellLeavesOthers(p, s, row, col, other);
    var next := Cell(p, s, row, col);
    if next.records != s.records {
      var t := next.records[|s.records|];
      assert next.records == s.records + [t];
      OtherRecord(s.records, t, other, u);
      OtherRecord(s.records, t, other, e);
    }
    hide Cell, InRecord;
  }

  lemma NotInEarlierRecord(s: State, col: nat)
    requires Disjoint(s, col) && EntryOf(s.open, col).Some?
    ensures !InRecord(s.records, col, EntryOf(s.open, col).value)
  {
  }

  /** The first jump makes the column wrong. */
  lemma JumpIsWrong(p: Panel, s: State, row: nat, col: nat) returns (e: nat)
    requires Valid(p) && row < |p.weights| && col < p.width && DistinctColumns(s.open)
    requires ColumnFacts(p, s, col, row) && JumpAt(p, row, col)
    ensures e <= row && Wrong(p, Cell(p, s, row, col), col, row, e)
  {
    CellDoes(p, s, row, col);
    NotYetInRecord(s, col, row);
    e := row;
    if Before(p, row, col) > 0.0 {
      e := EntryOf(s.open, col).value;
      assert p.weights[e][col] > 0.0 by {
        assert Inside(s, col, e);
      }
      NotInEarlierRecord(s, col);
    }
    hide Cell;
  }

  ghost predicate WrongSince(p: Panel, s: State, col: nat, u: nat)
    requires Valid(p) && col < p.width && u < |p.weights|
  {
    exists e :: 0 <= e <= u && Wrong(p, s, col, u, e)
  }

  lemma CellKeepsWrongSince(p: Panel, s: State, row: nat, col: nat, c: nat, u: nat)
    requires Valid(p) && row < |p.weights| && col < p.width && c < p.width && DistinctColumns(s.open)
    requires u < |p.weights| && (c == col ==> u < row) && WrongSince(p, s, c, u)
    ensures WrongSince(p, Cell(p, s, row, col), c, u)
  {
    hide Wrong, Cell;
    var e :| 0 <= e <= u && Wrong(p, s, c, u, e);
    if c == col {
      CellKeepsWrong(p, s, row, c, u, e);
    } else {
      OthersKeepWrong(p, s, row, col, c, u, e);
    }
  }

  lemma {:induction false} StaysWrong(p: Panel, row: nat, col: nat, c: nat, u: nat)
    requires Valid(p) && Position(p, row, col) && c < p.width && u < |p.weights|
    requires NoJump(p, c, u) && JumpAt(p, u, c) && u < Passed(row, col, c)
    ensures WrongSince(p, Scan(p, row, col), c, u)
    decreases row, col
  {
    hide Wrong, Cell, JumpAt, NoJump, DistinctColumns;
    if col == 0 {
      StaysWrong(p, row - 1, p.width, c, u);
    } else {
      var s := Scan(p, row, col - 1);
      ScanDistinct(p, row, col - 1);
      if c == col - 1 && u == row {
        ScanFacts(p, row, col - 1, c);
        var e := JumpIsWrong(p, s, row, c);
      } else {
        StaysWrong(p, row, col - 1, c, u);
        CellKeepsWrongSince(p, s, row, col - 1, c, u);
      }
    }
  }

  lemma {:induction false} FirstJump(p: Panel, col: nat, row: nat) returns (u: nat)
    requires Valid(p) && col < p.width && row < |p.weights| && JumpAt(p, row, col)
    ensures u < |p.weights| && JumpAt(p, u, col) && NoJump(p, col, u)
    decreases row
  {
    u := row;
    if j :| 0 <= j < row && JumpAt(p, j, col) {
      u := FirstJump(p, col, j);
    }
  }

  /** An instrument's trades rebuild its positive-weight rows exactly when its weight never jumps over 0. */
  lemma RebuildsExactly(p: Panel, col: nat)
    requires Valid(p) && col < p.width
    ensures Rebuilds(p, col) <==> NoJump(p, col, |p.weights|)
  {
    var n := |p.weights|;
    if NoJump(p, col, n) {
      ScanFacts(p, n, 0, col);
    } else {
      var j :| 0 <= j < n && JumpAt(p, j, col);
      var u := FirstJump(p, col, j);
      StaysWrong(p, n, 0, col, u);
      hide Wrong;
      var e :| 0 <= e <= u && Wrong(p, Scan(p, n, 0), col, u, e);
      WrongIsNotRebuilt(p, Scan(p, n, 0), col, u, e);
    }
  }

  /** From half long to half short in one row: the trade is left open, so the short row counts as held. */
  lemma JumpKeepsTradeOpen(p: Panel)
    requires Valid(p) && p.weights == [[0.5], [-0.5]] && p.width == 1
    ensures Scan(p, 2, 0) == State([Open(0, 0)], [])
    ensures Inside(Scan(p, 2, 0), 0, 1) && p.weights[1][0] < 0.0
    ensures !Rebuilds(p, 0)
  {
    assert Scan(p, 0, 0) == State([], []);
    assert Find([], 0) == -1;
    assert Scan(p, 0, 1) == State([Open(0, 0)], []);
    assert Find([Open(0, 0)], 0) == 0;
    assert Scan(p, 1, 0) == Scan(p, 0, 1);
    assert Scan(p, 1, 1) == Scan(p, 1, 0);
    assert Scan(p, 2, 0) == Scan(p, 1, 1);
    assert JumpAt(p, 1, 0);
    RebuildsExactly(p, 0);
  }

  /** Without a jump the trades of an instrument are disjoint, in order, and open exactly at a positive last weight. */
  lemma TradesDisjoint(p: Panel, col: nat)
    requires Valid(p) && col < p.width && NoJump(p, col, |p.weights|)
    ensures Disjoint(Scan(p, |p.weights|, 0), col)
    ensures EntryOf(Scan(p, |p.weights|, 0).open, col).Some? <==>
      |p.weights| > 0 && p.weights[|p.weights| - 1][col] > 0.0
  {
    ScanFacts(p, |p.weights|, 0, col);
  }

  // ----- signals

  function OpenBuys(open: seq<Open>): seq<Signal> {
    if |open| == 0 then []
    else OpenBuys(open[..|open| - 1]) + [Signal(open[|open| - 1].entry, open[|open| - 1].col, true)]
  }

  /** One sell at the row for each open instrument. */
  function SellsAt(open: seq<Open>, row: nat): seq<Signal> {
    if |open| == 0 then [] else SellsAt(open[..|open| - 1], row) + [Signal(row, open[|open| - 1].col, false)]
  }

  lemma {:induction false} OpenBuysConcat(a: seq<Open>, b: seq<Open>)
    ensures OpenBuys(a + b) == OpenBuys(a) + OpenBuys(b)
    decreases |b|
  {
    if |b| == 0 {
      assert a + b == a;
    } else {
      OpenBuysConcat(a, b[..|b| - 1]);
      assert (a + b)[..|a + b| - 1] == a + b[..|b| - 1];
    }
  }

  lemma OpenBuysOne(o: Open)
    ensures OpenBuys([o]) == [Signal(o.entry, o.col, true)]
  {
    assert [o][..0] == [];
  }

  lemma OpenBuysDrop(open: seq<Open>, at: nat)
    requires at < |open|
    ensures multiset(OpenBuys(open)) ==
      multiset(OpenBuys(Drop(open, at))) + multiset([Signal(open[at].entry, open[at].col, true)])
  {
    hide OpenBuys;
    var a, o, b := open[..at], open[at], open[at + 1..];
    assert open == a + ([o] + b);
    OpenBuysConcat(a, [o] + b);
    OpenBuysConcat([o], b);
    OpenBuysConcat(a, b);
    OpenBuysOne(o);
    MiddleOut(OpenBuys(a), [Signal(o.entry, o.col, true)], OpenBuys(b));
  }

  lemma MiddleOut(a: seq<Signal>, x: seq<Signal>, b: seq<Signal>)
    ensures multiset(a + (x + b)) == multiset(a + b) + multiset(x)
  {
  }

  lemma TwoMore(a: seq<Signal>, x: Signal, y: Signal)
    ensures multiset(a + [x, y]) == multiset(a) + multiset{x} + multiset{y}
    ensures multiset(a + [x]) == multiset(a) + multiset{x}
  {
  }

  lemma TradeSignalsSnoc(trades: seq<Trade>, t: Trade)
    ensures TradeSignals(trades + [t]) == TradeSignals(trades) + [BuyOf(t), SellOf(t)]
  {
    assert (trades + [t])[..|trades|] == trades;
  }

  /** Signals of the closed trades and buys of the open ones are the signals of the weights so far. */
  ghost predicate Balanced(s: State, signals: seq<Signal>) {
    multiset(TradeSignals(s.records)) + multiset(OpenBuys(s.open)) == multiset(signals)
  }

  lemma OpeningBalances(s: State, col: nat, row: nat, signals: seq<Signal>)
    requires Balanced(s, signals) && Find(s.open, col) < 0
    ensures Balanced(s.(open := Put(s.open, Open(col, row))), signals + [Signal(row, col, true)])
  {
    OpenBuysConcat(s.open, [Open(col, row)]);
    OpenBuysOne(Open(col, row));
    hide OpenBuys, TradeSignals;
  }

  lemma ClosingBalances(s: State, at: nat, t: Trade, signals: seq<Signal>)
    requires Balanced(s, signals) && at < |s.open| && t.col == s.open[at].col && t.entry == s.open[at].entry
    ensures Balanced(State(Drop(s.open, at), s.records + [t]), signals + [SellOf(t)])
  {
    OpenBuysDrop(s.open, at);
    TradeSignalsSnoc(s.records, t);
    hide OpenBuys, TradeSignals;
    assert [BuyOf(t), SellOf(t)] == [BuyOf(t)] + [SellOf(t)];
  }

  lemma CellBalances(p: Panel, s: State, row: nat, col: nat, signals: seq<Signal>)
    requires Valid(p) && row < |p.weights| && col < p.width && Balanced(s, signals)
    requires ColumnFacts(p, s, col, row) && !JumpAt(p, row, col)
    ensures Balanced(Cell(p, s, row, col), signals + CellSignals(p, row, col))
  {
    hide Balanced, Disjoint, Inside;
    var before, after, at := Before(p, row, col), p.weights[row][col], Find(s.open, col);
    if before == 0.0 && after > 0.0 {
      OpeningBalances(s, col, row, signals);
    } else if before > 0.0 && after == 0.0 {
      ClosingBalances(s, at, Closed(p, s.open[at], row), signals);
    } else {
      assert signals + [] == signals;
    }
  }

  ghost predicate NeverJumps(p: Panel)
    requires Valid(p)
  {
    forall col :: 0 <= col < p.width ==> NoJump(p, col, |p.weights|)
  }

  lemma {:induction false} ScanBalanced(p: Panel, row: nat, col: nat)
    requires Valid(p) && Position(p, row, col) && NeverJumps(p)
    ensures Balanced(Scan(p, row, col), WeightSignals(p, row, col))
    decreases row, col
  {
    hide Balanced, ColumnFacts, Cell, CellSignals, JumpAt;
    if col == 0 && row == 0 {
      NothingBalanced();
    } else if col > 0 {
      ScanBalanced(p, row, col - 1);
      assert NoJump(p, col - 1, |p.weights|) && !JumpAt(p, row, col - 1);
      ScanFacts(p, row, col - 1, col - 1);
      CellBalances(p, Scan(p, row, col - 1), row, col - 1, WeightSignals(p, row, col - 1));
    } else {
      ScanBalanced(p, row - 1, p.width);
    }
  }

  lemma NothingBalanced()
    ensures Balanced(State([], []), [])
  {
  }

  lemma SumStep(all: multiset<Signal>, trades: multiset<Signal>, buys: multiset<Signal>, sells: multiset<Signal>,
                x: multiset<Signal>, y: multiset<Signal>)
    requires all == trades + buys + sells
    ensures all + x + y == trades + (buys + x) + (sells + y)
  {
  }

  lemma {:induction false} ClosingAllBalances(p: Panel, records: seq<Trade>, open: seq<Open>)
    requires Valid(p) && |p.weights| > 0
    ensures multiset(TradeSignals(records + CloseAll(p, open))) ==
      multiset(TradeSignals(records)) + multiset(OpenBuys(open)) + multiset(SellsAt(open, |p.weights| - 1))
    decreases |open|
  {
    hide TradeSignals, CloseAll, OpenBuys, SellsAt;
    if |open| == 0 {
      CloseNone(p, records, open);
    } else {
      var n, last := |open| - 1, |p.weights| - 1;
      ClosingAllBalances(p, records, open[..n]);
      CloseOneMore(p, records, open);
      SumStep(multiset(TradeSignals(records + CloseAll(p, open[..n]))), multiset(TradeSignals(records)),
              multiset(OpenBuys(open[..n])), multiset(SellsAt(open[..n], last)),
              multiset{Signal(open[n].entry, open[n].col, true)}, multiset{Signal(last, open[n].col, false)});
    }
  }

  lemma CloseNone(p: Panel, records: seq<Trade>, open: seq<Open>)
    requires Valid(p) && |p.weights| > 0 && |open| == 0
    ensures records + CloseAll(p, open) == records
    ensures multiset(OpenBuys(open)) == multiset(SellsAt(open, |p.weights| - 1)) == multiset{}
  {
  }

  lemma CloseOneMore(p: Panel, records: seq<Trade>, open: seq<Open>)
    requires Valid(p) && |p.weights| > 0 && |open| > 0
    ensures var n, last := |open| - 1, |p.weights| - 1;
      var buy, sell := Signal(open[n].entry, open[n].col, true), Signal(last, open[n].col, false);
      && multiset(TradeSignals(records + CloseAll(p, open))) ==
           multiset(TradeSignals(records + CloseAll(p, open[..n]))) + multiset{buy} + multiset{sell}
      && multiset(OpenBuys(open)) == multiset(OpenBuys(open[..n])) + multiset{buy}
      && multiset(SellsAt(open, last)) == multiset(SellsAt(open[..n], last)) + multiset{sell}
  {
    var n, last := |open| - 1, |p.weights| - 1;
    var t := Closed(p, open[n], last);
    assert records + CloseAll(p, open) == (records + CloseAll(p, open[..n])) + [t];
    TradeSignalsSnoc(records + CloseAll(p, open[..n]), t);
    OpenSnoc(open, last);
    hide TradeSignals, CloseAll, OpenBuys, SellsAt;
    TwoMore(TradeSignals(records + CloseAll(p, open[..n])), BuyOf(t), SellOf(t));
    TwoMore(OpenBuys(open[..n]), BuyOf(t), BuyOf(t));
    TwoMore(SellsAt(open[..n], last), SellOf(t), SellOf(t));
  }

  lemma OpenSnoc(open: seq<Open>, row: nat)
    requires |open| > 0
    ensures var n := |open| - 1;
      && OpenBuys(open) == OpenBuys(open[..n]) + [Signal(open[n].entry, open[n].col, true)]
      && SellsAt(open, row) == SellsAt(open[..n], row) + [Signal(row, open[n].col, false)]
  {
  }

  /**
   Signals derived from the extracted trades are, as a multiset, those derived from the
   weights and one sell at the last row for each instrument still open there.
   */
  lemma SignalsAgree(p: Panel)
    requires Valid(p) && |p.weights| > 0 && NeverJumps(p)
    ensures var s := Scan(p, |p.weights|, 0);
      && multiset(TradeSignals(s.records + CloseAll(p, s.open))) ==
           multiset(WeightSignals(p, |p.weights|, 0)) + multiset(SellsAt(s.open, |p.weights| - 1))
      && DistinctColumns(s.open)
      && forall col :: 0 <= col < p.width ==>
           (EntryOf(s.open, col).Some? <==> p.weights[|p.weights| - 1][col] > 0.0)
  {
    var n := |p.weights|;
    var s := Scan(p, n, 0);
    ScanBalanced(p, n, 0);
    ClosingAllBalances(p, s.records, s.open);
    ScanDistinct(p, n, 0);
    forall col | 0 <= col < p.width
      ensures EntryOf(s.open, col).Some? <==> p.weights[n - 1][col] > 0.0
    {
      TradesDisjoint(p, col);
    }
    hide Scan, TradeSignals, OpenBuys, SellsAt, WeightSignals, CloseAll;
  }

  // ----- what a trade earns, and which signals there are

  ghost predicate Priced(p: Panel, row: nat, col: nat)
    requires Valid(p)
  {
    row < |p.closes| && col < p.width && p.closes[row][col].Some?
  }

  /** The trade lies in the panel, and its profit takes the entry close to the exit close; it is missing without prices. */
  ghost predicate Earns(p: Panel, t: Trade)
    requires Valid(p)
  {
    && t.col < p.width && t.entry < |p.closes| && t.exit < |p.closes|
    && (t.pnl.Some? <==>
          Priced(p, t.entry, t.col) && Priced(p, t.exit, t.col) && p.closes[t.entry][t.col].value != 0.0)
    && (t.pnl.Some? ==> p.closes[t.entry][t.col].value * (1.0 + t.pnl.value) == p.closes[t.exit][t.col].value)
  }

  lemma ClosedEarns(p: Panel, o: Open, exit: nat)
    requires Valid(p) && o.col < p.width && o.entry < |p.closes| && exit < |p.closes|
    ensures Earns(p, Closed(p, o, exit))
  {
    var from, to := p.closes[o.entry][o.col], p.closes[exit][o.col];
    if from.Some? && to.Some? && from.value != 0.0 {
      var share := (to.value - from.value) / from.value;
      assert from.value * share == to.value - from.value;
      assert from.value * (1.0 + share) == from.value + from.value * share;
    }
  }

  ghost predicate AllEarn(p: Panel, s: State, row: nat)
    requires Valid(p)
  {
    && (forall k :: 0 <= k < |s.records| ==> Earns(p, s.records[k]))
    && (forall k :: 0 <= k < |s.open| ==> s.open[k].col < p.width && s.open[k].entry <= row)
  }

  lemma CellEarns(p: Panel, s: State, row: nat, col: nat)
    requires Valid(p) && row < |p.weights| && col < p.width && AllEarn(p, s, row)
    ensures AllEarn(p, Cell(p, s, row, col), row)
  {
    var at := Find(s.open, col);
    if at >= 0 {
      ClosedEarns(p, s.open[at], row);
    }
    hide Earns, Closed;
  }

  lemma {:induction false} ScanEarns(p: Panel, row: nat, col: nat)
    requires Valid(p) && Position(p, row, col)
    ensures AllEarn(p, Scan(p, row, col), row)
    decreases row, col
  {
    hide Cell, Earns;
    if col > 0 {
      ScanEarns(p, row, col - 1);
      CellEarns(p, Scan(p, row, col - 1), row, col - 1);
    } else if row > 0 {
      ScanEarns(p, row - 1, p.width);
    }
  }

  lemma LastRowScanned(p: Panel)
    requires Valid(p) && |p.weights| > 0
    ensures AllEarn(p, Scan(p, |p.weights|, 0), |p.weights| - 1)
  {
    ScanEarns(p, |p.weights| - 1, p.width);
    hide AllEarn, Cell;
  }

  lemma ClosingsEarn(p: Panel, s: State, k: nat)
    requires Valid(p) && |p.weights| > 0 && AllEarn(p, s, |p.weights| - 1) && k < |s.open|
    ensures Earns(p, CloseAll(p, s.open)[k])
  {
    ClosedEarns(p, s.open[k], |p.weights| - 1);
    hide Earns, Closed;
  }

  /** Every extracted trade, closed on the way or at the end, earns what its closes say. */
  lemma TradesEarn(p: Panel)
    requires Valid(p) && |p.weights| > 0
    ensures var s := Scan(p, |p.weights|, 0);
      forall k :: 0 <= k < |s.records + CloseAll(p, s.open)| ==> Earns(p, (s.records + CloseAll(p, s.open))[k])
  {
    LastRowScanned(p);
    var s := Scan(p, |p.weights|, 0);
    var closings := CloseAll(p, s.open);
    forall k | 0 <= k < |s.records + closings|
      ensures Earns(p, (s.records + closings)[k])
    {
      if k >= |s.records| {
        ClosingsEarn(p, s, k - |s.records|);
      }
    }
    hide Earns, Scan, CloseAll;
  }

  /** A buy where the weight turns positive, a sell where it stops being so. */
  ghost predicate Turns(p: Panel, g: Signal)
    requires Valid(p)
  {
    && g.row < |p.weights| && g.col < p.width
    && var held := g.row > 0 && p.weights[g.row - 1][g.col] > 0.0;
    && var holds := p.weights[g.row][g.col] > 0.0;
    && held != holds && g.buy == holds
  }

  ghost predicate CellBefore(a: Signal, b: Signal) {
    a.row < b.row || (a.row == b.row && a.col < b.col)
  }

  ghost predicate TurnsUpTo(p: Panel, signals: seq<Signal>, row: nat, col: nat)
    requires Valid(p)
  {
    && (forall g :: g in signals <==> Turns(p, g) && (g.row < row || (g.row == row && g.col < col)))
    && (forall i, j :: 0 <= i < j < |signals| ==> CellBefore(signals[i], signals[j]))
  }

  lemma CellTurns(p: Panel, row: nat, col: nat, g: Signal)
    requires Valid(p) && row < |p.weights| && col < p.width
    ensures g in CellSignals(p, row, col) <==> Turns(p, g) && g.row == row && g.col == col
    ensures |CellSignals(p, row, col)| <= 1
  {
  }

  lemma OneMoreCell(p: Panel, signals: seq<Signal>, row: nat, col: nat)
    requires Valid(p) && row < |p.weights| && col < p.width && TurnsUpTo(p, signals, row, col)
    ensures TurnsUpTo(p, signals + CellSignals(p, row, col), row, col + 1)
  {
    forall g
      ensures g in CellSignals(p, row, col) <==> Turns(p, g) && g.row == row && g.col == col
      ensures |CellSignals(p, row, col)| <= 1
    {
      CellTurns(p, row, col, g);
    }
    var last := CellSignals(p, row, col);
    hide Turns, CellSignals;
    assert forall i :: 0 <= i < |signals| ==> signals[i] in signals;
    assert forall i :: 0 <= i < |last| ==> last[i] in last;
  }

  lemma {:induction false} SignalsUpTo(p: Panel, row: nat, col: nat)
    requires Valid(p) && Position(p, row, col)
    ensures TurnsUpTo(p, WeightSignals(p, row, col), row, col)
    decreases row, col
  {
    if col > 0 {
      SignalsUpTo(p, row, col - 1);
      hide TurnsUpTo, CellSignals;
      OneMoreCell(p, WeightSignals(p, row, col - 1), row, col - 1);
    } else if row > 0 {
      SignalsUpTo(p, row - 1, p.width);
    }
  }

  /** The signals of the weights are exactly the turns, row by row and column by column. */
  lemma SignalsAreTurns(p: Panel)
    requires Valid(p)
    ensures var signals := WeightSignals(p, |p.weights|, 0);
      && (forall g :: g in signals <==> Turns(p, g))
      && (forall i, j :: 0 <= i < j < |signals| ==> CellBefore(signals[i], signals[j]))
  {
    SignalsUpTo(p, |p.weights|, 0);
    hide WeightSignals;
  }
}
