/**
 Round-trip trades extracted from a panel of target weights, and the buy and sell signals
 of the same panel.  Rows stand for timestamps and columns for instruments.
 */
module Trades {
  import opened Wrappers

  datatype Open = Open(col: nat, entry: nat)

  datatype Trade = Trade(col: nat, entry: nat, exit: nat, pnl: Option<real>)

  datatype Signal = Signal(row: nat, col: nat, buy: bool)

  /** A panel of weights with aligned closes; a close is missing when it is not finite. */
  datatype Panel = Panel(weights: seq<seq<real>>, closes: seq<seq<Option<real>>>, width: nat)

  ghost predicate Valid(p: Panel) {
    && |p.closes| == |p.weights|
    && forall r :: 0 <= r < |p.weights| ==> |p.weights[r]| == |p.closes[r]| == p.width
  }

  /** The weight before a row; nothing is held before the first. */
  function Before(p: Panel, row: nat, col: nat): real
    requires Valid(p) && row <= |p.weights| && col < p.width
  {
    if row == 0 then 0.0 else p.weights[row - 1][col]
  }

  // ----- the dictionary of open entries, in insertion order

  function Find(open: seq<Open>, col: nat): (r: int)
    ensures -1 <= r < |open| && (r >= 0 ==> open[r].col == col)
    ensures forall k :: r < k < |open| ==> open[k].col != col
  {
    if |open| == 0 then -1
    else if open[|open| - 1].col == col then |open| - 1
    else Find(open[..|open| - 1], col)
  }

  function Put(open: seq<Open>, o: Open): seq<Open> {
    var at := Find(open, o.col);
    if at >= 0 then open[at := o] else open + [o]
  }

  function Drop(open: seq<Open>, at: nat): seq<Open>
    requires at < |open|
  {
    open[..at] + open[at + 1..]
  }

  ghost predicate DistinctColumns(open: seq<Open>) {
    forall i, j :: 0 <= i < j < |open| ==> open[i].col != open[j].col
  }

  /** The entry row of the column, when it is open. */
  function EntryOf(open: seq<Open>, col: nat): Option<nat> {
    var at := Find(open, col);
    if at >= 0 then Some(open[at].entry) else None
  }

  lemma PutMeans(open: seq<Open>, o: Open, col: nat)
    requires DistinctColumns(open)
    ensures DistinctColumns(Put(open, o))
    ensures EntryOf(Put(open, o), col) == if col == o.col then Some(o.entry) else EntryOf(open, col)
  {
    EntryByMember(open, col);
    EntryByMember(Put(open, o), col);
    var at := Find(open, o.col);
    if at < 0 {
      assert Put(open, o)[|open|] == o;
      if exists i :: 0 <= i < |open| && open[i].col == col {
        var i :| 0 <= i < |open| && open[i].col == col;
        assert Put(open, o)[i] == open[i];
      }
    } else {
      assert Put(open, o)[at] == o;
      if exists i :: 0 <= i < |open| && open[i].col == col {
        var i :| 0 <= i < |open| && open[i].col == col;
        assert Put(open, o)[i].col == col;
      }
    }
  }

  lemma EntryByMember(open: seq<Open>, col: nat)
    requires DistinctColumns(open)
    ensures forall i :: 0 <= i < |open| && open[i].col == col ==> EntryOf(open, col) == Some(open[i].entry)
    ensures EntryOf(open, col).Some? ==> exists i :: 0 <= i < |open| && open[i] == Open(col, EntryOf(open, col).value)
  {
  }

  lemma DropMeans(open: seq<Open>, at: nat, col: nat)
    requires DistinctColumns(open) && at < |open|
    ensures DistinctColumns(Drop(open, at))
    ensures EntryOf(Drop(open, at), col) == if col == open[at].col then None else EntryOf(open, col)
  {
    EntryByMember(open, col);
    EntryByMember(Drop(open, at), col);
    if EntryOf(open, col).Some? && col != open[at].col {
      var i :| 0 <= i < |open| && open[i] == Open(col, EntryOf(open, col).value);
      assert Drop(open, at)[if i < at then i else i - 1] == open[i];
    }
  }

  // ----- extraction, cell by cell

  datatype State = State(open: seq<Open>, records: seq<Trade>)

  /** `(ep - epr) / epr`, when both prices are known. */
  function Pnl(p: Panel, col: nat, entry: nat, exit: nat): Option<real>
    requires Valid(p) && col < p.width
  {
    if entry < |p.closes| && exit < |p.closes| && p.closes[entry][col].Some? && p.closes[exit][col].Some?
       && p.closes[entry][col].value != 0.0
    then Some((p.closes[exit][col].value - p.closes[entry][col].value) / p.closes[entry][col].value)
    else None
  }

  function Closed(p: Panel, o: Open, exit: nat): Trade
    requires Valid(p)
  {
    Trade(o.col, o.entry, exit, if o.col < p.width then Pnl(p, o.col, o.entry, exit) else None)
  }

  /** One cell of the loop: from 0 to positive opens, from positive to 0 closes. */
  function Cell(p: Panel, s: State, row: nat, col: nat): State
    requires Valid(p) && row < |p.weights| && col < p.width
  {
    var before, after := Before(p, row, col), p.weights[row][col];
    var at := Find(s.open, col);
    if before == 0.0 && after > 0.0 then s.(open := Put(s.open, Open(col, row)))
    else if before > 0.0 && after == 0.0 && at >= 0 then State(Drop(s.open, at), s.records + [Closed(p, s.open[at], row)])
    else s
  }

  ghost predicate Position(p: Panel, row: nat, col: nat) {
    col <= p.width && (row < |p.weights| || (row == |p.weights| && col == 0))
  }

  /** The state when the loops stand at a row and a column. */
  ghost function Scan(p: Panel, row: nat, col: nat): State
    requires Valid(p) && Position(p, row, col)
    decreases row, col
  {
    if col > 0 then Cell(p, Scan(p, row, col - 1), row, col - 1)
    else if row > 0 then Scan(p, row - 1, p.width)
    else State([], [])
  }

  /** Positions still open at the end are closed at the last row. */
  function CloseAll(p: Panel, open: seq<Open>): (r: seq<Trade>)
    requires Valid(p) && |p.weights| > 0
    ensures |r| == |open| && forall i :: 0 <= i < |r| ==> r[i] == Closed(p, open[i], |p.weights| - 1)
  {
    if |open| == 0 then []
    else CloseAll(p, open[..|open| - 1]) + [Closed(p, open[|open| - 1], |p.weights| - 1)]
  }

  /** `extract_trades_from_weights`; the first `closed` trades ended when their weight went to 0. */
  method ExtractTrades(p: Panel) returns (trades: seq<Trade>, closed: nat)
    requires Valid(p)
    ensures |p.weights| == 0 ==> trades == [] && closed == 0
    ensures |p.weights| > 0 ==>
      var s := Scan(p, |p.weights|, 0);
      closed == |s.records| && trades == s.records + CloseAll(p, s.open)
  {
    if |p.weights| == 0 {
      return [], 0;
    }
    var open: seq<Open> := [];
    trades := [];
    for row := 0 to |p.weights|
      invariant State(open, trades) == Scan(p, row, 0)
    {
      for col := 0 to p.width
        invariant State(open, trades) == Scan(p, row, col)
      {
        var before, after := Before(p, row, col), p.weights[row][col];
        var at := Find(open, col);
        if before == 0.0 && after > 0.0 {
          open := Put(open, Open(col, row));
        } else if before > 0.0 && after == 0.0 && at >= 0 {
          trades := trades + [Closed(p, open[at], row)];
          open := Drop(open, at);
        }
      }
    }
    closed := |trades|;
    trades := trades + CloseAll(p, open);
  }

  // ----- signals

  function CellSignals(p: Panel, row: nat, col: nat): seq<Signal>
    requires Valid(p) && row < |p.weights| && col < p.width
  {
    var before, after := Before(p, row, col), p.weights[row][col];
    if before <= 0.0 && after > 0.0 then [Signal(row, col, true)]
    else if before > 0.0 && after <= 0.0 then [Signal(row, col, false)]
    else []
  }

  ghost function WeightSignals(p: Panel, row: nat, col: nat): seq<Signal>
    requires Valid(p) && Position(p, row, col)
    decreases row, col
  {
    if col > 0 then WeightSignals(p, row, col - 1) + CellSignals(p, row, col - 1)
    else if row > 0 then WeightSignals(p, row - 1, p.width)
    else []
  }

  /** `_ohlcv_rotation_weight_signals`. */
  method SignalsFromWeights(p: Panel) returns (signals: seq<Signal>)
    requires Valid(p)
    ensures signals == WeightSignals(p, |p.weights|, 0)
  {
    signals := [];
    for row := 0 to |p.weights|
      invariant signals == WeightSignals(p, row, 0)
    {
      for col := 0 to p.width
        invariant signals == WeightSignals(p, row, col)
      {
        signals := signals + CellSignals(p, row, col);
      }
    }
  }

  function BuyOf(t: Trade): Signal {
    Signal(t.entry, t.col, true)
  }

  function SellOf(t: Trade): Signal {
    Signal(t.exit, t.col, false)
  }

  function TradeSignals(trades: seq<Trade>): seq<Signal> {
    if |trades| == 0 then []
    else TradeSignals(trades[..|trades| - 1]) + [BuyOf(trades[|trades| - 1]), SellOf(trades[|trades| - 1])]
  }

  /** `_ohlcv_rotation_signals_from_trades`. */
  method SignalsFromTrades(trades: seq<Trade>) returns (signals: seq<Signal>)
    ensures signals == TradeSignals(trades)
  {
    signals := [];
    for i := 0 to |trades|
      invariant signals == TradeSignals(trades[..i])
    {
      assert trades[..i + 1][..i] == trades[..i];
      signals := signals + [BuyOf(trades[i])];
      signals := signals + [SellOf(trades[i])];
    }
    assert trades[..|trades|] == trades;
  }
}
