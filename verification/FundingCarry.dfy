/** The funding-carry reference machine: short the perpetual while funding pays for it. */
module FundingCarry {
  import opened Wrappers
  import opened FillDriven

  datatype Params = Params(minApr: real, maxAbsBasisZ: real, maxCrowding: real)

  /** One funding row; a missing number is one that is absent or not finite. */
  datatype FundingRow = FundingRow(ts: int, rate: Option<real>, intervalHours: Option<real>,
                                   basisZ: Option<real>, crowding: Option<real>)

  datatype Side = Buy | Sell | OtherSide
  datatype Action = Entry | Exit | OtherAction

  datatype Signal = Signal(ts: int, side: Side, action: Action, apr: real, strength: real)
  datatype Fill = Fill(side: Side, action: Action)

  function Abs(x: real): real {
    if x < 0.0 then -x else x
  }

  function HoursOf(row: FundingRow): real {
    if row.intervalHours.Some? && row.intervalHours.value > 0.0 then row.intervalHours.value else 8.0
  }

  function Apr(rate: real, hours: real): real
    requires hours > 0.0
  {
    rate * (8760.0 / hours)
  }

  /** `_funding_carry_entry_gate`. */
  predicate EntryAllowed(p: Params, apr: real, row: FundingRow) {
    && apr > p.minApr
    && (row.basisZ.Some? ==> Abs(row.basisZ.value) <= p.maxAbsBasisZ)
    && (row.crowding.Some? ==> row.crowding.value <= p.maxCrowding)
  }

  function Strength(p: Params, apr: real): real {
    if p.minApr > 0.0 then (if apr / p.minApr < 1.0 then apr / p.minApr else 1.0) else 1.0
  }

  /** What one funding row makes the machine signal. */
  function Decide(p: Params, inPosition: bool, row: FundingRow): Option<Signal> {
    if row.rate.None? then None
    else
      var apr := Apr(row.rate.value, HoursOf(row));
      if !inPosition then
        if EntryAllowed(p, apr, row) then Some(Signal(row.ts, Sell, Entry, apr, Strength(p, apr))) else None
      else if apr < 0.0 then Some(Signal(row.ts, Buy, Exit, apr, 1.0))
      else None
  }

  /** The position after a fill; a fill that is neither an entry nor an exit changes nothing. */
  function AfterFill(inPosition: bool, f: Fill): bool {
    if f.action == Entry || f.side == Sell then true
    else if f.action == Exit || f.side == Buy then false
    else inPosition
  }

  function FundingMachine(p: Params): Machine<bool, FundingRow, Signal, Fill> {
    Machine(
      (row: FundingRow) => row.ts,
      (inPosition: bool, row: FundingRow) => (inPosition, Decide(p, inPosition, row)),
      (inPosition: bool, g: Signal) => g.action == Entry,
      (inPosition: bool, f: Fill) => AfterFill(inPosition, f)
    )
  }

  predicate Matches(g: Signal, f: Fill) {
    f.side == g.side && f.action == g.action
  }

  /** `apply_fills`. */
  method ApplyFills(p: Params, fills: seq<Timed<Fill>>, start: bool, first: nat, upTo: int)
    returns (inPosition: bool, fillIdx: nat)
    requires first <= |fills|
    ensures Book(inPosition, fillIdx) == Drain(FundingMachine(p), fills, Book(start, first), upTo)
  {
    inPosition, fillIdx := start, first;
    while fillIdx < |fills| && fills[fillIdx].ts <= upTo
      invariant fillIdx <= |fills|
      invariant Drain(FundingMachine(p), fills, Book(inPosition, fillIdx), upTo) ==
        Drain(FundingMachine(p), fills, Book(start, first), upTo)
    {
      var fill := fills[fillIdx].fill;
      if fill.action == Entry || fill.side == Sell {
        inPosition := true;
      } else if fill.action == Exit || fill.side == Buy {
        inPosition := false;
      }
      fillIdx := fillIdx + 1;
    }
  }

  /** The body of the loop over the funding frame, after the fills. */
  method OnRow(p: Params, inPosition: bool, row: FundingRow, immediate: bool)
    returns (signals: seq<Signal>, after: bool)
    ensures signals == Emitted(Decide(p, inPosition, row))
    ensures after == if immediate && signals != [] then signals[0].action == Entry else inPosition
  {
    signals, after := [], inPosition;
    if row.rate.None? {
      return;
    }
    var hours := 8.0;
    if row.intervalHours.Some? && row.intervalHours.value > 0.0 {
      hours := row.intervalHours.value;
    }
    var apr := Apr(row.rate.value, hours);
    if !inPosition {
      var allowed := EntryAllowed(p, apr, row);
      if !allowed {
        return;
      }
      signals := [Signal(row.ts, Sell, Entry, apr, Strength(p, apr))];
      if immediate {
        after := true;
      }
    } else if apr < 0.0 {
      signals := [Signal(row.ts, Buy, Exit, apr, 1.0)];
      if immediate {
        after := false;
      }
    }
  }

  /** `_funding_carry_reference_signals`, the loop over the funding frame. */
  method FundingSignals(p: Params, frame: seq<FundingRow>, fills: seq<Timed<Fill>>) returns (rows: seq<Signal>)
    ensures rows == Rows(Run(FundingMachine(p), fills, false, frame).1)
  {
    var inPosition := false;
    var fillIdx: nat := 0;
    rows := [];
    for i := 0 to |frame|
      invariant fillIdx <= |fills|
      invariant Run(FundingMachine(p), fills, false, frame[..i]).0 == Book(inPosition, fillIdx)
      invariant rows == Rows(Run(FundingMachine(p), fills, false, frame[..i]).1)
    {
      RunRows(FundingMachine(p), fills, false, frame, i);
      if |fills| != 0 {
        inPosition, fillIdx := ApplyFills(p, fills, inPosition, fillIdx, frame[i].ts);
      }
      var signals, after := OnRow(p, inPosition, frame[i], |fills| == 0);
      rows := rows + signals;
      inPosition := after;
    }
    assert frame[..|frame|] == frame;
  }

  lemma FundingFillsCommit(p: Params)
    ensures FillsCommit(FundingMachine(p), Matches)
  {
  }

  /** Timely fills of the machine's own signals reproduce the run without fills. */
  lemma FundingDrivenEqualsImmediate(p: Params, frame: seq<FundingRow>, fills: seq<Timed<Fill>>)
    requires forall i, j :: 0 <= i < j < |frame| ==> frame[i].ts <= frame[j].ts
    requires FillsFollow(FundingMachine(p), Matches, frame, Run(FundingMachine(p), [], false, frame).1, fills)
    ensures Run(FundingMachine(p), fills, false, frame).1 == Run(FundingMachine(p), [], false, frame).1
  {
    FundingFillsCommit(p);
    DrivenEqualsImmediate(FundingMachine(p), Matches, false, frame, fills);
  }

  /** Two rows, both paying 100 percent every eight hours. */
  function TwoPayingRows(): seq<FundingRow> {
    [FundingRow(1, Some(1.0), None, None, None), FundingRow(2, Some(1.0), None, None, None)]
  }

  lemma TwoRowRun(m: Machine<bool, FundingRow, Signal, Fill>, fills: seq<Timed<Fill>>)
    ensures var frame := TwoPayingRows();
      var first := Step(m, fills, Book(false, 0), frame[0]);
      Rows(Run(m, fills, false, frame).1) == Emitted(first.1) + Emitted(Step(m, fills, first.0, frame[1]).1)
  {
    var frame := TwoPayingRows();
    assert frame[..2] == frame;
    RunRows(m, fills, false, frame, 0);
    RunRows(m, fills, false, frame, 1);
  }

  /** A fill that comes after the next row makes the driven machine repeat its entry. */
  lemma LateFillRepeatsEntry(p: Params)
    requires p.minApr < 1095.0
    ensures |Rows(Run(FundingMachine(p), [], false, TwoPayingRows()).1)| == 1
    ensures |Rows(Run(FundingMachine(p), [Timed(3, Fill(Sell, Entry))], false, TwoPayingRows()).1)| == 2
  {
    var row := TwoPayingRows()[0];
    assert Apr(1.0, 8.0) == 1095.0;
    assert EntryAllowed(p, 1095.0, row);
    TwoRowRun(FundingMachine(p), []);
    TwoRowRun(FundingMachine(p), [Timed(3, Fill(Sell, Entry))]);
  }

  /** Without fills entries and exits alternate, starting with an entry. */
  lemma {:induction false} FundingAlternates(p: Params, frame: seq<FundingRow>)
    ensures var r := Run(FundingMachine(p), [], false, frame);
      && (forall i :: 0 <= i < |Rows(r.1)| ==>
            Rows(r.1)[i].action == (if i % 2 == 0 then Entry else Exit) &&
            Rows(r.1)[i].side == (if i % 2 == 0 then Sell else Buy))
      && r.0.state == (|Rows(r.1)| % 2 == 1)
  {
    if frame != [] {
      var n := |frame| - 1;
      FundingAlternates(p, frame[..n]);
      assert frame[..n + 1] == frame;
      RunSnoc(FundingMachine(p), [], false, frame, n);
      var emitted := Run(FundingMachine(p), [], false, frame).1;
      assert emitted[..n] == Run(FundingMachine(p), [], false, frame[..n]).1;
    }
  }
}
