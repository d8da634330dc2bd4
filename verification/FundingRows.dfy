/** What the rows of the funding machine say, over every run and every fill stream. */
module FundingRows {
  import opened Wrappers
  import opened FillDriven
  import opened FundingCarry

  /** apr is what the row's funding pays in a year: 8760 hours at its rate per interval, eight hours by default. */
  ghost predicate PaysApr(row: FundingRow, apr: real) {
    && row.rate.Some?
    && apr * (if row.intervalHours.Some? && row.intervalHours.value > 0.0 then row.intervalHours.value else 8.0)
       == row.rate.value * 8760.0
  }

  /** Neither reading is beyond its limit; a missing reading is not. */
  ghost predicate WithinLimits(p: Params, row: FundingRow) {
    && (row.basisZ.Some? ==> -p.maxAbsBasisZ <= row.basisZ.value <= p.maxAbsBasisZ)
    && (row.crowding.Some? ==> row.crowding.value <= p.maxCrowding)
  }

  ghost predicate Enters(p: Params, row: FundingRow) {
    exists apr :: PaysApr(row, apr) && apr > p.minApr && WithinLimits(p, row)
  }

  ghost predicate Leaves(row: FundingRow) {
    exists apr :: PaysApr(row, apr) && apr < 0.0
  }

  /** The position when row i is handled, its due fills applied. */
  function Before(p: Params, fills: seq<Timed<Fill>>, frame: seq<FundingRow>, i: nat): bool
    requires i < |frame|
  {
    Drain(FundingMachine(p), fills, Run(FundingMachine(p), fills, false, frame[..i]).0, frame[i].ts).state
  }

  function EmittedAt(p: Params, fills: seq<Timed<Fill>>, frame: seq<FundingRow>, i: nat): Option<Signal>
    requires i < |frame|
  {
    Run(FundingMachine(p), fills, false, frame).1[i]
  }

  lemma EmittedBy(p: Params, fills: seq<Timed<Fill>>, frame: seq<FundingRow>, i: nat)
    requires i < |frame|
    ensures EmittedAt(p, fills, frame, i) == Decide(p, Before(p, fills, frame, i), frame[i])
  {
    var machine := FundingMachine(p);
    RunPrefix(machine, fills, false, frame, i + 1);
    RunSnoc(machine, fills, false, frame, i);
    assert EmittedAt(p, fills, frame, i) == Run(machine, fills, false, frame[..i + 1]).1[i];
    hide Run, Drain, Decide;
  }

  lemma AprIsPaid(row: FundingRow, apr: real)
    ensures PaysApr(row, apr) <==> row.rate.Some? && apr == Apr(row.rate.value, HoursOf(row))
  {
    if row.rate.Some? {
      var h := HoursOf(row);
      var a := row.rate.value * (8760.0 / h);
      assert a * h == row.rate.value * (8760.0 / h * h);
      if apr * h == row.rate.value * 8760.0 {
        Cancel(apr, a, h);
      }
    }
  }

  lemma Cancel(a: real, b: real, h: real)
    requires h > 0.0 && a * h == b * h
    ensures a == b
  {
    assert (a - b) * h == 0.0;
  }

  lemma PositiveFactor(a: real, b: real)
    requires b > 0.0 && a * b > 0.0
    ensures a > 0.0
  {
  }

  lemma StrengthIsFull(p: Params, apr: real)
    requires apr > p.minApr
    ensures Strength(p, apr) == 1.0
  {
    if p.minApr > 0.0 {
      var q := apr / p.minApr;
      assert q * p.minApr == apr;
      assert (q - 1.0) * p.minApr == apr - p.minApr;
      PositiveFactor(q - 1.0, p.minApr);
    }
  }

  lemma DecideMeans(p: Params, inPosition: bool, row: FundingRow)
    ensures var g := Decide(p, inPosition, row);
      && (g.Some? <==> if inPosition then Leaves(row) else Enters(p, row))
      && (g.Some? ==>
            && g.value.ts == row.ts && PaysApr(row, g.value.apr) && g.value.strength == 1.0
            && (if inPosition then g.value.action == Exit && g.value.side == Buy && g.value.apr < 0.0
                else g.value.action == Entry && g.value.side == Sell && g.value.apr > p.minApr && WithinLimits(p, row)))
  {
    forall apr
      ensures PaysApr(row, apr) <==> row.rate.Some? && apr == Apr(row.rate.value, HoursOf(row))
    {
      AprIsPaid(row, apr);
    }
    hide PaysApr, Apr, HoursOf;
    if row.rate.Some? {
      var apr := Apr(row.rate.value, HoursOf(row));
      assert PaysApr(row, apr);
      if apr > p.minApr {
        StrengthIsFull(p, apr);
      }
      hide Strength;
    }
  }

  /**
   Over every run and every fill stream: a row enters exactly when the machine is flat, the
   funding pays more than the minimum, and both readings are within their limits; it leaves
   exactly when a position is held and the funding is negative.  The strength is always full.
   */
  lemma RowsExactly(p: Params, fills: seq<Timed<Fill>>, frame: seq<FundingRow>, i: nat)
    requires i < |frame|
    ensures var held, g := Before(p, fills, frame, i), EmittedAt(p, fills, frame, i);
      && (g.Some? <==> if held then Leaves(frame[i]) else Enters(p, frame[i]))
      && (g.Some? ==>
            && g.value.ts == frame[i].ts && PaysApr(frame[i], g.value.apr) && g.value.strength == 1.0
            && (if held then g.value.action == Exit && g.value.side == Buy && g.value.apr < 0.0
                else g.value.action == Entry && g.value.side == Sell && g.value.apr > p.minApr && WithinLimits(p, frame[i])))
  {
    EmittedBy(p, fills, frame, i);
    DecideMeans(p, Before(p, fills, frame, i), frame[i]);
    hide Before, EmittedAt, Decide, PaysApr, Leaves, Enters;
  }

  // ----- the position, from the fills alone

  /** The last fill that says so opens the position: an entry or a sale opens, any other exit or purchase closes. */
  function Open(fills: seq<Timed<Fill>>): bool {
    if fills == [] then false
    else
      var f := fills[|fills| - 1].fill;
      if f.action == Entry || f.side == Sell then true
      else if f.action == Exit || f.side == Buy then false
      else Open(fills[..|fills| - 1])
  }

  lemma {:induction false} DrainOpens(p: Params, fills: seq<Timed<Fill>>, b: Book<bool>, upTo: int)
    requires b.used <= |fills| && b.state == Open(fills[..b.used])
    ensures var d := Drain(FundingMachine(p), fills, b, upTo); d.state == Open(fills[..d.used])
    decreases |fills| - b.used
  {
    if b.used < |fills| && fills[b.used].ts <= upTo {
      assert fills[..b.used + 1][..b.used] == fills[..b.used];
      DrainOpens(p, fills, Book(AfterFill(b.state, fills[b.used].fill), b.used + 1), upTo);
    }
  }

  lemma {:induction false} RunOpens(p: Params, fills: seq<Timed<Fill>>, frame: seq<FundingRow>)
    requires fills != []
    ensures var b := Run(FundingMachine(p), fills, false, frame).0; b.state == Open(fills[..b.used])
  {
    if frame != [] {
      var n := |frame| - 1;
      RunOpens(p, fills, frame[..n]);
      DrainOpens(p, fills, Run(FundingMachine(p), fills, false, frame[..n]).0, frame[n].ts);
    }
  }

  /** With fills, a position is held exactly when the fills at or before the row's time say so. */
  lemma HeldByFills(p: Params, fills: seq<Timed<Fill>>, frame: seq<FundingRow>, i: nat) returns (k: nat)
    requires fills != [] && i < |frame| && InTime(fills)
    requires forall a, b :: 0 <= a < b < |frame| ==> frame[a].ts <= frame[b].ts
    ensures DueBy(fills, k, frame[i].ts) && Before(p, fills, frame, i) == Open(fills[..k])
  {
    var machine := FundingMachine(p);
    FillsApplied(machine, fills, false, frame, i);
    RunOpens(p, fills, frame[..i]);
    DrainOpens(p, fills, Run(machine, fills, false, frame[..i]).0, frame[i].ts);
    k := Drain(machine, fills, Run(machine, fills, false, frame[..i]).0, frame[i].ts).used;
    hide Run, Drain, Open;
  }
}
