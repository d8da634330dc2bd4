/**
 The pairs-trading reference machine: a Kalman hedge ratio between two log prices, a
 calibrated spread, and entries, exits and stops on its z score.
 */
module PairsTrading {
  import opened Wrappers
  import opened FillDriven

  /** A calibration; a missing number is one that is not finite. */
  datatype Ou = Ou(mu: Option<real>, sigma: Option<real>, halfLife: Option<real>)

  datatype Params = Params(symbolY: string, symbolX: string, noise: real, maxSpreads: nat,
                           entryZ: real, exitZ: real, stopZ: real,
                           barSeconds: int, maxHalfLifeHours: real, maxHedgeUncertainty: real)

  /** The numerical routines the machine calls. */
  datatype Numerics = Numerics(log: real -> real, estimate: seq<real> -> Ou)

  datatype Event = Event(ts: int, symbol: string, price: Option<real>)

  /** Everything but the position: hedge ratio, spread history, calibration and latest prices. */
  datatype Filter = Filter(beta: real, variance: real, spreads: seq<real>, ou: Ou, calibrated: bool,
                           lastOu: int, lastSpread: int, prices: map<string, real>, times: map<string, int>)

  datatype Position = Flat | ShortY | LongY

  datatype State = State(filter: Filter, inPosition: bool, side: Position)

  datatype Side = Buy | Sell
  datatype Action = Entry | Exit | Stop | OtherAction

  datatype Signal = Signal(ts: int, side: Side, action: Action, price: real, z: real, beta: real)
  datatype Fill = Fill(side: Side, action: Action)

  const START: State :=
    State(Filter(1.0, 1.0, [], Ou(None, None, None), false, 0, 0, map[], map[]), false, Flat)

  function Abs(x: real): real {
    if x < 0.0 then -x else x
  }

  function Min(a: int, b: int): int {
    if a < b then a else b
  }

  function LastN(s: seq<real>, n: nat): seq<real> {
    if |s| > n then s[|s| - n..] else s
  }

  /** `s_value`. */
  function Innovated(predicted: real, logX: real): real {
    predicted * (logX * logX) + 1.0
  }

  /** `kalman_gain`. */
  function Gain(predicted: real, logX: real): real {
    if Innovated(predicted, logX) == 0.0 then 0.0 else predicted * logX / Innovated(predicted, logX)
  }

  /** What the step leaves of a predicted variance, and of a spread. */
  function Left(predicted: real, logX: real): real {
    1.0 - Gain(predicted, logX) * logX
  }

  function Scaled(share: real, x: real): real {
    share * x
  }

  /** One Kalman step: the new hedge ratio and its variance. */
  function Kalman(beta: real, variance: real, noise: real, innovation: real, logX: real): (real, real) {
    var predicted := variance + noise;
    if Innovated(predicted, logX) == 0.0 then (beta, variance)
    else (beta + Gain(predicted, logX) * innovation, Scaled(Left(predicted, logX), predicted))
  }

  function Spread(beta: real, logY: real, logX: real): real {
    logY - beta * logX
  }

  function ZScore(spread: real, mu: real, sigma: real): real
    requires sigma > 0.0
  {
    (spread - mu) / sigma
  }

  /** What one price does to the filter, and the z score when there is one to act on. */
  function Observe(p: Params, m: Numerics, f: Filter, e: Event): (Filter, Option<real>) {
    if e.price.None? || e.price.value <= 0.0 then (f, None)
    else
      var g := f.(prices := f.prices[e.symbol := e.price.value], times := f.times[e.symbol := e.ts]);
      if p.symbolY !in g.prices || p.symbolX !in g.prices || p.symbolY !in g.times || p.symbolX !in g.times then (g, None)
      else
        var pairTs := Min(g.times[p.symbolY], g.times[p.symbolX]);
        if pairTs <= g.lastSpread then (g, None)
        else
          var logY, logX := m.log(g.prices[p.symbolY]), m.log(g.prices[p.symbolX]);
          var spread := Spread(g.beta, logY, logX);
          var (beta, variance) := Kalman(g.beta, g.variance, p.noise, spread, logX);
          var spreads := LastN(g.spreads + [spread], p.maxSpreads);
          var due := e.ts - g.lastOu > 3600000 && |spreads| > 100;
          var ou := if due then m.estimate(spreads) else g.ou;
          var h := Filter(beta, variance, spreads, ou, g.calibrated || due, if due then e.ts else g.lastOu, pairTs,
                          g.prices, g.times);
          if ou.mu.None? || ou.sigma.None? || ou.sigma.value <= 0.0 then (h, None)
          else (h, Some(ZScore(spread, ou.mu.value, ou.sigma.value)))
  }

  /** `_pairs_quality_gate_passed`. */
  predicate QualityGate(p: Params, f: Filter) {
    && f.calibrated
    && f.ou.halfLife.Some? && f.ou.halfLife.value > 0.0
    && f.ou.halfLife.value * (if p.barSeconds < 1 then 1 else p.barSeconds) as real / 3600.0 <= p.maxHalfLifeHours
    && f.ou.sigma.Some? && f.ou.sigma.value > 0.0
    && f.variance <= p.maxHedgeUncertainty
  }

  function Closing(side: Position): Side {
    if side == ShortY then Buy else Sell
  }

  function Opened(side: Side): Position {
    if side == Sell then ShortY else LongY
  }

  function PriceY(p: Params, f: Filter): real {
    if p.symbolY in f.prices then f.prices[p.symbolY] else 0.0
  }

  /** What the z score makes the machine signal; an entry sets the side before it is filled. */
  function Decide(p: Params, s: State, ts: int, z: real): (State, Option<Signal>) {
    var price, beta := PriceY(p, s.filter), s.filter.beta;
    if Abs(z) > p.stopZ && s.inPosition then (s, Some(Signal(ts, Closing(s.side), Stop, price, z, beta)))
    else if s.inPosition && Abs(z) < p.exitZ then (s, Some(Signal(ts, Closing(s.side), Exit, price, z, beta)))
    else if !s.inPosition && Abs(z) > p.entryZ && QualityGate(p, s.filter) then
      var side := if z > 0.0 then Sell else Buy;
      (s.(side := Opened(side)), Some(Signal(ts, side, Entry, price, z, beta)))
    else (s, None)
  }

  function Process(p: Params, m: Numerics, s: State, e: Event): (State, Option<Signal>) {
    var (filter, z) := Observe(p, m, s.filter, e);
    var t := s.(filter := filter);
    if z.None? then (t, None) else Decide(p, t, e.ts, z.value)
  }

  function AfterFill(s: State, f: Fill): State {
    match f.action
    case Entry => s.(inPosition := true, side := Opened(f.side))
    case Exit => s.(inPosition := false, side := Flat)
    case Stop => s.(inPosition := false, side := Flat)
    case OtherAction => s
  }

  function AfterSignal(s: State, g: Signal): State {
    if g.action == Entry then s.(inPosition := true) else s.(inPosition := false, side := Flat)
  }

  function PairsMachine(p: Params, m: Numerics): Machine<State, Event, Signal, Fill> {
    Machine(
      (e: Event) => e.ts,
      (s: State, e: Event) => Process(p, m, s, e),
      (s: State, g: Signal) => AfterSignal(s, g),
      (s: State, f: Fill) => AfterFill(s, f)
    )
  }

  predicate Matches(g: Signal, f: Fill) {
    f.side == g.side && f.action == g.action
  }

  /** A fill of a signal leaves the position, side included, as the signal does in immediate mode. */
  lemma PairsFillsCommit(p: Params, m: Numerics)
    ensures FillsCommit(PairsMachine(p, m), Matches)
  {
    hide Observe, QualityGate;
  }

  /** Timely fills of the machine's own signals reproduce the run without fills. */
  lemma PairsDrivenEqualsImmediate(p: Params, m: Numerics, events: seq<Event>, fills: seq<Timed<Fill>>)
    requires forall i, j :: 0 <= i < j < |events| ==> events[i].ts <= events[j].ts
    requires FillsFollow(PairsMachine(p, m), Matches, events, Run(PairsMachine(p, m), [], START, events).1, fills)
    ensures Run(PairsMachine(p, m), fills, START, events).1 == Run(PairsMachine(p, m), [], START, events).1
  {
    PairsFillsCommit(p, m);
    DrivenEqualsImmediate(PairsMachine(p, m), Matches, START, events, fills);
  }

  // ----- the machine as it is written

  /** `apply_fills`. */
  method ApplyFills(p: Params, m: Numerics, fills: seq<Timed<Fill>>, filter: Filter, position: bool, sideBefore: Position,
                    first: nat, upTo: int)
    returns (inPosition: bool, side: Position, fillIdx: nat)
    requires first <= |fills|
    ensures Book(State(filter, inPosition, side), fillIdx) ==
      Drain(PairsMachine(p, m), fills, Book(State(filter, position, sideBefore), first), upTo)
  {
    inPosition, side, fillIdx := position, sideBefore, first;
    while fillIdx < |fills| && fills[fillIdx].ts <= upTo
      invariant fillIdx <= |fills|
      invariant Drain(PairsMachine(p, m), fills, Book(State(filter, inPosition, side), fillIdx), upTo) ==
        Drain(PairsMachine(p, m), fills, Book(State(filter, position, sideBefore), first), upTo)
    {
      var fill := fills[fillIdx].fill;
      if fill.action == Entry {
        inPosition := true;
        side := if fill.side == Sell then ShortY else LongY;
      } else if fill.action == Exit || fill.action == Stop {
        inPosition := false;
        side := Flat;
      }
      fillIdx := fillIdx + 1;
    }
  }

  /** The part of the loop body that updates hedge ratio, spread and calibration. */
  method ObservePrice(p: Params, m: Numerics, before: Filter, e: Event) returns (f: Filter, z: Option<real>)
    ensures f == Observe(p, m, before, e).0 && z == Observe(p, m, before, e).1
  {
    hide Kalman, LastN, Spread, ZScore;
    f, z := before, None;
    if e.price.None? || e.price.value <= 0.0 {
      return;
    }
    f := f.(prices := f.prices[e.symbol := e.price.value], times := f.times[e.symbol := e.ts]);
    if p.symbolY !in f.prices || p.symbolX !in f.prices || p.symbolY !in f.times || p.symbolX !in f.times {
      return;
    }
    var pairTs := Min(f.times[p.symbolY], f.times[p.symbolX]);
    if pairTs <= f.lastSpread {
      return;
    }
    var logY, logX := m.log(f.prices[p.symbolY]), m.log(f.prices[p.symbolX]);
    var spread := Spread(f.beta, logY, logX);
    var (beta, variance) := Kalman(f.beta, f.variance, p.noise, spread, logX);
    f := f.(beta := beta, variance := variance, lastSpread := pairTs, spreads := LastN(f.spreads + [spread], p.maxSpreads));
    if e.ts - f.lastOu > 3600000 && |f.spreads| > 100 {
      f := f.(ou := m.estimate(f.spreads), calibrated := true, lastOu := e.ts);
    }
    if f.ou.mu.None? || f.ou.sigma.None? || f.ou.sigma.value <= 0.0 {
      return;
    }
    z := Some(ZScore(spread, f.ou.mu.value, f.ou.sigma.value));
  }

  /** The part of the loop body that signals. */
  method ActOn(p: Params, filter: Filter, position: bool, sideBefore: Position, ts: int, z: real, immediate: bool)
    returns (signals: seq<Signal>, inPosition: bool, side: Position)
    ensures var r := Decide(p, State(filter, position, sideBefore), ts, z);
      && signals == Emitted(r.1)
      && State(filter, inPosition, side) == if immediate && r.1.Some? then AfterSignal(r.0, r.1.value) else r.0
  {
    hide QualityGate;
    signals, inPosition, side := [], position, sideBefore;
    if Abs(z) > p.stopZ && inPosition {
      signals := [Signal(ts, Closing(side), Stop, PriceY(p, filter), z, filter.beta)];
      if immediate {
        inPosition, side := false, Flat;
      }
      return;
    }
    if inPosition && Abs(z) < p.exitZ {
      signals := [Signal(ts, Closing(side), Exit, PriceY(p, filter), z, filter.beta)];
      if immediate {
        inPosition, side := false, Flat;
      }
      return;
    }
    if !inPosition && Abs(z) > p.entryZ {
      var passed := QualityGate(p, filter);
      if !passed {
        return;
      }
      var entrySide := if z > 0.0 then Sell else Buy;
      side := if entrySide == Sell then ShortY else LongY;
      signals := [Signal(ts, entrySide, Entry, PriceY(p, filter), z, filter.beta)];
      if immediate {
        inPosition := true;
      }
    }
  }

  /** The body of the loop over the price events. */
  method OnEvent(p: Params, m: Numerics, fills: seq<Timed<Fill>>, s: State, used: nat, e: Event)
    returns (signals: seq<Signal>, after: State, fillIdx: nat)
    requires used <= |fills|
    ensures var r := Step(PairsMachine(p, m), fills, Book(s, used), e);
      Book(after, fillIdx) == r.0 && signals == Emitted(r.1)
  {
    hide Drain, Observe, Decide, AfterFill;
    signals := [];
    var inPosition, side := s.inPosition, s.side;
    fillIdx := used;
    if |fills| != 0 {
      inPosition, side, fillIdx := ApplyFills(p, m, fills, s.filter, inPosition, side, fillIdx, e.ts);
    } else {
      NoFillsDrain(PairsMachine(p, m), Book(s, used), e.ts);
    }
    DrainKeepsFilter(p, m, fills, Book(s, used), e.ts);
    var filter, z := ObservePrice(p, m, s.filter, e);
    if z.Some? {
      signals, inPosition, side := ActOn(p, filter, inPosition, side, e.ts, z.value, |fills| == 0);
    }
    after := State(filter, inPosition, side);
  }

  lemma {:induction false} DrainKeepsFilter(p: Params, m: Numerics, fills: seq<Timed<Fill>>, b: Book<State>, upTo: int)
    requires b.used <= |fills|
    ensures Drain(PairsMachine(p, m), fills, b, upTo).state.filter == b.state.filter
    decreases |fills| - b.used
  {
    if b.used < |fills| && fills[b.used].ts <= upTo {
      DrainKeepsFilter(p, m, fills, Book(AfterFill(b.state, fills[b.used].fill), b.used + 1), upTo);
    }
  }

  /** `_pairs_trading_signal_rows`. */
  method PairsSignals(p: Params, m: Numerics, events: seq<Event>, fills: seq<Timed<Fill>>) returns (rows: seq<Signal>)
    ensures rows == Rows(Run(PairsMachine(p, m), fills, START, events).1)
  {
    var state := START;
    var fillIdx: nat := 0;
    rows := [];
    for i := 0 to |events|
      invariant fillIdx <= |fills|
      invariant Run(PairsMachine(p, m), fills, START, events[..i]).0 == Book(state, fillIdx)
      invariant rows == Rows(Run(PairsMachine(p, m), fills, START, events[..i]).1)
    {
      RunRows(PairsMachine(p, m), fills, START, events, i);
      hide Run, Rows, Step, PairsMachine;
      var signals;
      signals, state, fillIdx := OnEvent(p, m, fills, state, fillIdx, events[i]);
      rows := rows + signals;
    }
    assert events[..|events|] == events;
  }

  // ----- without fills

  /** Entries alternate with exits or stops, each closing on the other side; the state knows the open one. */
  ghost predicate RoundTrips(s: State, rows: seq<Signal>) {
    && (forall i :: 0 <= i < |rows| ==> rows[i].action != OtherAction && (rows[i].action == Entry <==> i % 2 == 0))
    && (forall i :: 0 < i < |rows| && i % 2 == 1 ==> rows[i].side != rows[i - 1].side)
    && s.inPosition == (|rows| % 2 == 1)
    && (s.inPosition ==> s.side == Opened(rows[|rows| - 1].side))
  }

  lemma StepKeepsRoundTrips(p: Params, m: Numerics, s: State, rows: seq<Signal>, e: Event)
    requires RoundTrips(s, rows)
    ensures var r := Step(PairsMachine(p, m), [], Book(s, 0), e);
      RoundTrips(r.0.state, rows + Emitted(r.1)) && r.0.used == 0
  {
    hide Observe, QualityGate;
    NoFillsDrain(PairsMachine(p, m), Book(s, 0), e.ts);
    if Process(p, m, s, e).1.None? {
      assert rows + [] == rows;
    }
  }

  lemma {:induction false} RunRoundTrips(p: Params, m: Numerics, events: seq<Event>, i: nat)
    requires i <= |events|
    ensures var r := Run(PairsMachine(p, m), [], START, events[..i]);
      RoundTrips(r.0.state, Rows(r.1)) && r.0.used == 0
  {
    if i > 0 {
      hide Run, Rows, RoundTrips, Step, PairsMachine;
      RunRoundTrips(p, m, events, i - 1);
      RunRows(PairsMachine(p, m), [], START, events, i - 1);
      var before := Run(PairsMachine(p, m), [], START, events[..i - 1]);
      StepKeepsRoundTrips(p, m, before.0.state, Rows(before.1), events[i - 1]);
    }
  }

  /** Without fills every entry is closed by the next signal, an exit or a stop on the opposite side. */
  lemma PairsAlternate(p: Params, m: Numerics, events: seq<Event>)
    ensures var r := Run(PairsMachine(p, m), [], START, events); RoundTrips(r.0.state, Rows(r.1))
  {
    RunRoundTrips(p, m, events, |events|);
    assert events[..|events|] == events;
  }

  // ----- the filter stays sane, whatever the prices and the fills

  /** The divisor is at least 1, so the step is always taken, and it leaves a share between 0 and 1. */
  lemma LeftShare(predicted: real, logX: real)
    requires predicted > 0.0
    ensures Innovated(predicted, logX) >= 1.0 && 0.0 < Left(predicted, logX) <= 1.0
  {
    var square, s := logX * logX, Innovated(predicted, logX);
    assert square >= 0.0;
    assert predicted * square >= 0.0;
    assert Gain(predicted, logX) * logX == predicted * square / s;
    assert predicted * square / s == (s - 1.0) / s;
    assert (s - 1.0) / s == 1.0 - 1.0 / s;
    assert 0.0 < 1.0 / s <= 1.0;
  }

  lemma NotNegative(x: real, y: real)
    requires x >= 0.0 && y >= 0.0
    ensures x * y >= 0.0
    ensures x > 0.0 && y > 0.0 ==> x * y > 0.0
  {
  }

  lemma Shrinks(share: real, a: real)
    requires 0.0 < share <= 1.0
    ensures Abs(Scaled(share, a)) <= Abs(a) && (a > 0.0 ==> 0.0 < Scaled(share, a) <= a)
  {
    if a > 0.0 {
      NotNegative(share, a);
      NotNegative(1.0 - share, a);
    } else {
      NotNegative(share, -a);
      NotNegative(1.0 - share, -a);
    }
  }

  lemma SpreadAfter(beta: real, predicted: real, logY: real, logX: real)
    ensures Spread(beta + Gain(predicted, logX) * Spread(beta, logY, logX), logY, logX) ==
      Scaled(Left(predicted, logX), Spread(beta, logY, logX))
  {
    var gain := Gain(predicted, logX);
    hide Gain;
    var i := Spread(beta, logY, logX);
    assert (beta + gain * i) * logX == beta * logX + gain * i * logX;
    assert gain * i * logX == (gain * logX) * i;
  }

  /** What a hedge ratio costs: its distance from the old one, and the spread it leaves. */
  ghost function Cost(beta: real, predicted: real, logY: real, logX: real, b: real): real {
    Sq(b - beta) + predicted * Sq(Spread(b, logY, logX))
  }

  function Sq(x: real): real {
    Scaled(x, x)
  }

  lemma Square(x: real, y: real)
    ensures (x + y) * (x + y) == x * x + 2.0 * (x * y) + y * y
  {
  }

  lemma SpreadMoves(c: real, d: real, logY: real, logX: real)
    ensures Spread(c + d, logY, logX) == Spread(c, logY, logX) - d * logX
  {
    assert (c + d) * logX == c * logX + d * logX;
  }

  /** Away from a ratio c whose pull balances, the cost grows with the square of the distance. */
  lemma CostAround(beta: real, predicted: real, logY: real, logX: real, c: real, d: real)
    requires predicted > 0.0 && c - beta == predicted * (logX * Spread(c, logY, logX))
    ensures Cost(beta, predicted, logY, logX, c + d) ==
      Cost(beta, predicted, logY, logX, c) + Sq(d) + predicted * Sq(d * logX)
  {
    SpreadMoves(c, d, logY, logX);
    var s := Spread(c, logY, logX);
    hide Spread;
    Square(c - beta, d);
    Square(s, -(d * logX));
    assert c + d - beta == (c - beta) + d;
    assert (c - beta) * d == predicted * ((logX * s) * d) by {
      Commuted(predicted, logX * s, d);
    }
    assert (logX * s) * d == s * (d * logX);
    Distributed(predicted, s, d * logX);
  }

  lemma Commuted(a: real, b: real, c: real)
    ensures (a * b) * c == a * (b * c)
  {
  }

  lemma Distributed(a: real, s: real, t: real)
    ensures a * ((s - t) * (s - t)) == a * (s * s) - 2.0 * (a * (s * t)) + a * (t * t)
  {
    Square(s, -t);
    assert s * -t == -(s * t) && -t * -t == t * t;
    assert (s - t) * (s - t) == s * s - 2.0 * (s * t) + t * t;
  }

  /**
   The step is the best compromise: precision adds up, and no other hedge ratio has a lower
   cost than the new one.
   */
  lemma KalmanOptimal(beta: real, variance: real, noise: real, logY: real, logX: real, b: real)
    requires variance > 0.0 && noise >= 0.0
    ensures var r := Kalman(beta, variance, noise, Spread(beta, logY, logX), logX);
      && r.1 * (1.0 + (variance + noise) * (logX * logX)) == variance + noise
      && Cost(beta, variance + noise, logY, logX, r.0) <= Cost(beta, variance + noise, logY, logX, b)
      && (b != r.0 ==> Cost(beta, variance + noise, logY, logX, r.0) < Cost(beta, variance + noise, logY, logX, b))
  {
    var predicted := variance + noise;
    var r := Kalman(beta, variance, noise, Spread(beta, logY, logX), logX);
    LeftShare(predicted, logX);
    Balance(beta, predicted, logY, logX);
    PrecisionAdds(predicted, logX);
    hide Spread, Gain, Left, Innovated, Scaled;
    hide Cost;
    CostAbove(beta, predicted, logY, logX, r.0, b - r.0);
    assert r.0 + (b - r.0) == b;
  }

  lemma CostAbove(beta: real, predicted: real, logY: real, logX: real, c: real, d: real)
    requires predicted > 0.0 && c - beta == predicted * (logX * Spread(c, logY, logX))
    ensures Cost(beta, predicted, logY, logX, c) <= Cost(beta, predicted, logY, logX, c + d)
    ensures d != 0.0 ==> Cost(beta, predicted, logY, logX, c) < Cost(beta, predicted, logY, logX, c + d)
  {
    CostAround(beta, predicted, logY, logX, c, d);
    hide Cost, Spread;
    SquareSign(d);
    SquareSign(d * logX);
    NotNegative(predicted, Sq(d * logX));
    hide Sq;
  }

  lemma SquareSign(d: real)
    ensures Sq(d) >= 0.0 && (d != 0.0 ==> Sq(d) > 0.0)
  {
    SquarePositive(Abs(d));
    SquareAbs(d);
    hide Sq;
  }

  lemma SquarePositive(x: real)
    ensures x > 0.0 ==> Sq(x) > 0.0
    ensures x == 0.0 ==> Sq(x) == 0.0
  {
    ScaledPositive(x, x);
    hide Scaled;
  }

  lemma ScaledPositive(x: real, y: real)
    ensures x > 0.0 && y > 0.0 ==> Scaled(x, y) > 0.0
    ensures x == 0.0 ==> Scaled(x, y) == 0.0
  {
    if x > 0.0 && y > 0.0 {
      NotNegative(x, y);
    }
  }

  lemma SquareAbs(d: real)
    ensures Sq(Abs(d)) == Sq(d)
  {
  }

  lemma PrecisionAdds(predicted: real, logX: real)
    requires predicted > 0.0 && Innovated(predicted, logX) >= 1.0
    ensures Scaled(Left(predicted, logX), predicted) * (1.0 + predicted * (logX * logX)) == predicted
  {
    LeftTimes(predicted, logX);
    var share, s := Left(predicted, logX), Innovated(predicted, logX);
    hide Left;
    assert share * predicted * s == share * s * predicted;
  }

  /** What is left, times the innovation's variance, is 1. */
  lemma LeftTimes(predicted: real, logX: real)
    requires Innovated(predicted, logX) >= 1.0
    ensures Left(predicted, logX) * Innovated(predicted, logX) == 1.0
    ensures Gain(predicted, logX) == predicted * logX * Left(predicted, logX)
  {
    var s := Innovated(predicted, logX);
    var gain := Gain(predicted, logX);
    assert gain * s == predicted * logX;
    assert gain * logX * s == gain * s * logX == predicted * (logX * logX);
    assert (1.0 - gain * logX) * s == s - gain * logX * s;
    var share := 1.0 - gain * logX;
    assert share * s == 1.0;
    assert gain == gain * (share * s) == (gain * s) * share;
  }

  /** At the new ratio the pull of the spread balances the distance. */
  lemma Balance(beta: real, predicted: real, logY: real, logX: real)
    requires Innovated(predicted, logX) >= 1.0
    ensures var c := beta + Gain(predicted, logX) * Spread(beta, logY, logX);
      c - beta == predicted * (logX * Spread(c, logY, logX))
  {
    SpreadAfter(beta, predicted, logY, logX);
    LeftTimes(predicted, logX);
    var i, share := Spread(beta, logY, logX), Left(predicted, logX);
    hide Spread, Left, Innovated, Gain;
    assert predicted * logX * share * i == predicted * (logX * (share * i));
  }

  /** One step keeps the variance positive and below its prediction, and the new ratio does not widen the spread. */
  lemma KalmanStep(beta: real, variance: real, noise: real, logY: real, logX: real)
    requires variance > 0.0 && noise >= 0.0
    ensures var r := Kalman(beta, variance, noise, Spread(beta, logY, logX), logX);
      && 0.0 < r.1 <= variance + noise
      && Abs(Spread(r.0, logY, logX)) <= Abs(Spread(beta, logY, logX))
  {
    var predicted := variance + noise;
    LeftShare(predicted, logX);
    SpreadAfter(beta, predicted, logY, logX);
    hide Innovated, Gain, Spread, Abs, Left, Scaled;
    Shrinks(Left(predicted, logX), predicted);
    Shrinks(Left(predicted, logX), Spread(beta, logY, logX));
  }

  ghost predicate Sane(p: Params, f: Filter) {
    f.variance > 0.0 && |f.spreads| <= p.maxSpreads
  }

  lemma ObserveKeepsSane(p: Params, m: Numerics, f: Filter, e: Event)
    requires Sane(p, f) && p.noise >= 0.0
    ensures Sane(p, Observe(p, m, f, e).0)
  {
    if e.price.Some? {
      var prices := f.prices[e.symbol := e.price.value];
      if p.symbolY in prices && p.symbolX in prices {
        KalmanStep(f.beta, f.variance, p.noise, m.log(prices[p.symbolY]), m.log(prices[p.symbolX]));
      }
    }
    hide Kalman, Spread, ZScore;
  }

  /** After any events and any fills the variance is positive and the history is within its bound. */
  lemma {:induction false} RunKeepsSane(p: Params, m: Numerics, fills: seq<Timed<Fill>>, events: seq<Event>)
    requires p.noise >= 0.0
    ensures Sane(p, Run(PairsMachine(p, m), fills, START, events).0.state.filter)
  {
    if |events| > 0 {
      var n := |events| - 1;
      RunKeepsSane(p, m, fills, events[..n]);
      assert events[..n + 1] == events;
      RunSnoc(PairsMachine(p, m), fills, START, events, n);
      hide Run;
      var before := Run(PairsMachine(p, m), fills, START, events[..n]).0;
      DrainKeepsFilter(p, m, fills, before, events[n].ts);
      ObserveKeepsSane(p, m, before.state.filter, events[n]);
      hide Observe, Decide, Drain, Sane;
      StepFilter(p, m, fills, before, events[n]);
    }
  }

  lemma StepFilter(p: Params, m: Numerics, fills: seq<Timed<Fill>>, b: Book<State>, e: Event)
    requires b.used <= |fills|
    ensures Step(PairsMachine(p, m), fills, b, e).0.state.filter ==
      Observe(p, m, Drain(PairsMachine(p, m), fills, b, e.ts).state.filter, e).0
  {
    hide Observe, Drain, QualityGate;
  }
}
