/**
 What the rows of the gap machine say, over every run and every fill stream: which weekend
 each row trades, when a gap is entered, and why it is left.
 */
module CmeGapRows {
  import opened Wrappers
  import opened FillDriven
  import opened CmeGap

  // ----- which pairs of observations open a gap

  predicate OnRollDay(f: Feature, p: Params) {
    f.rollFlag || (f.observedTs.Some? && f.observedTs.value / 86400000 in p.rollDays)
  }

  /** From a Friday to the next Sunday, Monday, Tuesday or Wednesday, or some weeks after one of them. */
  predicate OverWeekend(previous: int, current: int) {
    var from, to := previous / 86400000, current / 86400000;
    && from % 7 == 1 && to > from && (to - from) % 7 in {2, 3, 4, 5}
  }

  /** Ten thousand times the distance between the reopening and the Friday close. */
  function Distance(prev: Feature, current: Feature): real {
    if current.open.None? || prev.close.None? then 0.0
    else if current.open.value > prev.close.value then (current.open.value - prev.close.value) * 10000.0
    else (prev.close.value - current.open.value) * 10000.0
  }

  function DirectionOf(prev: Feature, current: Feature): Direction {
    if current.open.Some? && prev.close.Some? && current.open.value > prev.close.value then Short else Long
  }

  /** A weekend between ordinary days whose gap has a wanted size and direction. */
  ghost predicate Tradable(p: Params, prev: Feature, current: Feature) {
    && current.open.Some? && prev.close.Some? && prev.close.value > 0.0
    && current.observedTs.Some? && prev.observedTs.Some?
    && !OnRollDay(prev, p) && !OnRollDay(current, p)
    && OverWeekend(prev.observedTs.value, current.observedTs.value)
    && Distance(prev, current) >= p.minGapBps * prev.close.value
    && (p.maxGapBps > 0.0 ==> Distance(prev, current) <= p.maxGapBps * prev.close.value)
    && (p.allowed == BothWays || DirectionOf(prev, current) == (if p.allowed == LongOnly then Long else Short))
  }

  /** n is x without its fraction. */
  predicate Truncates(x: real, n: int) {
    if x >= 0.0 then n as real <= x < n as real + 1.0 else n as real - 1.0 < x <= n as real
  }

  /** The gap that two observations open, before it is entered. */
  ghost predicate OpenedBy(p: Params, prev: Feature, current: Feature, g: Gap) {
    && Tradable(p, prev, current)
    && g.direction == DirectionOf(prev, current)
    && Some(g.cmeTarget) == prev.close && Some(g.gapOpen) == current.open
    && g.gapBps * g.cmeTarget == Distance(prev, current)
    && g.detectedTs == current.ts && Truncates(current.ts as real + p.maxHoldDays * 86400000.0, g.expiresAt)
  }

  lemma BpsBounds(open: real, close: real, bound: real)
    requires close > 0.0
    ensures GapBps(open, close) * close == Abs(open - close) * 10000.0
    ensures GapBps(open, close) < bound <==> Abs(open - close) * 10000.0 < bound * close
    ensures GapBps(open, close) > bound <==> Abs(open - close) * 10000.0 > bound * close
  {
    var d := Abs(open - close);
    assert d / close * close == d;
    var bps := d / close * 10000.0;
    assert bps * close == d * 10000.0;
    if bps < bound {
      Wider(bps, bound, close);
    } else if bps > bound {
      Wider(bound, bps, close);
    }
  }

  lemma Wider(a: real, b: real, close: real)
    requires a < b && close > 0.0
    ensures a * close < b * close
  {
    assert (b - a) * close > 0.0;
  }

  lemma WeekendIsReopen(previous: int, current: int)
    ensures WeekendReopen(previous, current) <==> OverWeekend(previous, current)
  {
  }

  lemma NewGapExactly(p: Params, prev: Feature, current: Feature)
    ensures NewGap(current, Some(prev), p).Some? <==> Tradable(p, prev, current)
    ensures NewGap(current, Some(prev), p).Some? ==>
      var g := NewGap(current, Some(prev), p).value;
      OpenedBy(p, prev, current, g) && !g.entered && g.anchor == None && g.okxTarget == None && !g.exitRequested
  {
    if current.open.Some? && prev.close.Some? && prev.close.value > 0.0 {
      BpsBounds(current.open.value, prev.close.value, p.minGapBps);
      BpsBounds(current.open.value, prev.close.value, p.maxGapBps);
    }
    if current.observedTs.Some? && prev.observedTs.Some? {
      WeekendIsReopen(prev.observedTs.value, current.observedTs.value);
    }
    hide GapBps, WeekendReopen, OverWeekend;
  }

  // ----- the gap that is active, from the events alone

  /** The last observation among the events. */
  function LastFeature(events: seq<Event>): Option<Feature> {
    if |events| == 0 then None
    else
      var e := events[|events| - 1];
      if e.FeatureEvent? then Some(e.feature) else LastFeature(events[..|events| - 1])
  }

  /** Event d is an observation that, after the one before it, opens a gap. */
  ghost predicate OpensAt(p: Params, events: seq<Event>, d: nat) {
    && d < |events| && events[d].FeatureEvent?
    && LastFeature(events[..d]).Some? && Tradable(p, LastFeature(events[..d]).value, events[d].feature)
  }

  /** g was opened at event d, and no later event opens another. */
  ghost predicate OpenedAt(p: Params, events: seq<Event>, d: nat, g: Gap) {
    && OpensAt(p, events, d) && OpenedBy(p, LastFeature(events[..d]).value, events[d].feature, g)
    && forall k: nat :: d < k < |events| ==> !OpensAt(p, events, k)
  }

  /** g was entered after event d, at the price of event a, and aims as far towards the close as the gap is wide. */
  ghost predicate EnteredAt(events: seq<Event>, d: nat, a: nat, g: Gap) {
    && d < a < |events| && events[a].MarketEvent? && events[a].price.Some? && events[a].price.value > 0.0
    && g.anchor == events[a].price && g.okxTarget == Some(AimFrom(g.direction, g.gapBps, events[a].price.value))
  }

  /** As far from the anchor, towards the Friday close, as the gap is wide. */
  function AimFrom(direction: Direction, bps: real, anchor: real): real {
    var move := anchor * (bps / 10000.0);
    if direction == Short then anchor - move else anchor + move
  }

  function StopFrom(direction: Direction, bps: real, anchor: real, mult: real): real {
    var move := anchor * (mult * bps / 10000.0);
    if direction == Short then anchor + move else anchor - move
  }

  ghost predicate Traced(p: Params, events: seq<Event>, g: Gap, d: nat, a: nat) {
    && OpenedAt(p, events, d, g)
    && (if g.entered then EnteredAt(events, d, a, g) else g.anchor == None && g.okxTarget == None)
  }

  /** The state knows the last observation, and its gap, if any, comes from the events. */
  ghost predicate Explained(p: Params, s: State, events: seq<Event>) {
    && s.previous == LastFeature(events)
    && (s.gap.Some? ==> exists d: nat, a: nat :: Traced(p, events, s.gap.value, d, a))
  }

  lemma OpensEarlier(p: Params, events: seq<Event>, e: Event, k: nat)
    requires k < |events|
    ensures OpensAt(p, events + [e], k) <==> OpensAt(p, events, k)
    ensures OpensAt(p, events, k) ==> LastFeature((events + [e])[..k]) == LastFeature(events[..k])
  {
    assert (events + [e])[..k] == events[..k];
    hide Tradable;
  }

  lemma TracedLater(p: Params, events: seq<Event>, e: Event, g: Gap, d: nat, a: nat)
    requires Traced(p, events, g, d, a) && !OpensAt(p, events + [e], |events|)
    ensures Traced(p, events + [e], g, d, a)
  {
    forall k: nat | k < |events|
      ensures OpensAt(p, events + [e], k) <==> OpensAt(p, events, k)
    {
      OpensEarlier(p, events, e, k);
    }
    OpensEarlier(p, events, e, d);
    hide OpensAt, OpenedBy, AimFrom;
    var all := events + [e];
    assert all[d] == events[d] && (g.entered ==> all[a] == events[a]);
  }

  lemma FeatureExplained(p: Params, s: State, events: seq<Event>, f: Feature)
    requires Explained(p, s, events)
    ensures Explained(p, Process(p, s, FeatureEvent(f)).0, events + [FeatureEvent(f)])
  {
    var e := FeatureEvent(f);
    var all := events + [e];
    assert all[..|events|] == events && all[|events|] == e;
    var newGap := NewGap(f, s.previous, p);
    if s.previous.Some? {
      NewGapExactly(p, s.previous.value, f);
    }
    assert OpensAt(p, all, |events|) <==> newGap.Some?;
    if newGap.Some? {
      assert Traced(p, all, newGap.value, |events|, 0);
    } else if s.gap.Some? {
      var d: nat, a: nat :| Traced(p, events, s.gap.value, d, a);
      TracedLater(p, events, e, s.gap.value, d, a);
      hide Traced, OpensAt;
      assert Traced(p, all, s.gap.value, d, a);
    }
    hide Traced, OpensAt, NewGap;
  }

  lemma AimIsTarget(g: Gap, anchor: real)
    ensures TargetFrom(g.direction, anchor, g.gapBps) == AimFrom(g.direction, g.gapBps, anchor)
  {
  }

  lemma EntryTraced(p: Params, events: seq<Event>, ts: int, price: real, g: Gap, d: nat, a: nat)
    requires Traced(p, events, g, d, a) && price > 0.0
    ensures Traced(p, events + [MarketEvent(ts, Some(price))], Entered(g, price), d, |events|)
  {
    var e := MarketEvent(ts, Some(price));
    assert (events + [e])[|events|] == e;
    TracedLater(p, events, e, g, d, a);
    AimIsTarget(g, price);
    hide OpensAt, OpenedBy, TargetFrom, AimFrom;
    OpenedIgnoresEntry(p, events + [e], d, g, price);
  }

  lemma OpenedIgnoresEntry(p: Params, events: seq<Event>, d: nat, g: Gap, price: real)
    requires OpenedAt(p, events, d, g)
    ensures OpenedAt(p, events, d, Entered(g, price)) && OpenedAt(p, events, d, g.(exitRequested := true))
  {
    hide OpensAt, Tradable, TargetFrom;
  }

  lemma MarketExplained(p: Params, s: State, events: seq<Event>, ts: int, price: Option<real>)
    requires Explained(p, s, events)
    ensures Explained(p, OnMarket(p, s, ts, price).0, events + [MarketEvent(ts, price)])
  {
    var e := MarketEvent(ts, price);
    assert (events + [e])[..|events|] == events && !OpensAt(p, events + [e], |events|);
    if s.gap.Some? {
      var g := s.gap.value;
      var d: nat, a: nat :| Traced(p, events, g, d, a);
      TracedLater(p, events, e, g, d, a);
      assert Traced(p, events + [e], g, d, a);
      if price.Some? && price.value > 0.0 {
        EntryTraced(p, events, ts, price.value, g, d, a);
        assert Traced(p, events + [e], Entered(g, price.value), d, |events|);
      }
      assert Traced(p, events + [e], g.(exitRequested := true), d, a) by {
        OpenedIgnoresEntry(p, events + [e], d, g, 0.0);
        hide OpenedAt;
      }
    }
    hide Traced, OpensAt, ExitReason, TooOld, Entered;
  }

  // ----- the run

  /** Where the machine stands when event i is handled, its due fills applied. */
  function Before(p: Params, fills: seq<Timed<Fill>>, events: seq<Event>, i: nat): State
    requires i < |events|
  {
    Drain(GapMachine(p), fills, Run(GapMachine(p), fills, START, events[..i]).0, EventTs(events[i])).state
  }

  function EmittedAt(p: Params, fills: seq<Timed<Fill>>, events: seq<Event>, i: nat): Option<Signal>
    requires i < |events|
  {
    Run(GapMachine(p), fills, START, events).1[i]
  }

  lemma {:induction false} DrainExplained(p: Params, fills: seq<Timed<Fill>>, b: Book<State>, upTo: int,
                                          events: seq<Event>)
    requires b.used <= |fills| && Explained(p, b.state, events)
    ensures Explained(p, Drain(GapMachine(p), fills, b, upTo).state, events)
    decreases |fills| - b.used
  {
    hide Traced;
    if b.used < |fills| && fills[b.used].ts <= upTo {
      DrainExplained(p, fills, Book(AfterFill(b.state, fills[b.used].fill), b.used + 1), upTo, events);
    }
  }

  lemma CommitExplained(p: Params, s: State, g: Signal, events: seq<Event>)
    requires Explained(p, s, events)
    ensures Explained(p, GapMachine(p).commit(s, g), events)
  {
    hide Traced;
  }

  lemma StepExplained(p: Params, fills: seq<Timed<Fill>>, b: Book<State>, events: seq<Event>, e: Event)
    requires b.used <= |fills| && Explained(p, b.state, events)
    ensures Explained(p, Step(GapMachine(p), fills, b, e).0.state, events + [e])
  {
    DrainExplained(p, fills, b, EventTs(e), events);
    var s := Drain(GapMachine(p), fills, b, EventTs(e)).state;
    hide Drain, Explained, OnMarket, NewGap;
    match e {
      case FeatureEvent(f) => FeatureExplained(p, s, events, f);
      case MarketEvent(ts, price) => MarketExplained(p, s, events, ts, price);
    }
    var (t, g) := Process(p, s, e);
    if g.Some? {
      CommitExplained(p, t, g.value, events + [e]);
    }
  }

  lemma {:induction false} RunExplained(p: Params, fills: seq<Timed<Fill>>, events: seq<Event>)
    ensures Explained(p, Run(GapMachine(p), fills, START, events).0.state, events)
  {
    if |events| > 0 {
      var n := |events| - 1;
      RunExplained(p, fills, events[..n]);
      assert events[..n + 1] == events && events[..n] + [events[n]] == events;
      RunSnoc(GapMachine(p), fills, START, events, n);
      hide Run, Step, Explained;
      StepExplained(p, fills, Run(GapMachine(p), fills, START, events[..n]).0, events[..n], events[n]);
    }
  }

  lemma BeforeExplained(p: Params, fills: seq<Timed<Fill>>, events: seq<Event>, i: nat)
    requires i < |events|
    ensures Explained(p, Before(p, fills, events, i), events[..i])
  {
    RunExplained(p, fills, events[..i]);
    DrainExplained(p, fills, Run(GapMachine(p), fills, START, events[..i]).0, EventTs(events[i]), events[..i]);
    hide Run, Drain, Explained;
  }

  lemma EmittedBy(p: Params, fills: seq<Timed<Fill>>, events: seq<Event>, i: nat)
    requires i < |events|
    ensures EmittedAt(p, fills, events, i) == Process(p, Before(p, fills, events, i), events[i]).1
  {
    var machine := GapMachine(p);
    RunPrefix(machine, fills, START, events, i + 1);
    RunSnoc(machine, fills, START, events, i);
    assert EmittedAt(p, fills, events, i) == Run(machine, fills, START, events[..i + 1]).1[i];
    hide Run, Drain, NewGap, OnMarket;
  }

  // ----- when there is a row, and which

  /** The last observation is no older than allowed at this time; a machine that has seen none never asks. */
  ghost predicate Fresh(p: Params, last: Option<Feature>, ts: int) {
    last.Some? ==>
      var f := last.value;
      var at := if f.publishedTs.Some? && f.publishedTs.value != 0 then f.publishedTs.value
                else if f.observedTs.Some? && f.observedTs.value != 0 then f.observedTs.value
                else f.ts;
      ts - at <= p.maxAgeSeconds * 1000 && 0 <= p.maxAgeSeconds * 1000
  }

  /** The entered gap's target is reached, from the far side. */
  ghost predicate AtTarget(g: Gap, price: real) {
    && g.entered && g.anchor.Some?
    && if g.direction == Short then price <= AimFrom(g.direction, g.gapBps, g.anchor.value)
       else price >= AimFrom(g.direction, g.gapBps, g.anchor.value)
  }

  ghost predicate AtStop(p: Params, g: Gap, price: real) {
    && p.stopLossMult > 0.0 && g.entered && g.anchor.Some?
    && if g.direction == Short then price >= StopFrom(g.direction, g.gapBps, g.anchor.value, p.stopLossMult)
       else price <= StopFrom(g.direction, g.gapBps, g.anchor.value, p.stopLossMult)
  }

  /** What the row says of a gap: its side, its times, and for an exit the first reason that holds. */
  ghost predicate RowFits(p: Params, g: Gap, ts: int, price: real, row: Signal) {
    && row.ts == ts && row.price == price && row.direction == g.direction && row.detectedTs == g.detectedTs
    && match row.action {
      case Entry => (row.side == Sell <==> g.direction == Short) && row.reason == GapOpen
      case Exit =>
        && (row.side == Buy <==> g.direction == Short)
        && (row.reason == TargetFill <==> AtTarget(g, price))
        && (row.reason == StopLoss <==> AtStop(p, g, price) && !AtTarget(g, price))
        && (row.reason == Timeout <==> !AtTarget(g, price) && !AtStop(p, g, price))
        && (row.reason == Timeout ==> ts >= g.expiresAt)
      case OtherAction => false
    }
  }

  lemma StopIsStop(g: Gap, anchor: real, mult: real)
    ensures StopPrice(g, anchor, mult) == StopFrom(g.direction, g.gapBps, anchor, mult)
  {
  }

  lemma ReasonMeans(p: Params, events: seq<Event>, g: Gap, d: nat, a: nat, ts: int, price: real)
    requires Traced(p, events, g, d, a)
    ensures var reason := ExitReason(g, ts, price, p);
      && (reason == Some(TargetFill) <==> AtTarget(g, price))
      && (reason == Some(StopLoss) <==> AtStop(p, g, price) && !AtTarget(g, price))
      && (reason == Some(Timeout) <==> !AtTarget(g, price) && !AtStop(p, g, price) && ts >= g.expiresAt)
      && reason != Some(GapOpen)
  {
    if g.entered {
      StopIsStop(g, g.anchor.value, p.stopLossMult);
    }
    hide OpenedAt, AimFrom, StopPrice, StopFrom;
  }

  lemma FreshMeans(p: Params, f: Feature, ts: int)
    ensures TooOld(f, ts, p) <==> !Fresh(p, Some(f), ts)
  {
  }

  /** The market event enters the gap: it is flat, the gap was never entered, and the last observation is fresh. */
  ghost predicate Enters(p: Params, s: State, ts: int) {
    !s.inPosition && s.gap.Some? && !s.gap.value.entered && Fresh(p, s.previous, ts)
  }

  /** The market event leaves the gap: target, stop or time, and no exit was asked for before. */
  ghost predicate Leaves(p: Params, s: State, ts: int, price: real) {
    && s.inPosition && s.gap.Some? && !s.gap.value.exitRequested
    && (AtTarget(s.gap.value, price) || AtStop(p, s.gap.value, price) || ts >= s.gap.value.expiresAt)
  }

  lemma MarketMeans(p: Params, s: State, events: seq<Event>, ts: int, price: Option<real>)
    requires Explained(p, s, events)
    ensures var row := OnMarket(p, s, ts, price).1;
      && (row.Some? <==> price.Some? && price.value > 0.0 && (Enters(p, s, ts) || Leaves(p, s, ts, price.value)))
      && (row.Some? ==> RowFits(p, s.gap.value, ts, price.value, row.value)
                        && (row.value.action == Entry <==> Enters(p, s, ts)))
  {
    if s.previous.Some? {
      FreshMeans(p, s.previous.value, ts);
    }
    if s.gap.Some? && price.Some? {
      var d: nat, a: nat :| Traced(p, events, s.gap.value, d, a);
      ReasonMeans(p, events, s.gap.value, d, a, ts, price.value);
    }
    hide Explained, Traced, TooOld, Fresh, ExitReason, AtTarget, AtStop, TargetFrom;
  }

  /**
   Over every run and every fill stream: an event emits a row exactly when it is a price that
   enters or leaves the gap held, and the row fits that gap, which was opened by the last two
   observations that open one, and entered at the price of a market event after them.
   */
  lemma RowsExactly(p: Params, fills: seq<Timed<Fill>>, events: seq<Event>, i: nat)
    requires i < |events|
    ensures var s, row := Before(p, fills, events, i), EmittedAt(p, fills, events, i);
      && s.previous == LastFeature(events[..i])
      && (s.gap.Some? ==> exists d: nat, a: nat :: Traced(p, events[..i], s.gap.value, d, a))
      && (row.Some? <==>
            && events[i].MarketEvent? && events[i].price.Some? && events[i].price.value > 0.0
            && (Enters(p, s, events[i].ts) || Leaves(p, s, events[i].ts, events[i].price.value)))
      && (row.Some? ==>
            && RowFits(p, s.gap.value, events[i].ts, events[i].price.value, row.value)
            && (row.value.action == Entry <==> Enters(p, s, events[i].ts)))
  {
    var s := Before(p, fills, events, i);
    BeforeExplained(p, fills, events, i);
    EmittedBy(p, fills, events, i);
    if events[i].MarketEvent? {
      MarketMeans(p, s, events[..i], events[i].ts, events[i].price);
    }
    hide Before, EmittedAt, Traced, OnMarket, NewGap, RowFits, Enters, Leaves;
  }

  /** Every row, entry or exit, is of a weekend that is tradable, and names its side and time. */
  lemma RowsTradeWeekends(p: Params, fills: seq<Timed<Fill>>, events: seq<Event>, k: nat)
    returns (i: nat, d: nat)
    requires k < |Rows(Run(GapMachine(p), fills, START, events).1)|
    ensures d < i < |events| && OpensAt(p, events, d)
    ensures var row, prev, current :=
                Rows(Run(GapMachine(p), fills, START, events).1)[k], LastFeature(events[..d]).value, events[d].feature;
      && row.ts == EventTs(events[i]) && row.detectedTs == current.ts && row.direction == DirectionOf(prev, current)
      && ((row.action == Entry <==> row.side == Sell) <==> DirectionOf(prev, current) == Short)
  {
    i := SignalEvent(Run(GapMachine(p), fills, START, events).1, k);
    RowsExactly(p, fills, events, i);
    var s := Before(p, fills, events, i);
    var a: nat;
    hide Run, Rows, Before, Tradable;
    d, a :| Traced(p, events[..i], s.gap.value, d, a);
    assert events[..i][..d] == events[..d];
  }

  // ----- the position, from the fills alone

  /** The last fill that is an entry or an exit is an entry. */
  function Open(fills: seq<Timed<Fill>>): bool {
    if fills == [] then false
    else
      match fills[|fills| - 1].fill.action
      case Entry => true
      case Exit => false
      case OtherAction => Open(fills[..|fills| - 1])
  }

  lemma {:induction false} DrainOpens(p: Params, fills: seq<Timed<Fill>>, b: Book<State>, upTo: int)
    requires b.used <= |fills| && b.state.inPosition == Open(fills[..b.used])
    ensures var d := Drain(GapMachine(p), fills, b, upTo); d.state.inPosition == Open(fills[..d.used])
    decreases |fills| - b.used
  {
    if b.used < |fills| && fills[b.used].ts <= upTo {
      assert fills[..b.used + 1][..b.used] == fills[..b.used];
      DrainOpens(p, fills, Book(AfterFill(b.state, fills[b.used].fill), b.used + 1), upTo);
    }
  }

  lemma ProcessKeepsPosition(p: Params, s: State, e: Event)
    ensures Process(p, s, e).0.inPosition == s.inPosition
  {
    hide NewGap, ExitReason, TooOld;
  }

  lemma {:induction false} RunOpens(p: Params, fills: seq<Timed<Fill>>, events: seq<Event>)
    requires fills != []
    ensures var b := Run(GapMachine(p), fills, START, events).0; b.state.inPosition == Open(fills[..b.used])
  {
    if events != [] {
      var n := |events| - 1;
      var before := Run(GapMachine(p), fills, START, events[..n]).0;
      RunOpens(p, fills, events[..n]);
      DrainOpens(p, fills, before, EventTs(events[n]));
      ProcessKeepsPosition(p, Drain(GapMachine(p), fills, before, EventTs(events[n])).state, events[n]);
      hide Drain, Process, Open;
    }
  }

  /** With fills, a position is held exactly when the fills at or before the event's time say so. */
  lemma HeldByFills(p: Params, fills: seq<Timed<Fill>>, events: seq<Event>, i: nat) returns (k: nat)
    requires fills != [] && i < |events| && InTime(fills)
    requires forall a, b :: 0 <= a < b < |events| ==> EventTs(events[a]) <= EventTs(events[b])
    ensures DueBy(fills, k, EventTs(events[i])) && Before(p, fills, events, i).inPosition == Open(fills[..k])
  {
    var machine := GapMachine(p);
    FillsApplied(machine, fills, START, events, i);
    RunOpens(p, fills, events[..i]);
    DrainOpens(p, fills, Run(machine, fills, START, events[..i]).0, EventTs(events[i]));
    k := Drain(machine, fills, Run(machine, fills, START, events[..i]).0, EventTs(events[i])).used;
    hide Run, Drain, Open;
  }
}
