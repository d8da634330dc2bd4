/**
 The CME weekend-gap reference machine.  A gap between Friday's close and the reopening
 is traded once: one entry towards the gap, one exit at the target, stop or timeout.
 */
module CmeGap {
  import opened Wrappers
  import opened FillDriven
  import opened Sorting

  datatype Direction = Long | Short
  datatype Allowed = LongOnly | ShortOnly | BothWays
  datatype Side = Buy | Sell
  datatype Action = Entry | Exit | OtherAction
  datatype Reason = GapOpen | TargetFill | StopLoss | Timeout

  datatype Params = Params(maxAgeSeconds: int, minGapBps: real, maxHoldDays: real, stopLossMult: real,
                           maxGapBps: real, allowed: Allowed, rollDays: set<int>)

  /** A daily observation; open and close are missing when absent or not numeric. */
  datatype Feature = Feature(ts: int, observedTs: Option<int>, publishedTs: Option<int>,
                             open: Option<real>, close: Option<real>, rollFlag: bool)

  datatype Event = FeatureEvent(feature: Feature) | MarketEvent(ts: int, price: Option<real>)

  datatype Gap = Gap(direction: Direction, cmeTarget: real, gapOpen: real, gapBps: real,
                     detectedTs: int, expiresAt: int,
                     entered: bool, anchor: Option<real>, okxTarget: Option<real>, exitRequested: bool)

  datatype State = State(previous: Option<Feature>, gap: Option<Gap>, inPosition: bool)

  datatype Signal = Signal(ts: int, side: Side, action: Action, reason: Reason, price: real,
                           direction: Direction, detectedTs: int)

  datatype Fill = Fill(action: Action)

  function EventTs(e: Event): int {
    match e
    case FeatureEvent(f) => f.ts
    case MarketEvent(ts, _) => ts
  }

  // ----- calendar: days since 1970-01-01, which was a Thursday; Monday is weekday 0

  function DayOf(ms: int): int {
    ms / 86400000
  }

  function Weekday(day: int): int {
    (day + 3) % 7
  }

  /** `_cme_is_weekend_reopen`: from a Friday, at least two days on, to Sunday through Wednesday. */
  predicate WeekendReopen(previous: int, current: int) {
    && Weekday(DayOf(previous)) == 4
    && DayOf(current) - DayOf(previous) >= 2
    && Weekday(DayOf(current)) in {6, 0, 1, 2}
  }

  predicate RollDay(f: Feature, p: Params) {
    f.rollFlag || (f.observedTs.Some? && DayOf(f.observedTs.value) in p.rollDays)
  }

  predicate DirectionAllowed(d: Direction, allowed: Allowed) {
    (allowed == LongOnly ==> d == Long) && (allowed == ShortOnly ==> d == Short)
  }

  function Abs(x: real): real {
    if x < 0.0 then -x else x
  }

  /** Python's `int` of a float. */
  function Trunc(x: real): int {
    if x >= 0.0 then x.Floor else -((-x).Floor)
  }

  function GapBps(open: real, close: real): real
    requires close > 0.0
  {
    Abs(open - close) / close * 10000.0
  }

  /** The gap a feature opens against the previous one, if it is one to trade. */
  function NewGap(current: Feature, previous: Option<Feature>, p: Params): Option<Gap> {
    if previous.None? then None
    else
      var prev := previous.value;
      if current.open.None? || prev.close.None? || prev.close.value <= 0.0
        || current.observedTs.None? || prev.observedTs.None? then None
      else if RollDay(prev, p) || RollDay(current, p) then None
      else if !WeekendReopen(prev.observedTs.value, current.observedTs.value) then None
      else
        var bps := GapBps(current.open.value, prev.close.value);
        var direction := if current.open.value > prev.close.value then Short else Long;
        if bps < p.minGapBps then None
        else if p.maxGapBps > 0.0 && bps > p.maxGapBps then None
        else if !DirectionAllowed(direction, p.allowed) then None
        else Some(Gap(direction, prev.close.value, current.open.value, bps, current.ts,
                      Trunc(current.ts as real + p.maxHoldDays * 86400000.0),
                      false, None, None, false))
  }

  /** `published_ts or observed_ts or ts or 0`: a zero counts as missing. */
  function FeatureTime(f: Feature): int {
    if f.publishedTs.Some? && f.publishedTs.value != 0 then f.publishedTs.value
    else if f.observedTs.Some? && f.observedTs.value != 0 then f.observedTs.value
    else f.ts
  }

  predicate TooOld(f: Feature, ts: int, p: Params) {
    (if ts > FeatureTime(f) then ts - FeatureTime(f) else 0) > p.maxAgeSeconds * 1000
  }

  predicate TargetTouched(g: Gap, price: real) {
    g.okxTarget.Some? && if g.direction == Short then price <= g.okxTarget.value else price >= g.okxTarget.value
  }

  function StopPrice(g: Gap, anchor: real, mult: real): real {
    var pct := mult * g.gapBps / 10000.0;
    if g.direction == Short then anchor * (1.0 + pct) else anchor * (1.0 - pct)
  }

  predicate StopTouched(g: Gap, price: real, mult: real) {
    && mult > 0.0 && g.anchor.Some?
    && if g.direction == Short then price >= StopPrice(g, g.anchor.value, mult)
       else price <= StopPrice(g, g.anchor.value, mult)
  }

  function TargetFrom(direction: Direction, anchor: real, bps: real): real {
    if direction == Short then anchor * (1.0 - bps / 10000.0) else anchor * (1.0 + bps / 10000.0)
  }

  function ExitReason(g: Gap, ts: int, price: real, p: Params): Option<Reason> {
    if TargetTouched(g, price) then Some(TargetFill)
    else if StopTouched(g, price, p.stopLossMult) then Some(StopLoss)
    else if ts >= g.expiresAt then Some(Timeout)
    else None
  }

  function EntrySide(d: Direction): Side {
    if d == Short then Sell else Buy
  }

  function ExitSide(d: Direction): Side {
    if d == Short then Buy else Sell
  }

  function Entered(g: Gap, price: real): Gap {
    g.(entered := true, anchor := Some(price), okxTarget := Some(TargetFrom(g.direction, price, g.gapBps)))
  }

  function SignalOf(g: Gap, ts: int, price: real, action: Action, reason: Reason): Signal {
    Signal(ts, if action == Entry then EntrySide(g.direction) else ExitSide(g.direction),
           action, reason, price, g.direction, g.detectedTs)
  }

  function OnMarket(p: Params, s: State, ts: int, price: Option<real>): (State, Option<Signal>) {
    if price.None? || price.value <= 0.0 then (s, None)
    else if s.previous.Some? && !s.inPosition && TooOld(s.previous.value, ts, p) then (s, None)
    else if s.gap.None? then (s, None)
    else
      var g := s.gap.value;
      if s.inPosition then
        var reason := ExitReason(g, ts, price.value, p);
        if g.exitRequested || reason.None? then (s, None)
        else (s.(gap := Some(g.(exitRequested := true))),
              Some(SignalOf(g, ts, price.value, Exit, reason.value)))
      else if !g.entered then
        (s.(gap := Some(Entered(g, price.value))), Some(SignalOf(g, ts, price.value, Entry, GapOpen)))
      else (s, None)
  }

  function Process(p: Params, s: State, e: Event): (State, Option<Signal>) {
    match e
    case FeatureEvent(f) =>
      var newGap := NewGap(f, s.previous, p);
      (State(Some(f), if newGap.Some? then newGap else s.gap, s.inPosition), None)
    case MarketEvent(ts, price) => OnMarket(p, s, ts, price)
  }

  function AfterFill(s: State, f: Fill): State {
    match f.action
    case Entry => s.(inPosition := true)
    case Exit => s.(inPosition := false, gap := None)
    case OtherAction => s
  }

  function GapMachine(p: Params): Machine<State, Event, Signal, Fill> {
    Machine(
      EventTs,
      (s: State, e: Event) => Process(p, s, e),
      (s: State, g: Signal) => if g.action == Entry then s.(inPosition := true) else s.(inPosition := false, gap := None),
      AfterFill
    )
  }

  const START: State := State(None, None, false)

  predicate Matches(g: Signal, f: Fill) {
    f.action == g.action
  }

  lemma GapFillsCommit(p: Params)
    ensures FillsCommit(GapMachine(p), Matches)
  {
  }

  /** Timely fills of the machine's own signals reproduce the run without fills. */
  lemma GapDrivenEqualsImmediate(p: Params, events: seq<Event>, fills: seq<Timed<Fill>>)
    requires forall i, j :: 0 <= i < j < |events| ==> EventTs(events[i]) <= EventTs(events[j])
    requires FillsFollow(GapMachine(p), Matches, events, Run(GapMachine(p), [], START, events).1, fills)
    ensures Run(GapMachine(p), fills, START, events).1 == Run(GapMachine(p), [], START, events).1
  {
    GapFillsCommit(p);
    DrivenEqualsImmediate(GapMachine(p), Matches, START, events, fills);
  }

  // ----- what a gap is, and what its exits are

  /** A new gap's size is its distance from the Friday close, in basis points of that close. */
  lemma NewGapSize(current: Feature, previous: Option<Feature>, p: Params)
    ensures NewGap(current, previous, p).Some? ==>
      var g := NewGap(current, previous, p).value;
      && g.gapBps >= 0.0 && Abs(g.gapOpen - g.cmeTarget) == g.cmeTarget * (g.gapBps / 10000.0)
      && g.gapOpen == g.cmeTarget + (if g.direction == Short then 1.0 else -1.0) * (g.cmeTarget * (g.gapBps / 10000.0))
  {
    var r := NewGap(current, previous, p);
    if r.Some? {
      BpsOfGap(r.value.gapOpen, r.value.cmeTarget);
      hide GapBps, WeekendReopen, Trunc, RollDay, DirectionAllowed;
    }
  }

  lemma BpsOfGap(open: real, close: real)
    requires close > 0.0
    ensures GapBps(open, close) >= 0.0
    ensures Abs(open - close) == close * (GapBps(open, close) / 10000.0)
  {
    var distance := Abs(open - close);
    assert distance / close * close == distance;
  }

  /** An entered gap: anchored at the entry price, with its target that far towards the close. */
  ghost predicate Anchored(g: Gap) {
    && g.anchor.Some? && g.anchor.value > 0.0 && g.gapBps > 0.0
    && g.okxTarget == Some(TargetFrom(g.direction, g.anchor.value, g.gapBps))
  }

  lemma Scale(anchor: real, share: real)
    requires anchor > 0.0 && share > 0.0
    ensures anchor * (1.0 - share) < anchor < anchor * (1.0 + share)
  {
    assert anchor * share > 0.0;
    assert anchor * (1.0 - share) == anchor - anchor * share;
    assert anchor * (1.0 + share) == anchor + anchor * share;
  }

  /** Target and stop lie on opposite sides of the entry: an exit at the target gains, one at the stop loses, and none is both. */
  lemma ExitsAroundEntry(g: Gap, price: real, mult: real)
    requires Anchored(g) && mult > 0.0
    ensures TargetTouched(g, price) ==> if g.direction == Short then price < g.anchor.value else price > g.anchor.value
    ensures StopTouched(g, price, mult) ==> if g.direction == Short then price > g.anchor.value else price < g.anchor.value
    ensures !(TargetTouched(g, price) && StopTouched(g, price, mult))
  {
    Scale(g.anchor.value, g.gapBps / 10000.0);
    assert mult * g.gapBps > 0.0;
    Scale(g.anchor.value, mult * g.gapBps / 10000.0);
  }

  // ----- the machine as it is written: one gap object, updated in place

  class GapObject {
    const direction: Direction
    const cmeTarget: real
    const gapOpen: real
    const gapBps: real
    const detectedTs: int
    const expiresAt: int
    var entered: bool
    var anchor: Option<real>
    var okxTarget: Option<real>
    var exitRequested: bool

    constructor (g: Gap)
      ensures View() == g
    {
      direction, cmeTarget, gapOpen, gapBps := g.direction, g.cmeTarget, g.gapOpen, g.gapBps;
      detectedTs, expiresAt := g.detectedTs, g.expiresAt;
      entered, anchor, okxTarget, exitRequested := g.entered, g.anchor, g.okxTarget, g.exitRequested;
    }

    function View(): Gap
      reads this
    {
      Gap(direction, cmeTarget, gapOpen, gapBps, detectedTs, expiresAt, entered, anchor, okxTarget, exitRequested)
    }
  }

  function ViewOf(gap: GapObject?): Option<Gap>
    reads gap
  {
    if gap == null then None else Some(gap.View())
  }

  /** `apply_fills`. */
  method ApplyFills(p: Params, fills: seq<Timed<Fill>>, previous: Option<Feature>, start: GapObject?,
                    startPosition: bool, first: nat, upTo: int)
    returns (gap: GapObject?, inPosition: bool, fillIdx: nat)
    requires first <= |fills|
    ensures gap == start || gap == null
    ensures Book(State(previous, ViewOf(gap), inPosition), fillIdx) ==
      Drain(GapMachine(p), fills, Book(State(previous, ViewOf(start), startPosition), first), upTo)
  {
    gap, inPosition, fillIdx := start, startPosition, first;
    while fillIdx < |fills| && fills[fillIdx].ts <= upTo
      invariant fillIdx <= |fills|
      invariant gap == start || gap == null
      invariant Drain(GapMachine(p), fills, Book(State(previous, ViewOf(gap), inPosition), fillIdx), upTo) ==
        Drain(GapMachine(p), fills, Book(State(previous, ViewOf(start), startPosition), first), upTo)
    {
      var action := fills[fillIdx].fill.action;
      if action == Entry {
        inPosition := true;
      } else if action == Exit {
        inPosition := false;
        gap := null;
      }
      fillIdx := fillIdx + 1;
    }
  }

  /** `_cme_handle_feature_reference`: a new gap object, or the active one as it is. */
  method HandleFeature(current: Feature, previous: Option<Feature>, active: GapObject?, p: Params)
    returns (gap: GapObject?)
    ensures NewGap(current, previous, p).None? ==> gap == active
    ensures NewGap(current, previous, p).Some? ==> gap != null && fresh(gap)
    ensures ViewOf(gap) == if NewGap(current, previous, p).Some? then NewGap(current, previous, p) else ViewOf(active)
  {
    gap := active;
    var detected := NewGap(current, previous, p);
    if detected.Some? {
      gap := new GapObject(detected.value);
    }
  }

  /** The market branch of the loop. */
  method HandleMarket(p: Params, previous: Option<Feature>, active: GapObject?, position: bool,
                      ts: int, price: Option<real>, immediate: bool)
    returns (signals: seq<Signal>, gap: GapObject?, inPosition: bool)
    modifies active
    ensures gap == active || gap == null
    ensures var r := OnMarket(p, State(previous, old(ViewOf(active)), position), ts, price);
      && signals == Emitted(r.1)
      && State(previous, ViewOf(gap), inPosition) ==
           if immediate && r.1.Some? then GapMachine(p).commit(r.0, r.1.value) else r.0
  {
    signals, gap, inPosition := [], active, position;
    if price.None? || price.value <= 0.0 {
      return;
    }
    if previous.None? && gap == null {
      return;
    }
    if previous.Some? && !inPosition && TooOld(previous.value, ts, p) {
      return;
    }
    if gap == null {
      return;
    }
    if inPosition {
      if gap.exitRequested {
        return;
      }
      var reason := ExitReason(gap.View(), ts, price.value, p);
      if reason.Some? {
        signals := [SignalOf(gap.View(), ts, price.value, Exit, reason.value)];
        gap.exitRequested := true;
        if immediate {
          inPosition := false;
          gap := null;
        }
      }
      return;
    }
    if !gap.entered {
      gap.entered := true;
      gap.anchor := Some(price.value);
      gap.okxTarget := Some(TargetFrom(gap.direction, price.value, gap.gapBps));
      signals := [SignalOf(gap.View(), ts, price.value, Entry, GapOpen)];
      if immediate {
        inPosition := true;
      }
    }
  }

  /** The body of the loop over the event stream. */
  method OnEvent(p: Params, fills: seq<Timed<Fill>>, last: Option<Feature>, active: GapObject?,
                 position: bool, used: nat, e: Event)
    returns (signals: seq<Signal>, previous: Option<Feature>, gap: GapObject?, inPosition: bool, fillIdx: nat)
    requires used <= |fills|
    modifies active
    ensures gap == active || gap == null || fresh(gap)
    ensures var r := Step(GapMachine(p), fills, Book(State(last, old(ViewOf(active)), position), used), e);
      Book(State(previous, ViewOf(gap), inPosition), fillIdx) == r.0 && signals == Emitted(r.1)
  {
    hide Drain, ExitReason, NewGap, TooOld;
    signals, previous, gap, inPosition, fillIdx := [], last, active, position, used;
    if |fills| != 0 {
      gap, inPosition, fillIdx := ApplyFills(p, fills, previous, gap, inPosition, fillIdx, EventTs(e));
    } else {
      NoFillsDrain(GapMachine(p), Book(State(last, ViewOf(active), position), used), EventTs(e));
    }
    match e {
      case FeatureEvent(f) =>
        gap := HandleFeature(f, previous, gap, p);
        previous := Some(f);
      case MarketEvent(ts, price) =>
        signals, gap, inPosition := HandleMarket(p, previous, gap, inPosition, ts, price, |fills| == 0);
    }
  }

  /** `_cme_gap_reference_signals`. */
  method GapSignals(p: Params, events: seq<Event>, fills: seq<Timed<Fill>>) returns (rows: seq<Signal>)
    ensures rows == Rows(Run(GapMachine(p), fills, START, events).1)
  {
    var previous: Option<Feature> := None;
    var active: GapObject? := null;
    var inPosition := false;
    var fillIdx: nat := 0;
    rows := [];
    for i := 0 to |events|
      invariant fillIdx <= |fills|
      invariant active != null ==> fresh(active)
      invariant Run(GapMachine(p), fills, START, events[..i]).0 ==
        Book(State(previous, ViewOf(active), inPosition), fillIdx)
      invariant rows == Rows(Run(GapMachine(p), fills, START, events[..i]).1)
    {
      RunRows(GapMachine(p), fills, START, events, i);
      hide Run, Rows, Step, GapMachine;
      var signals;
      signals, previous, active, inPosition, fillIdx :=
        OnEvent(p, fills, previous, active, inPosition, fillIdx, events[i]);
      rows := rows + signals;
    }
    assert events[..|events|] == events;
  }

  // ----- at most one entry and one exit per gap, whatever the fills

  /** By time, and on a tie features before market events: what the sort of the event list establishes. */
  predicate NotAfter(a: Event, b: Event) {
    EventTs(a) < EventTs(b) || (EventTs(a) == EventTs(b) && (a.FeatureEvent? || b.MarketEvent?))
  }

  function ByTimeAndPriority(): (Event, Event) -> bool {
    (a: Event, b: Event) => NotAfter(a, b)
  }

  ghost predicate InOrder(events: seq<Event>) {
    Sorted(events, ByTimeAndPriority())
  }

  /** Some event, or some market event, is at or after the time. */
  ghost predicate Past(ts: int, events: seq<Event>) {
    exists k :: 0 <= k < |events| && ts <= EventTs(events[k])
  }

  ghost predicate PastMarket(ts: int, events: seq<Event>) {
    exists k :: 0 <= k < |events| && events[k].MarketEvent? && ts <= EventTs(events[k])
  }

  ghost predicate OncePerGap(rows: seq<Signal>) {
    forall i, j :: 0 <= i < j < |rows| && rows[i].detectedTs == rows[j].detectedTs ==>
      rows[i].action != rows[j].action
  }

  /** Every gap in rows was detected no later than some market event so far. */
  ghost predicate RowsPast(rows: seq<Signal>, events: seq<Event>) {
    forall i :: 0 <= i < |rows| ==> PastMarket(rows[i].detectedTs, events)
  }

  /** The active gap's flags remember which of its signals were emitted. */
  ghost predicate Remembers(gap: Option<Gap>, rows: seq<Signal>, events: seq<Event>) {
    gap.Some? ==>
      && Past(gap.value.detectedTs, events)
      && forall i :: 0 <= i < |rows| && rows[i].detectedTs == gap.value.detectedTs ==>
        (rows[i].action == Entry && gap.value.entered) || (rows[i].action == Exit && gap.value.exitRequested)
  }

  ghost predicate GapLedger(s: State, rows: seq<Signal>, events: seq<Event>) {
    OncePerGap(rows) && RowsPast(rows, events) && Remembers(s.gap, rows, events)
  }

  lemma {:induction false} DrainKeepsLedger(p: Params, fills: seq<Timed<Fill>>, b: Book<State>, upTo: int,
                                            rows: seq<Signal>, events: seq<Event>)
    requires b.used <= |fills| && GapLedger(b.state, rows, events)
    ensures GapLedger(Drain(GapMachine(p), fills, b, upTo).state, rows, events)
    decreases |fills| - b.used
  {
    if b.used < |fills| && fills[b.used].ts <= upTo {
      DrainKeepsLedger(p, fills, Book(AfterFill(b.state, fills[b.used].fill), b.used + 1), upTo, rows, events);
    }
  }

  lemma PastLater(ts: int, events: seq<Event>, e: Event)
    ensures Past(ts, events) ==> Past(ts, events + [e])
    ensures PastMarket(ts, events) ==> PastMarket(ts, events + [e])
    ensures ts <= EventTs(e) ==> Past(ts, events + [e]) && (e.MarketEvent? ==> PastMarket(ts, events + [e]))
  {
    var all := events + [e];
    assert all[|events|] == e;
    if Past(ts, events) {
      var k :| 0 <= k < |events| && ts <= EventTs(events[k]);
      assert all[k] == events[k];
    }
    if PastMarket(ts, events) {
      var k :| 0 <= k < |events| && events[k].MarketEvent? && ts <= EventTs(events[k]);
      assert all[k] == events[k];
    }
  }

  lemma RowsPastLater(rows: seq<Signal>, events: seq<Event>, e: Event)
    requires RowsPast(rows, events)
    ensures RowsPast(rows, events + [e])
  {
    hide PastMarket;
    forall i | 0 <= i < |rows|
      ensures PastMarket(rows[i].detectedTs, events + [e])
    {
      PastLater(rows[i].detectedTs, events, e);
    }
  }

  /** A time that a market event has passed is before every later feature, and no later than every later market event. */
  lemma PastIsBefore(ts: int, events: seq<Event>, e: Event)
    requires InOrder(events + [e])
    ensures PastMarket(ts, events) && e.FeatureEvent? ==> ts < EventTs(e)
    ensures Past(ts, events) ==> ts <= EventTs(e)
  {
    var all := events + [e];
    assert all[|events|] == e;
    if Past(ts, events) {
      var k :| 0 <= k < |events| && ts <= EventTs(events[k]);
      assert all[k] == events[k] && NotAfter(all[k], all[|events|]);
    }
    if PastMarket(ts, events) {
      var k :| 0 <= k < |events| && events[k].MarketEvent? && ts <= EventTs(events[k]);
      assert all[k] == events[k] && NotAfter(all[k], all[|events|]);
    }
  }

  lemma FeatureKeepsLedger(p: Params, s: State, rows: seq<Signal>, events: seq<Event>, f: Feature)
    requires GapLedger(s, rows, events) && InOrder(events + [FeatureEvent(f)])
    ensures GapLedger(Process(p, s, FeatureEvent(f)).0, rows, events + [FeatureEvent(f)])
  {
    RowsPastLater(rows, events, FeatureEvent(f));
    PastLater(f.ts, events, FeatureEvent(f));
    if s.gap.Some? {
      PastLater(s.gap.value.detectedTs, events, FeatureEvent(f));
    }
    forall i | 0 <= i < |rows|
      ensures rows[i].detectedTs != f.ts
    {
      PastIsBefore(rows[i].detectedTs, events, FeatureEvent(f));
    }
    hide Past, PastMarket, InOrder;
  }

  lemma MarketKeepsLedger(p: Params, s: State, rows: seq<Signal>, events: seq<Event>, ts: int, price: Option<real>)
    requires GapLedger(s, rows, events) && InOrder(events + [MarketEvent(ts, price)])
    ensures var r := OnMarket(p, s, ts, price);
      GapLedger(r.0, rows + Emitted(r.1), events + [MarketEvent(ts, price)])
  {
    RowsPastLater(rows, events, MarketEvent(ts, price));
    if s.gap.Some? {
      PastIsBefore(s.gap.value.detectedTs, events, MarketEvent(ts, price));
      PastLater(s.gap.value.detectedTs, events, MarketEvent(ts, price));
    }
    hide Past, PastMarket, InOrder;
    var r := OnMarket(p, s, ts, price);
    if r.1.None? {
      assert rows + Emitted(r.1) == rows;
    }
  }

  lemma CommitKeepsLedger(p: Params, s: State, g: Signal, rows: seq<Signal>, events: seq<Event>)
    requires GapLedger(s, rows, events)
    ensures GapLedger(GapMachine(p).commit(s, g), rows, events)
  {
  }

  lemma StepKeepsLedger(p: Params, fills: seq<Timed<Fill>>, b: Book<State>, rows: seq<Signal>,
                        events: seq<Event>, e: Event)
    requires b.used <= |fills| && GapLedger(b.state, rows, events) && InOrder(events + [e])
    ensures var r := Step(GapMachine(p), fills, b, e);
      GapLedger(r.0.state, rows + Emitted(r.1), events + [e])
  {
    hide GapLedger, InOrder, OnMarket, Drain;
    DrainKeepsLedger(p, fills, b, EventTs(e), rows, events);
    var drained := Drain(GapMachine(p), fills, b, EventTs(e)).state;
    if e.FeatureEvent? {
      FeatureKeepsLedger(p, drained, rows, events, e.feature);
      assert rows + [] == rows;
    } else {
      MarketKeepsLedger(p, drained, rows, events, e.ts, e.price);
      var r := OnMarket(p, drained, e.ts, e.price);
      if r.1.Some? && |fills| == 0 {
        CommitKeepsLedger(p, r.0, r.1.value, rows + Emitted(r.1), events + [e]);
      }
    }
  }

  lemma {:induction false} RunKeepsLedger(p: Params, fills: seq<Timed<Fill>>, events: seq<Event>, i: nat)
    requires InOrder(events) && i <= |events|
    ensures GapLedger(Run(GapMachine(p), fills, START, events[..i]).0.state,
                      Rows(Run(GapMachine(p), fills, START, events[..i]).1), events[..i])
  {
    if i > 0 {
      RunKeepsLedger(p, fills, events, i - 1);
      RunRows(GapMachine(p), fills, START, events, i - 1);
      assert events[..i] == events[..i - 1] + [events[i - 1]];
      assert InOrder(events[..i]);
      hide GapLedger, InOrder, Run, Rows, Step, GapMachine;
      var before := Run(GapMachine(p), fills, START, events[..i - 1]);
      StepKeepsLedger(p, fills, before.0, Rows(before.1), events[..i - 1], events[i - 1]);
    }
  }

  /** For every fill stream, no gap is entered twice and none is exited twice. */
  lemma EachGapOnce(p: Params, fills: seq<Timed<Fill>>, events: seq<Event>)
    requires InOrder(events)
    ensures OncePerGap(Rows(Run(GapMachine(p), fills, START, events).1))
  {
    RunKeepsLedger(p, fills, events, |events|);
    assert events[..|events|] == events;
  }

  /** So for whatever features and prices there are, once they are sorted as the code sorts them. */
  lemma EachGapOnceSorted(p: Params, fills: seq<Timed<Fill>>, events: seq<Event>)
    ensures OncePerGap(Rows(Run(GapMachine(p), fills, START, Sort(events, ByTimeAndPriority())).1))
  {
    SortSorts(events, ByTimeAndPriority());
    EachGapOnce(p, fills, Sort(events, ByTimeAndPriority()));
  }

  // ----- without fills

  ghost predicate AlternatingActions(rows: seq<Signal>) {
    forall i :: 0 <= i < |rows| ==> rows[i].action == if i % 2 == 0 then Entry else Exit
  }

  /** One event in a run without fills. */
  function Next(p: Params, s: State, e: Event): (State, Option<Signal>) {
    var (t, g) := Process(p, s, e);
    if g.Some? then (GapMachine(p).commit(t, g.value), g) else (t, g)
  }

  lemma NextIsStep(p: Params, events: seq<Event>, i: nat)
    requires i < |events|
    ensures Run(GapMachine(p), [], START, events[..i + 1]).0.state ==
      Next(p, Run(GapMachine(p), [], START, events[..i]).0.state, events[i]).0
    ensures Rows(Run(GapMachine(p), [], START, events[..i + 1]).1) ==
      Rows(Run(GapMachine(p), [], START, events[..i]).1) +
      Emitted(Next(p, Run(GapMachine(p), [], START, events[..i]).0.state, events[i]).1)
  {
    RunRows(GapMachine(p), [], START, events, i);
  }

  ghost predicate Alternating(s: State, rows: seq<Signal>) {
    AlternatingActions(rows) && s.inPosition == (|rows| % 2 == 1)
  }

  lemma NextAlternates(p: Params, s: State, rows: seq<Signal>, e: Event)
    requires Alternating(s, rows)
    ensures Alternating(Next(p, s, e).0, rows + Emitted(Next(p, s, e).1))
  {
  }

  lemma {:induction false} ImmediateAlternates(p: Params, events: seq<Event>, i: nat)
    requires i <= |events|
    ensures Alternating(Run(GapMachine(p), [], START, events[..i]).0.state,
                        Rows(Run(GapMachine(p), [], START, events[..i]).1))
  {
    if i > 0 {
      hide Run, Rows, Alternating, Next;
      ImmediateAlternates(p, events, i - 1);
      var before := Run(GapMachine(p), [], START, events[..i - 1]);
      NextAlternates(p, before.0.state, Rows(before.1), events[i - 1]);
      NextIsStep(p, events, i - 1);
    }
  }

  /** Signals name one direction, and so does the active gap. */
  ghost predicate OneDirection(s: State, rows: seq<Signal>, d: Direction) {
    && (s.gap.Some? ==> s.gap.value.direction == d)
    && forall i :: 0 <= i < |rows| ==>
      rows[i].side == if rows[i].action == Entry then EntrySide(d) else ExitSide(d)
  }

  ghost predicate OnlyDirection(p: Params, d: Direction) {
    forall x :: DirectionAllowed(x, p.allowed) ==> x == d
  }

  lemma NextKeepsDirection(p: Params, s: State, rows: seq<Signal>, e: Event, d: Direction)
    requires OnlyDirection(p, d) && OneDirection(s, rows, d)
    ensures OneDirection(Next(p, s, e).0, rows + Emitted(Next(p, s, e).1), d)
  {
  }

  lemma {:induction false} SingleModeDirection(p: Params, events: seq<Event>, i: nat, d: Direction)
    requires i <= |events| && OnlyDirection(p, d)
    ensures OneDirection(Run(GapMachine(p), [], START, events[..i]).0.state,
                         Rows(Run(GapMachine(p), [], START, events[..i]).1), d)
  {
    if i > 0 {
      hide Run, Rows, OneDirection, Next;
      SingleModeDirection(p, events, i - 1, d);
      var before := Run(GapMachine(p), [], START, events[..i - 1]);
      NextKeepsDirection(p, before.0.state, Rows(before.1), events[i - 1], d);
      NextIsStep(p, events, i - 1);
    }
  }

  /**
   In a single-direction mode without fills, entries and exits alternate strictly and
   each is on the opposite side of its neighbour, also when a new gap replaces the
   active one in the middle of a position.
   */
  lemma SingleModeAlternates(p: Params, events: seq<Event>)
    requires p.allowed != BothWays
    ensures var rows := Rows(Run(GapMachine(p), [], START, events).1);
      && AlternatingActions(rows)
      && forall i :: 0 <= i < |rows| - 1 ==> rows[i].side != rows[i + 1].side
  {
    hide Run, Rows, GapMachine;
    var d := if p.allowed == LongOnly then Long else Short;
    ImmediateAlternates(p, events, |events|);
    SingleModeDirection(p, events, |events|, d);
    assert events[..|events|] == events;
  }

  // ----- exactly when an exit is opposite to its entry

  /** What each event emits in the run without fills, and the state before it. */
  function Alone(p: Params, events: seq<Event>): (r: seq<Option<Signal>>)
    ensures |r| == |events|
  {
    Run(GapMachine(p), [], START, events).1
  }

  function StateAt(p: Params, events: seq<Event>, k: nat): State
    requires k <= |events|
  {
    Run(GapMachine(p), [], START, events[..k]).0.state
  }

  lemma AloneStep(p: Params, events: seq<Event>, k: nat)
    requires k < |events|
    ensures (StateAt(p, events, k + 1), Alone(p, events)[k]) == Next(p, StateAt(p, events, k), events[k])
  {
    NextIsStep(p, events, k);
    ImmediateEmits(GapMachine(p), START, events, k);
  }

  function LastFeature(events: seq<Event>, k: nat): Option<Feature>
    requires k <= |events|
  {
    if k == 0 then None
    else if events[k - 1].FeatureEvent? then Some(events[k - 1].feature)
    else LastFeature(events, k - 1)
  }

  /** The gap that event k detects, if it does. */
  function GapAt(p: Params, events: seq<Event>, k: nat): Option<Gap>
    requires k < |events|
  {
    match events[k]
    case FeatureEvent(f) => NewGap(f, LastFeature(events, k), p)
    case MarketEvent(_, _) => None
  }

  /** The last gap detected strictly between events a and b. */
  function Replacing(p: Params, events: seq<Event>, a: nat, b: nat): Option<Gap>
    requires a < b <= |events|
    decreases b
  {
    if b == a + 1 then None
    else if GapAt(p, events, b - 1).Some? then GapAt(p, events, b - 1)
    else Replacing(p, events, a, b - 1)
  }

  lemma {:induction false} StateRemembersFeature(p: Params, events: seq<Event>, k: nat)
    requires k <= |events|
    ensures StateAt(p, events, k).previous == LastFeature(events, k)
  {
    if k > 0 {
      StateRemembersFeature(p, events, k - 1);
      AloneStep(p, events, k - 1);
      hide StateAt, Alone, NewGap;
    }
  }

  /** The direction in which a position entered at a is closed by an event at b. */
  function HeldDirection(p: Params, events: seq<Event>, a: nat, b: nat, entered: Direction): Direction
    requires a < b <= |events|
  {
    var replacing := Replacing(p, events, a, b);
    if replacing.Some? then replacing.value.direction else entered
  }

  /** Until the next signal after an entry the position is held, and the last gap detected since is the active one. */
  lemma {:induction false} HeldUntil(p: Params, events: seq<Event>, a: nat, b: nat)
    requires a < b <= |events| && Alone(p, events)[a].Some? && Alone(p, events)[a].value.action == Entry
    requires forall k :: a < k < b ==> Alone(p, events)[k].None?
    ensures var s := StateAt(p, events, b);
      s.inPosition && s.gap.Some?
      && s.gap.value.direction == HeldDirection(p, events, a, b, Alone(p, events)[a].value.direction)
    decreases b
  {
    hide StateAt, Alone, NewGap, ExitReason, TooOld;
    AloneStep(p, events, b - 1);
    if b > a + 1 {
      HeldUntil(p, events, a, b - 1);
      StateRemembersFeature(p, events, b - 1);
    }
  }

  /**
   In every run without fills, in every mode: the signal after an entry is its exit, and
   it is on the opposite side exactly when no gap was detected in between, or the last
   one detected has the direction of the gap that was entered.
   */
  lemma ExitOppositeExactly(p: Params, events: seq<Event>, a: nat, b: nat)
    requires a < b < |events| && Alone(p, events)[a].Some? && Alone(p, events)[a].value.action == Entry
    requires Alone(p, events)[b].Some? && forall k :: a < k < b ==> Alone(p, events)[k].None?
    ensures var entry, exit := Alone(p, events)[a].value, Alone(p, events)[b].value;
      && exit.action == Exit
      && (exit.side != entry.side <==>
            Replacing(p, events, a, b).None? || Replacing(p, events, a, b).value.direction == entry.direction)
  {
    HeldUntil(p, events, a, b);
    AloneStep(p, events, a);
    AloneStep(p, events, b);
    hide StateAt, Alone, NewGap, ExitReason, TooOld, Replacing;
  }

  /** In a single-direction mode every gap has that direction, so every exit is opposite to its entry. */
  lemma SingleModeExits(p: Params, events: seq<Event>, a: nat, b: nat)
    requires p.allowed != BothWays
    requires a < b < |events| && Alone(p, events)[a].Some? && Alone(p, events)[a].value.action == Entry
    requires Alone(p, events)[b].Some? && forall k :: a < k < b ==> Alone(p, events)[k].None?
    ensures Alone(p, events)[b].value.side != Alone(p, events)[a].value.side
  {
    var d := if p.allowed == LongOnly then Long else Short;
    ExitOppositeExactly(p, events, a, b);
    StateDirection(p, events, a, d);
    AloneStep(p, events, a);
    ReplacingDirection(p, events, a, b, d);
    hide StateAt, Alone, NewGap, ExitReason, TooOld, Replacing;
  }

  lemma {:induction false} ReplacingDirection(p: Params, events: seq<Event>, a: nat, b: nat, d: Direction)
    requires a < b <= |events| && OnlyDirection(p, d)
    ensures Replacing(p, events, a, b).Some? ==> Replacing(p, events, a, b).value.direction == d
    decreases b
  {
    if b > a + 1 {
      ReplacingDirection(p, events, a, b - 1, d);
    }
  }

  lemma {:induction false} StateDirection(p: Params, events: seq<Event>, k: nat, d: Direction)
    requires k <= |events| && OnlyDirection(p, d)
    ensures StateAt(p, events, k).gap.Some? ==> StateAt(p, events, k).gap.value.direction == d
  {
    if k > 0 {
      StateDirection(p, events, k - 1, d);
      AloneStep(p, events, k - 1);
      hide StateAt, Alone, ExitReason, TooOld;
    }
  }

  // ----- with both directions allowed the sides need not alternate

  const DAY: int := 86400000

  function Observed(day: int, open: real, close: real): Event {
    FeatureEvent(Feature(day * DAY, Some(day * DAY), None, Some(open), Some(close), false))
  }

  const TwoWayParams: Params := Params(604800, 25.0, 2.0, 1.5, 0.0, BothWays, {})

  /** A gap up is entered short; a week later a gap down replaces it and then times out. */
  const Replacement: seq<Event> :=
    [Observed(1, 100.0, 100.0), Observed(3, 110.0, 110.0), MarketEvent(3 * DAY + 1, Some(50000.0)),
     Observed(8, 120.0, 120.0), Observed(10, 110.0, 110.0), MarketEvent(12 * DAY, Some(50000.0))]

  /** The state before the i-th event of Replacement. */
  function Stage(i: nat): State
    requires i <= |Replacement|
  {
    if i == 0 then START else Next(TwoWayParams, Stage(i - 1), Replacement[i - 1]).0
  }

  function StageSignals(i: nat): seq<Signal>
    requires i < |Replacement|
  {
    Emitted(Next(TwoWayParams, Stage(i), Replacement[i]).1)
  }

  lemma StageNext(i: nat)
    requires i < |Replacement|
    ensures Stage(i + 1) == Next(TwoWayParams, Stage(i), Replacement[i]).0
  {
  }

  lemma {:induction false} StageIsRun(i: nat)
    requires i <= |Replacement|
    ensures Run(GapMachine(TwoWayParams), [], START, Replacement[..i]).0.state == Stage(i)
    ensures i == 0 ==> Rows(Run(GapMachine(TwoWayParams), [], START, Replacement[..i]).1) == []
    ensures i > 0 ==>
      Rows(Run(GapMachine(TwoWayParams), [], START, Replacement[..i]).1) ==
      Rows(Run(GapMachine(TwoWayParams), [], START, Replacement[..i - 1]).1) + StageSignals(i - 1)
  {
    if i == 0 {
      StartRun();
    } else {
      hide Run, Rows, Next, GapMachine, Stage, Replacement;
      StageIsRun(i - 1);
      StageNext(i - 1);
      NextIsStep(TwoWayParams, Replacement, i - 1);
    }
  }

  lemma FirstGap()
    ensures StageSignals(0) == StageSignals(1) == []
    ensures Stage(2).gap.Some? && Stage(2).gap.value.direction == Short
    ensures !Stage(2).inPosition && !Stage(2).gap.value.entered && !Stage(2).gap.value.exitRequested
    ensures Stage(2).previous == Some(Replacement[1].feature)
  {
  }

  lemma FirstEntry()
    ensures |StageSignals(2)| == 1 && StageSignals(2)[0].action == Entry && StageSignals(2)[0].side == Sell
    ensures Stage(3).inPosition && Stage(3).previous == Some(Replacement[1].feature)
  {
    FirstGap();
    StageNext(2);
    hide Stage;
  }

  lemma SecondGap()
    ensures StageSignals(3) == StageSignals(4) == []
    ensures Stage(5).inPosition && Stage(5).gap.Some?
    ensures Stage(5).gap.value.direction == Long && Stage(5).gap.value.expiresAt == 12 * DAY
    ensures !Stage(5).gap.value.exitRequested
  {
    FirstEntry();
    StageNext(3);
    StageNext(4);
    hide Stage;
  }

  lemma SecondExit()
    ensures |StageSignals(5)| == 1 && StageSignals(5)[0].action == Exit && StageSignals(5)[0].side == Sell
  {
    SecondGap();
    hide Stage;
  }

  /** The exit of the replaced position is on the same side as its entry. */
  lemma BothWaysCanExitOnEntrySide()
    ensures var rows := Rows(Run(GapMachine(TwoWayParams), [], START, Replacement).1);
      |rows| == 2 && rows[0].action == Entry && rows[1].action == Exit && rows[0].side == rows[1].side == Sell
  {
    hide Run, Rows, GapMachine, Stage, StageSignals;
    FirstGap();
    FirstEntry();
    SecondGap();
    SecondExit();
    StageIsRun(0);
    StageIsRun(1);
    StageIsRun(2);
    StageIsRun(3);
    StageIsRun(4);
    StageIsRun(5);
    StageIsRun(6);
    assert Replacement[..6] == Replacement;
  }

  lemma StartRun()
    ensures Run(GapMachine(TwoWayParams), [], START, Replacement[..0]).0.state == START
    ensures Rows(Run(GapMachine(TwoWayParams), [], START, Replacement[..0]).1) == []
  {
  }
}
