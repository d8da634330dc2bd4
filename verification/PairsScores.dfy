/**
 What the rows of the pairs machine say, over every run and every fill stream: each row's z
 score is recomputed from the prices, and the thresholds are read off it.
 */
module PairsScores {
  import opened Wrappers
  import opened FillDriven
  import opened PairsTrading

  // ----- latest prices, from the events alone

  /** The last event of the symbol with a positive price. */
  function Latest(events: seq<Event>, symbol: string): (r: Option<Event>)
    ensures r.Some? ==> r.value in events && r.value.symbol == symbol && IsPrice(r.value)
  {
    if |events| == 0 then None
    else
      var e := events[|events| - 1];
      if e.symbol == symbol && IsPrice(e) then Some(e) else Latest(events[..|events| - 1], symbol)
  }

  predicate IsPrice(e: Event) {
    e.price.Some? && e.price.value > 0.0
  }

  predicate PairKnown(p: Params, events: seq<Event>) {
    Latest(events, p.symbolY).Some? && Latest(events, p.symbolX).Some?
  }

  /** The older of the two latest times. */
  function PairTime(p: Params, events: seq<Event>): int {
    if PairKnown(p, events) then Min(Latest(events, p.symbolY).value.ts, Latest(events, p.symbolX).value.ts) else 0
  }

  /** The last event prices a pair. */
  predicate PricesPair(p: Params, events: seq<Event>) {
    |events| > 0 && IsPrice(events[|events| - 1]) && PairKnown(p, events)
  }

  /** Event i prices a pair that is newer than every pair before it. */
  ghost predicate NewPair(p: Params, events: seq<Event>, i: nat)
    requires i < |events|
  {
    && PricesPair(p, events[..i + 1]) && PairTime(p, events[..i + 1]) > 0
    && forall n: nat :: n <= i && PricesPair(p, events[..n]) ==> PairTime(p, events[..n]) < PairTime(p, events[..i + 1])
  }

  /** The filter has the symbol's latest price and time, or neither when there is none. */
  ghost predicate KnowsOf(prices: map<string, real>, times: map<string, int>, symbol: string, latest: Option<Event>) {
    && (symbol in prices <==> latest.Some?) && (symbol in times <==> latest.Some?)
    && (latest.Some? ==>
          && latest.value.price == Some(prices[symbol])
          && latest.value.ts == times[symbol])
  }

  ghost predicate Knows(f: Filter, events: seq<Event>) {
    forall symbol :: KnowsOf(f.prices, f.times, symbol, Latest(events, symbol))
  }

  /** The last spread is of the newest pair so far, or none was at a positive time. */
  ghost predicate NewestPair(p: Params, f: Filter, events: seq<Event>) {
    && f.lastSpread >= 0
    && (forall n: nat :: n <= |events| && PricesPair(p, events[..n]) ==> PairTime(p, events[..n]) <= f.lastSpread)
    && (f.lastSpread > 0 ==> exists n: nat :: n <= |events| && PricesPair(p, events[..n])
                                              && PairTime(p, events[..n]) == f.lastSpread)
  }

  lemma LatestSnoc(events: seq<Event>, e: Event, symbol: string)
    ensures Latest(events + [e], symbol) == if e.symbol == symbol && IsPrice(e) then Some(e) else Latest(events, symbol)
  {
    assert (events + [e])[..|events|] == events;
  }

  /** A positive price is noted with its time; nothing else is. */
  lemma ObserveNotes(p: Params, m: Numerics, f: Filter, e: Event)
    ensures var g := Observe(p, m, f, e).0;
      && g.prices == (if IsPrice(e) then f.prices[e.symbol := e.price.value] else f.prices)
      && g.times == (if IsPrice(e) then f.times[e.symbol := e.ts] else f.times)
  {
    hide Kalman, Spread, ZScore, LastN;
  }

  lemma ObserveKnows(p: Params, m: Numerics, f: Filter, events: seq<Event>, e: Event)
    requires Knows(f, events)
    ensures Knows(Observe(p, m, f, e).0, events + [e])
  {
    ObserveNotes(p, m, f, e);
    var g := Observe(p, m, f, e).0;
    hide Observe, Latest;
    forall symbol
      ensures KnowsOf(g.prices, g.times, symbol, Latest(events + [e], symbol))
    {
      LatestSnoc(events, e, symbol);
      assert KnowsOf(f.prices, f.times, symbol, Latest(events, symbol));
    }
    hide KnowsOf;
  }

  lemma ObservePair(p: Params, m: Numerics, f: Filter, events: seq<Event>, e: Event)
    requires Knows(f, events)
    ensures var all, g := events + [e], Observe(p, m, f, e).0;
      g.lastSpread == if PricesPair(p, all) && PairTime(p, all) > f.lastSpread then PairTime(p, all) else f.lastSpread
  {
    hide Kalman, Spread, ZScore, LastN;
    LatestSnoc(events, e, p.symbolY);
    LatestSnoc(events, e, p.symbolX);
    hide Latest;
  }

  lemma PairKeepsNewest(p: Params, f: Filter, g: Filter, events: seq<Event>, e: Event)
    requires NewestPair(p, f, events)
    requires var all := events + [e];
      g.lastSpread == if PricesPair(p, all) && PairTime(p, all) > f.lastSpread then PairTime(p, all) else f.lastSpread
    ensures NewestPair(p, g, events + [e])
  {
    hide Latest, PricesPair, PairTime;
    var all := events + [e];
    assert all[..|all|] == all;
    assert forall n: nat :: n <= |events| ==> all[..n] == events[..n];
    if PricesPair(p, all) && PairTime(p, all) > f.lastSpread {
      assert PairTime(p, all[..|all|]) == g.lastSpread;
    } else if f.lastSpread > 0 {
      var n: nat :| n <= |events| && PricesPair(p, events[..n]) && PairTime(p, events[..n]) == f.lastSpread;
      assert PricesPair(p, all[..n]);
    }
  }

  // ----- the run

  /** The book before event i is handled, with its due fills applied. */
  function Before(p: Params, m: Numerics, fills: seq<Timed<Fill>>, events: seq<Event>, i: nat): State
    requires i < |events|
  {
    Drain(PairsMachine(p, m), fills, Run(PairsMachine(p, m), fills, START, events[..i]).0, events[i].ts).state
  }

  /** Hedge ratio, history and calibration once event i is handled. */
  function FilterAfter(p: Params, m: Numerics, fills: seq<Timed<Fill>>, events: seq<Event>, i: nat): Filter
    requires i < |events|
  {
    Run(PairsMachine(p, m), fills, START, events[..i + 1]).0.state.filter
  }

  /** What event i emits. */
  function EmittedAt(p: Params, m: Numerics, fills: seq<Timed<Fill>>, events: seq<Event>, i: nat): Option<Signal>
    requires i < |events|
  {
    Run(PairsMachine(p, m), fills, START, events).1[i]
  }

  lemma {:induction false} RunKnows(p: Params, m: Numerics, fills: seq<Timed<Fill>>, events: seq<Event>)
    ensures var f := Run(PairsMachine(p, m), fills, START, events).0.state.filter;
      Knows(f, events) && NewestPair(p, f, events)
  {
    if |events| > 0 {
      var n := |events| - 1;
      RunKnows(p, m, fills, events[..n]);
      assert events[..n + 1] == events && events == events[..n] + [events[n]];
      RunSnoc(PairsMachine(p, m), fills, START, events, n);
      hide Run;
      var before := Run(PairsMachine(p, m), fills, START, events[..n]).0;
      DrainKeepsFilter(p, m, fills, before, events[n].ts);
      ObserveKnows(p, m, before.state.filter, events[..n], events[n]);
      ObservePair(p, m, before.state.filter, events[..n], events[n]);
      hide Observe, Drain, Knows, NewestPair, PricesPair, PairTime;
      StepFilter(p, m, fills, before, events[n]);
      PairKeepsNewest(p, before.state.filter, Observe(p, m, before.state.filter, events[n]).0, events[..n], events[n]);
    }
  }

  /** What a step does: observe, and decide on the z score if there is one. */
  lemma EmittedBy(p: Params, m: Numerics, fills: seq<Timed<Fill>>, events: seq<Event>, i: nat)
    requires i < |events|
    ensures var s := Before(p, m, fills, events, i); var o := Observe(p, m, s.filter, events[i]);
      && FilterAfter(p, m, fills, events, i) == o.0
      && EmittedAt(p, m, fills, events, i) ==
         if o.1.None? then None else Decide(p, s.(filter := o.0), events[i].ts, o.1.value).1
  {
    var machine := PairsMachine(p, m);
    RunPrefix(machine, fills, START, events, i + 1);
    RunSnoc(machine, fills, START, events, i);
    assert EmittedAt(p, m, fills, events, i) == Run(machine, fills, START, events[..i + 1]).1[i];
    hide Run, Observe, Drain, QualityGate;
  }

  /** z deviations above the mean is where the spread lies. */
  ghost predicate Balances(z: real, sigma: real, logY: real, beta: real, logX: real, mu: real) {
    z * sigma == logY - beta * logX - mu
  }

  /** The logarithm of a latest price. */
  function LogOf(m: Numerics, latest: Option<Event>): real {
    if latest.Some? && latest.value.price.Some? then m.log(latest.value.price.value) else 0.0
  }

  /**
   z is the score of event i: the event prices a new pair, the calibration in force then has
   a mean and a positive deviation, and z times the deviation is the spread, taken with the
   hedge ratio from before the event, less the mean.
   */
  ghost predicate Scores(p: Params, m: Numerics, fills: seq<Timed<Fill>>, events: seq<Event>, i: nat, z: real)
    requires i < |events|
  {
    var seen, ou := events[..i + 1], FilterAfter(p, m, fills, events, i).ou;
    && NewPair(p, events, i)
    && ou.mu.Some? && ou.sigma.Some? && ou.sigma.value > 0.0
    && Balances(z, ou.sigma.value, LogOf(m, Latest(seen, p.symbolY)), Before(p, m, fills, events, i).filter.beta,
                LogOf(m, Latest(seen, p.symbolX)), ou.mu.value)
  }

  lemma ZScoreMeans(z: real, beta: real, logY: real, logX: real, mu: real, sigma: real)
    requires sigma > 0.0
    ensures z == ZScore(Spread(beta, logY, logX), mu, sigma) <==> Balances(z, sigma, logY, beta, logX, mu)
  {
    var x := Spread(beta, logY, logX) - mu;
    assert x / sigma * sigma == x;
    if z * sigma == x {
      assert z == z * sigma / sigma;
    }
  }

  /** The pair at event i is new exactly when its time is after the last spread's. */
  lemma NewPairMeans(p: Params, f: Filter, events: seq<Event>, i: nat)
    requires i < |events| && NewestPair(p, f, events[..i])
    ensures NewPair(p, events, i) <==>
      PricesPair(p, events[..i + 1]) && PairTime(p, events[..i + 1]) > f.lastSpread
  {
    hide Latest, PricesPair, PairTime;
    assert forall n: nat :: n <= i ==> events[..i][..n] == events[..n];
  }

  /** The step scores a price exactly when the pair is new and calibrated. */
  lemma ObserveScores(p: Params, m: Numerics, f: Filter, events: seq<Event>, e: Event, z: real)
    requires Knows(f, events)
    ensures var all := events + [e]; var o := Observe(p, m, f, e);
      o.1 == Some(z) <==>
        && PricesPair(p, all) && PairTime(p, all) > f.lastSpread
        && Calibrated(o.0.ou)
        && z == ZScore(SpreadOf(p, m, f.beta, all), o.0.ou.mu.value, o.0.ou.sigma.value)
  {
    hide Kalman, LastN, Spread, ZScore;
    LatestSnoc(events, e, p.symbolY);
    LatestSnoc(events, e, p.symbolX);
    hide Latest;
  }

  predicate Calibrated(ou: Ou) {
    ou.mu.Some? && ou.sigma.Some? && ou.sigma.value > 0.0
  }

  /** The spread of the latest prices at a given hedge ratio. */
  function SpreadOf(p: Params, m: Numerics, beta: real, events: seq<Event>): real {
    Spread(beta, LogOf(m, Latest(events, p.symbolY)), LogOf(m, Latest(events, p.symbolX)))
  }

  lemma ScoresExactly(p: Params, m: Numerics, fills: seq<Timed<Fill>>, events: seq<Event>, i: nat, z: real)
    requires i < |events|
    ensures Scores(p, m, fills, events, i, z) <==>
      Observe(p, m, Before(p, m, fills, events, i).filter, events[i]).1 == Some(z)
  {
    hide *;
    BeforeKnows(p, m, fills, events, i);
    var f := Before(p, m, fills, events, i).filter;
    assert events[..i + 1] == events[..i] + [events[i]];
    NewPairMeans(p, f, events, i);
    ObserveScores(p, m, f, events[..i], events[i], z);
    EmittedBy(p, m, fills, events, i);
    ScoresMeans(p, m, fills, events, i, z);
  }

  lemma BeforeKnows(p: Params, m: Numerics, fills: seq<Timed<Fill>>, events: seq<Event>, i: nat)
    requires i < |events|
    ensures var f := Before(p, m, fills, events, i).filter;
      Knows(f, events[..i]) && NewestPair(p, f, events[..i])
  {
    RunKnows(p, m, fills, events[..i]);
    DrainKeepsFilter(p, m, fills, Run(PairsMachine(p, m), fills, START, events[..i]).0, events[i].ts);
    hide Run, Drain, Knows, NewestPair;
  }

  lemma ScoresMeans(p: Params, m: Numerics, fills: seq<Timed<Fill>>, events: seq<Event>, i: nat, z: real)
    requires i < |events|
    ensures var seen, ou := events[..i + 1], FilterAfter(p, m, fills, events, i).ou;
      Scores(p, m, fills, events, i, z) <==>
        && NewPair(p, events, i) && Calibrated(ou)
        && z == ZScore(SpreadOf(p, m, Before(p, m, fills, events, i).filter.beta, seen), ou.mu.value, ou.sigma.value)
  {
    var seen, ou := events[..i + 1], FilterAfter(p, m, fills, events, i).ou;
    if NewPair(p, events, i) && Calibrated(ou) {
      ZScoreMeans(z, Before(p, m, fills, events, i).filter.beta, LogOf(m, Latest(seen, p.symbolY)),
                  LogOf(m, Latest(seen, p.symbolX)), ou.mu.value, ou.sigma.value);
    }
    hide FilterAfter, Before, Latest, ZScore, Spread, LogOf, NewPair, Balances;
  }

  // ----- the history and its calibrations

  /** The spreads of all new pairs, in order, each with the hedge ratio from before its event. */
  ghost function AllSpreads(p: Params, m: Numerics, fills: seq<Timed<Fill>>, events: seq<Event>): seq<real> {
    if events == [] then []
    else
      var n := |events| - 1;
      AllSpreads(p, m, fills, events[..n])
        + (if NewPair(p, events, n) then [SpreadOf(p, m, Before(p, m, fills, events, n).filter.beta, events)] else [])
  }

  /** The history is the latest part of all spreads. */
  ghost predicate LatestPart(p: Params, spreads: seq<real>, all: seq<real>) {
    && |spreads| <= |all| && spreads == all[|all| - |spreads|..]
    && |spreads| == if |all| < p.maxSpreads then |all| else p.maxSpreads
  }

  /** What one event does to history and calibration. */
  lemma ObserveHistory(p: Params, m: Numerics, f: Filter, events: seq<Event>, e: Event)
    requires Knows(f, events)
    ensures var all, g := events + [e], Observe(p, m, f, e).0;
      if PricesPair(p, all) && PairTime(p, all) > f.lastSpread then
        && g.spreads == LastN(f.spreads + [SpreadOf(p, m, f.beta, all)], p.maxSpreads)
        && (if e.ts > f.lastOu + 3600000 && |g.spreads| > 100
            then g.lastOu == e.ts && g.calibrated && g.ou == m.estimate(g.spreads)
            else g.lastOu == f.lastOu && g.calibrated == f.calibrated && g.ou == f.ou)
      else g.spreads == f.spreads && g.lastOu == f.lastOu && g.calibrated == f.calibrated && g.ou == f.ou
  {
    hide Kalman, LastN, Spread, ZScore;
    LatestSnoc(events, e, p.symbolY);
    LatestSnoc(events, e, p.symbolX);
    hide Latest;
  }

  lemma LatestPartGrows(p: Params, spreads: seq<real>, all: seq<real>, x: real)
    requires LatestPart(p, spreads, all)
    ensures LatestPart(p, LastN(spreads + [x], p.maxSpreads), all + [x])
  {
  }

  /** Event i's effect on history and calibration, in terms of new pairs. */
  lemma EventHistory(p: Params, m: Numerics, fills: seq<Timed<Fill>>, events: seq<Event>, i: nat)
    requires i < |events|
    ensures var f, g := Before(p, m, fills, events, i).filter, FilterAfter(p, m, fills, events, i);
      if NewPair(p, events, i) then
        && g.spreads == LastN(f.spreads + [SpreadOf(p, m, f.beta, events[..i + 1])], p.maxSpreads)
        && (if events[i].ts > f.lastOu + 3600000 && |g.spreads| > 100
            then g.lastOu == events[i].ts && g.calibrated && g.ou == m.estimate(g.spreads)
            else g.lastOu == f.lastOu && g.calibrated == f.calibrated && g.ou == f.ou)
      else g.spreads == f.spreads && g.lastOu == f.lastOu && g.calibrated == f.calibrated && g.ou == f.ou
  {
    hide *;
    BeforeKnows(p, m, fills, events, i);
    var f := Before(p, m, fills, events, i).filter;
    assert events[..i + 1] == events[..i] + [events[i]];
    NewPairMeans(p, f, events, i);
    ObserveHistory(p, m, f, events[..i], events[i]);
    EmittedBy(p, m, fills, events, i);
  }

  lemma BeforeIsAfter(p: Params, m: Numerics, fills: seq<Timed<Fill>>, events: seq<Event>, i: nat)
    requires i < |events|
    ensures Before(p, m, fills, events, i).filter == Run(PairsMachine(p, m), fills, START, events[..i]).0.state.filter
  {
    DrainKeepsFilter(p, m, fills, Run(PairsMachine(p, m), fills, START, events[..i]).0, events[i].ts);
    hide Run, Drain;
  }

  /** The spread history is the latest part, as long as allowed, of all spreads of new pairs. */
  lemma {:induction false} HistoryIsLatest(p: Params, m: Numerics, fills: seq<Timed<Fill>>, events: seq<Event>)
    ensures LatestPart(p, Run(PairsMachine(p, m), fills, START, events).0.state.filter.spreads, AllSpreads(p, m, fills, events))
  {
    if events != [] {
      var n := |events| - 1;
      HistoryIsLatest(p, m, fills, events[..n]);
      EventHistory(p, m, fills, events, n);
      BeforeIsAfter(p, m, fills, events, n);
      assert events[..n + 1] == events;
      assert FilterAfter(p, m, fills, events, n) == Run(PairsMachine(p, m), fills, START, events).0.state.filter;
      var f := Run(PairsMachine(p, m), fills, START, events[..n]).0.state.filter;
      hide Run, FilterAfter, Before, LatestPart, NewPair, SpreadOf, LastN;
      LatestPartGrows(p, f.spreads, AllSpreads(p, m, fills, events[..n]), SpreadOf(p, m, f.beta, events));
    }
  }

  function FilterOf(p: Params, m: Numerics, fills: seq<Timed<Fill>>, events: seq<Event>): Filter {
    Run(PairsMachine(p, m), fills, START, events).0.state.filter
  }

  /**
   The last event calibrates: it prices a new pair, more than a hundred spreads are kept,
   and the last calibration is more than an hour ago.
   */
  ghost predicate Calibrates(p: Params, m: Numerics, fills: seq<Timed<Fill>>, events: seq<Event>) {
    && events != []
    && var n := |events| - 1;
    && NewPair(p, events, n) && |FilterOf(p, m, fills, events).spreads| > 100
    && events[n].ts > FilterOf(p, m, fills, events[..n]).lastOu + 3600000
  }

  /** The n-th event is the last one that calibrates, and f holds what it gave. */
  ghost predicate LastCalibration(p: Params, m: Numerics, fills: seq<Timed<Fill>>, events: seq<Event>, f: Filter, n: nat) {
    && 0 < n <= |events| && Calibrates(p, m, fills, events[..n])
    && f.lastOu == events[n - 1].ts && f.ou == m.estimate(FilterOf(p, m, fills, events[..n]).spreads)
    && forall k: nat :: n < k <= |events| ==> !Calibrates(p, m, fills, events[..k])
  }

  ghost predicate InForce(p: Params, m: Numerics, fills: seq<Timed<Fill>>, events: seq<Event>, f: Filter) {
    if f.calibrated then exists n: nat :: LastCalibration(p, m, fills, events, f, n)
    else f.lastOu == 0 && f.ou == START.filter.ou && forall k: nat :: k <= |events| ==> !Calibrates(p, m, fills, events[..k])
  }

  lemma InForceStep(p: Params, m: Numerics, fills: seq<Timed<Fill>>, events: seq<Event>, f: Filter, g: Filter)
    requires events != [] && InForce(p, m, fills, events[..|events| - 1], f)
    requires
      if Calibrates(p, m, fills, events) then
        g.lastOu == events[|events| - 1].ts && g.calibrated && g.ou == m.estimate(FilterOf(p, m, fills, events).spreads)
      else g.lastOu == f.lastOu && g.calibrated == f.calibrated && g.ou == f.ou
    ensures InForce(p, m, fills, events, g)
  {
    hide Calibrates, FilterOf;
    var past := events[..|events| - 1];
    assert forall k: nat :: k <= |past| ==> past[..k] == events[..k];
    assert events[..|events|] == events;
    if Calibrates(p, m, fills, events) {
      assert LastCalibration(p, m, fills, events, g, |events|);
    } else if f.calibrated {
      var n: nat :| LastCalibration(p, m, fills, past, f, n);
      assert LastCalibration(p, m, fills, events, g, n);
    }
  }

  /** The calibration in force is the last one made, from the history as it was then. */
  lemma {:induction false} CalibrationInForce(p: Params, m: Numerics, fills: seq<Timed<Fill>>, events: seq<Event>)
    ensures InForce(p, m, fills, events, FilterOf(p, m, fills, events))
  {
    if events != [] {
      var n := |events| - 1;
      CalibrationInForce(p, m, fills, events[..n]);
      EventHistory(p, m, fills, events, n);
      BeforeIsAfter(p, m, fills, events, n);
      assert events[..n + 1] == events;
      assert FilterAfter(p, m, fills, events, n) == FilterOf(p, m, fills, events);
      assert Before(p, m, fills, events, n).filter == FilterOf(p, m, fills, events[..n]);
      hide Run, InForce, Before, FilterOf, FilterAfter, NewPair, LastN, SpreadOf;
      InForceStep(p, m, fills, events, FilterOf(p, m, fills, events[..n]), FilterOf(p, m, fills, events));
    }
  }

  // ----- when there is a signal, and which

  /** Calibrated, mean reverting fast enough, and the hedge ratio is certain enough. */
  ghost predicate Trusted(p: Params, f: Filter) {
    && f.calibrated && f.variance <= p.maxHedgeUncertainty
    && f.ou.sigma.Some? && f.ou.sigma.value > 0.0
    && f.ou.halfLife.Some? && f.ou.halfLife.value > 0.0
    && (p.barSeconds >= 1 ==> f.ou.halfLife.value * p.barSeconds as real <= p.maxHalfLifeHours * 3600.0)
    && (p.barSeconds < 1 ==> f.ou.halfLife.value <= p.maxHalfLifeHours * 3600.0)
  }

  /** Flat, the score is beyond the entry bound, and the quality gate is open. */
  ghost predicate Enters(p: Params, s: State, f: Filter, z: real) {
    !s.inPosition && (z > p.entryZ || -z > p.entryZ) && Trusted(p, f)
  }

  ghost predicate Stops(p: Params, s: State, z: real) {
    s.inPosition && (z > p.stopZ || -z > p.stopZ)
  }

  ghost predicate Exits(p: Params, s: State, z: real) {
    s.inPosition && -p.exitZ < z < p.exitZ
  }

  /**
   The row: an entry sells a dear spread and buys a cheap one; a stop or an exit trades
   against the side that is held, and a stop goes before an exit.
   */
  ghost predicate RowFits(p: Params, s: State, f: Filter, z: real, g: Signal) {
    && g.z == z && g.beta == f.beta
    && match g.action {
      case Entry => Enters(p, s, f, z) && (g.side == Sell <==> z > 0.0)
      case Stop => Stops(p, s, z) && (g.side == Buy <==> s.side == ShortY)
      case Exit => Exits(p, s, z) && !Stops(p, s, z) && (g.side == Buy <==> s.side == ShortY)
      case OtherAction => false
    }
  }

  lemma TrustedIsGate(p: Params, f: Filter)
    ensures QualityGate(p, f) <==> Trusted(p, f)
  {
    if f.ou.halfLife.Some? {
      var bar := (if p.barSeconds < 1 then 1 else p.barSeconds) as real;
      var h := f.ou.halfLife.value * bar;
      assert h / 3600.0 <= p.maxHalfLifeHours <==> h <= p.maxHalfLifeHours * 3600.0;
      assert p.barSeconds < 1 ==> h == f.ou.halfLife.value;
    }
  }

  lemma DecideFits(p: Params, s: State, f: Filter, ts: int, z: real)
    ensures var g := Decide(p, s.(filter := f), ts, z).1;
      && (g.Some? <==> Enters(p, s, f, z) || Stops(p, s, z) || Exits(p, s, z))
      && (g.Some? ==> g.value.ts == ts && g.value.price == PriceY(p, f) && RowFits(p, s, f, z, g.value))
  {
    TrustedIsGate(p, f);
    hide QualityGate, Trusted;
  }

  /**
   Over every run and every fill stream: an event emits a row exactly when it has a score
   that stops or exits the position held, or enters on a trusted filter, and the row fits
   that score and bears the event's time and the latest price of the first symbol.
   */
  lemma RowsExactly(p: Params, m: Numerics, fills: seq<Timed<Fill>>, events: seq<Event>, i: nat)
    requires i < |events|
    ensures var s, f, row := Before(p, m, fills, events, i), FilterAfter(p, m, fills, events, i),
                             EmittedAt(p, m, fills, events, i);
      && (row.Some? <==> exists z :: Scores(p, m, fills, events, i, z) && (Enters(p, s, f, z) || Stops(p, s, z) || Exits(p, s, z)))
      && (row.Some? ==>
            && Scores(p, m, fills, events, i, row.value.z) && RowFits(p, s, f, row.value.z, row.value)
            && row.value.ts == events[i].ts
            && Latest(events[..i + 1], p.symbolY).Some?
            && row.value.price == Latest(events[..i + 1], p.symbolY).value.price.value)
  {
    var s, f := Before(p, m, fills, events, i), FilterAfter(p, m, fills, events, i);
    var o := Observe(p, m, s.filter, events[i]);
    EmittedBy(p, m, fills, events, i);
    RunKnows(p, m, fills, events[..i + 1]);
    forall z
      ensures Scores(p, m, fills, events, i, z) <==> o.1 == Some(z)
    {
      ScoresExactly(p, m, fills, events, i, z);
    }
    if o.1.Some? {
      DecideFits(p, s, f, events[i].ts, o.1.value);
      assert Scores(p, m, fills, events, i, o.1.value);
      PriceKnown(p, m, fills, events, i, o.1.value);
    }
    hide Run, Observe, Decide, Scores, Before, FilterAfter, EmittedAt, Enters, Stops, Exits, RowFits, Knows, NewestPair, PriceY;
  }

  lemma PriceKnown(p: Params, m: Numerics, fills: seq<Timed<Fill>>, events: seq<Event>, i: nat, z: real)
    requires i < |events| && Scores(p, m, fills, events, i, z)
    ensures Latest(events[..i + 1], p.symbolY).Some?
    ensures PriceY(p, FilterAfter(p, m, fills, events, i)) == Latest(events[..i + 1], p.symbolY).value.price.value
  {
    RunKnows(p, m, fills, events[..i + 1]);
    hide Run, Latest, Before;
  }

  /** Read off the row alone: entries are beyond the entry bound on their side, exits within theirs, stops beyond theirs. */
  lemma RowThresholds(p: Params, m: Numerics, fills: seq<Timed<Fill>>, events: seq<Event>, k: nat)
    requires k < |Rows(Run(PairsMachine(p, m), fills, START, events).1)|
    ensures var g := Rows(Run(PairsMachine(p, m), fills, START, events).1)[k];
      && (g.action == Entry && g.side == Sell ==> g.z > 0.0 && g.z > p.entryZ)
      && (g.action == Entry && g.side == Buy ==> g.z <= 0.0 && g.z < -p.entryZ)
      && (g.action == Exit ==> -p.exitZ < g.z < p.exitZ && -p.stopZ <= g.z <= p.stopZ)
      && (g.action == Stop ==> g.z < -p.stopZ || g.z > p.stopZ)
  {
    var i := SignalEvent(Run(PairsMachine(p, m), fills, START, events).1, k);
    RowsExactly(p, m, fills, events, i);
    hide Run, Rows, Scores, Trusted, Before, FilterAfter;
  }

  // ----- the position, from the fills alone

  /** The side that was opened by the last fill that opens or closes, if it opens. */
  function OpenSide(fills: seq<Timed<Fill>>): Option<Side> {
    if fills == [] then None
    else
      var f := fills[|fills| - 1].fill;
      if f.action == Entry then Some(f.side)
      else if f.action == Exit || f.action == Stop then None
      else OpenSide(fills[..|fills| - 1])
  }

  /** A sold spread is held short, a bought one long. */
  ghost predicate HeldAs(s: State, open: Option<Side>) {
    && (s.inPosition <==> open.Some?)
    && (open.Some? ==> (s.side == ShortY <==> open.value == Sell) && (s.side == LongY <==> open.value == Buy))
  }

  lemma {:induction false} DrainHolds(p: Params, m: Numerics, fills: seq<Timed<Fill>>, b: Book<State>, upTo: int)
    requires b.used <= |fills| && HeldAs(b.state, OpenSide(fills[..b.used]))
    ensures var d := Drain(PairsMachine(p, m), fills, b, upTo); HeldAs(d.state, OpenSide(fills[..d.used]))
    decreases |fills| - b.used
  {
    if b.used < |fills| && fills[b.used].ts <= upTo {
      assert fills[..b.used + 1][..b.used] == fills[..b.used];
      DrainHolds(p, m, fills, Book(AfterFill(b.state, fills[b.used].fill), b.used + 1), upTo);
    }
  }

  lemma ProcessHolds(p: Params, m: Numerics, s: State, e: Event, open: Option<Side>)
    requires HeldAs(s, open)
    ensures HeldAs(Process(p, m, s, e).0, open)
  {
    hide Observe, QualityGate;
  }

  lemma {:induction false} RunHolds(p: Params, m: Numerics, fills: seq<Timed<Fill>>, events: seq<Event>)
    requires fills != []
    ensures var b := Run(PairsMachine(p, m), fills, START, events).0; HeldAs(b.state, OpenSide(fills[..b.used]))
  {
    if events != [] {
      var n := |events| - 1;
      var before := Run(PairsMachine(p, m), fills, START, events[..n]).0;
      RunHolds(p, m, fills, events[..n]);
      DrainHolds(p, m, fills, before, events[n].ts);
      var d := Drain(PairsMachine(p, m), fills, before, events[n].ts);
      ProcessHolds(p, m, d.state, events[n], OpenSide(fills[..d.used]));
      hide Drain, Process, HeldAs, OpenSide;
    }
  }

  /** With fills, the position is the one opened by the fills at or before the event's time. */
  lemma HeldByFills(p: Params, m: Numerics, fills: seq<Timed<Fill>>, events: seq<Event>, i: nat) returns (k: nat)
    requires fills != [] && i < |events| && InTime(fills)
    requires forall a, b :: 0 <= a < b < |events| ==> events[a].ts <= events[b].ts
    ensures DueBy(fills, k, events[i].ts) && HeldAs(Before(p, m, fills, events, i), OpenSide(fills[..k]))
  {
    var machine := PairsMachine(p, m);
    FillsApplied(machine, fills, START, events, i);
    RunHolds(p, m, fills, events[..i]);
    DrainHolds(p, m, fills, Run(machine, fills, START, events[..i]).0, events[i].ts);
    k := Drain(machine, fills, Run(machine, fills, START, events[..i]).0, events[i].ts).used;
    hide Run, Drain, OpenSide, HeldAs;
  }
}
