/** The replay strategy: per instrument a queue of signals, drained by quote ticks. */
module Replay {
  import opened Wrappers
  import opened Sorting
  import opened ReplayTicks

  datatype Order = Order(id: string, buy: bool, signal: ReplaySignal, at: Tick)

  function OnInstrument(inst: Instruments, id: string): ReplaySignal -> bool {
    (s: ReplaySignal) => s.key in inst && inst[s.key] == id
  }

  /** The signals of one instrument, in time order. */
  function Queue(inst: Instruments, signals: seq<ReplaySignal>, id: string): seq<ReplaySignal> {
    Filter(Sort(signals, ByTime()), OnInstrument(inst, id))
  }

  /** How many signals at the head of the queue are due. */
  function DueCount(queue: seq<ReplaySignal>, ts: int): (n: nat)
    ensures n <= |queue|
  {
    if |queue| == 0 || queue[0].tsNs > ts then 0 else 1 + DueCount(queue[1..], ts)
  }

  function OrderFor(id: string, s: ReplaySignal, at: Tick): Order {
    Order(id, s.side == "buy", s, at)
  }

  function OrdersFor(id: string, signals: seq<ReplaySignal>, at: Tick): (r: seq<Order>)
    ensures |r| == |signals|
    ensures forall i :: 0 <= i < |r| ==> r[i] == OrderFor(id, signals[i], at)
  {
    if |signals| == 0 then []
    else OrdersFor(id, signals[..|signals| - 1], at) + [OrderFor(id, signals[|signals| - 1], at)]
  }

  /** What is left of one instrument's queue after the ticks, and the orders submitted for it. */
  function Play(queue: seq<ReplaySignal>, ticks: seq<Tick>, id: string): (seq<ReplaySignal>, seq<Order>) {
    if |ticks| == 0 then (queue, [])
    else
      var n := |ticks| - 1;
      var (left, orders) := Play(queue, ticks[..n], id);
      if IsQuote(ticks[n], id) then
        var due := DueCount(left, ticks[n].ts);
        (left[due..], orders + OrdersFor(id, left[..due], ticks[n]))
      else (left, orders)
  }

  // ----- what playing one queue achieves

  /** The tick is the first quote of the instrument at or after the time. */
  ghost predicate FirstAt(ticks: seq<Tick>, id: string, ts: int, at: Tick) {
    exists j ::
      && 0 <= j < |ticks| && ticks[j] == at && IsQuote(at, id) && ts <= at.ts
      && !Reached(ticks[..j], id, ts)
  }

  lemma {:induction false} DueCountMeans(queue: seq<ReplaySignal>, ts: int)
    requires Sorted(queue, ByTime())
    ensures forall i :: 0 <= i < |queue| ==> (i < DueCount(queue, ts) <==> queue[i].tsNs <= ts)
  {
    if |queue| > 0 && queue[0].tsNs <= ts {
      DueCountMeans(queue[1..], ts);
      forall i | 0 <= i < |queue|
        ensures i < DueCount(queue, ts) <==> queue[i].tsNs <= ts
      {
        assert i > 0 ==> queue[i] == queue[1..][i - 1];
      }
    } else if |queue| > 0 {
      forall i | 0 <= i < |queue|
        ensures ts < queue[i].tsNs
      {
        assert i > 0 ==> ByTime()(queue[0], queue[i]);
      }
    }
  }

  /** The first signals of the queue were ordered at their first quote; no quote reaches the rest. */
  ghost predicate PlayedTo(queue: seq<ReplaySignal>, ticks: seq<Tick>, id: string,
                           left: seq<ReplaySignal>, orders: seq<Order>) {
    && |orders| <= |queue| && left == queue[|orders|..]
    && (forall i :: 0 <= i < |orders| ==>
          orders[i] == OrderFor(id, queue[i], orders[i].at) && FirstAt(ticks, id, queue[i].tsNs, orders[i].at))
    && (forall i :: |orders| <= i < |queue| ==> !Reached(ticks, id, queue[i].tsNs))
  }

  lemma FirstAtLater(ticks: seq<Tick>, t: Tick, id: string, ts: int, at: Tick)
    requires FirstAt(ticks, id, ts, at)
    ensures FirstAt(ticks + [t], id, ts, at)
  {
    var j :| 0 <= j < |ticks| && ticks[j] == at && IsQuote(at, id) && ts <= at.ts && !Reached(ticks[..j], id, ts);
    assert (ticks + [t])[j] == at && (ticks + [t])[..j] == ticks[..j];
  }

  lemma FirstAtNow(ticks: seq<Tick>, t: Tick, id: string, ts: int)
    requires !Reached(ticks, id, ts) && IsQuote(t, id) && ts <= t.ts
    ensures FirstAt(ticks + [t], id, ts, t)
  {
    assert (ticks + [t])[|ticks|] == t && (ticks + [t])[..|ticks|] == ticks;
  }

  lemma QuoteOrdersDue(queue: seq<ReplaySignal>, ticks: seq<Tick>, t: Tick, id: string,
                       left: seq<ReplaySignal>, orders: seq<Order>, i: nat)
    requires Sorted(left, ByTime()) && PlayedTo(queue, ticks, id, left, orders) && IsQuote(t, id)
    requires i < |orders| + DueCount(left, t.ts)
    ensures var o := (orders + OrdersFor(id, left[..DueCount(left, t.ts)], t))[i];
      o == OrderFor(id, queue[i], o.at) && FirstAt(ticks + [t], id, queue[i].tsNs, o.at)
  {
    DueCountMeans(left, t.ts);
    if i < |orders| {
      FirstAtLater(ticks, t, id, queue[i].tsNs, orders[i].at);
    } else {
      assert queue[i] == left[i - |orders|];
      FirstAtNow(ticks, t, id, queue[i].tsNs);
    }
  }

  lemma QuoteKeepsPlayed(queue: seq<ReplaySignal>, ticks: seq<Tick>, t: Tick, id: string,
                         left: seq<ReplaySignal>, orders: seq<Order>)
    requires Sorted(queue, ByTime()) && PlayedTo(queue, ticks, id, left, orders) && IsQuote(t, id)
    ensures var due := DueCount(left, t.ts);
      PlayedTo(queue, ticks + [t], id, left[due..], orders + OrdersFor(id, left[..due], t))
  {
    hide FirstAt, Reached;
    var due := DueCount(left, t.ts);
    var more := orders + OrdersFor(id, left[..due], t);
    assert Sorted(left, ByTime());
    forall i | 0 <= i < |more|
      ensures more[i] == OrderFor(id, queue[i], more[i].at) && FirstAt(ticks + [t], id, queue[i].tsNs, more[i].at)
    {
      QuoteOrdersDue(queue, ticks, t, id, left, orders, i);
    }
    DueCountMeans(left, t.ts);
    forall i | |more| <= i < |queue|
      ensures !Reached(ticks + [t], id, queue[i].tsNs)
    {
      assert queue[i] == left[i - |orders|];
      OneQuoteMore(ticks, t, id, queue[i].tsNs);
    }
    assert left[due..] == queue[|more|..];
  }

  lemma OtherKeepsPlayed(queue: seq<ReplaySignal>, ticks: seq<Tick>, t: Tick, id: string,
                         left: seq<ReplaySignal>, orders: seq<Order>)
    requires PlayedTo(queue, ticks, id, left, orders) && !IsQuote(t, id)
    ensures PlayedTo(queue, ticks + [t], id, left, orders)
  {
    forall i | 0 <= i < |orders|
      ensures FirstAt(ticks + [t], id, queue[i].tsNs, orders[i].at)
    {
      FirstAtLater(ticks, t, id, queue[i].tsNs, orders[i].at);
    }
    forall i | |orders| <= i < |queue|
      ensures !Reached(ticks + [t], id, queue[i].tsNs)
    {
      OneQuoteMore(ticks, t, id, queue[i].tsNs);
    }
  }

  /** In any tick order, each signal is ordered at the first quote that reaches it, or never. */
  lemma {:induction false} PlayOrdersAtFirstQuote(queue: seq<ReplaySignal>, ticks: seq<Tick>, id: string)
    requires Sorted(queue, ByTime())
    ensures PlayedTo(queue, ticks, id, Play(queue, ticks, id).0, Play(queue, ticks, id).1)
  {
    if |ticks| > 0 {
      var n := |ticks| - 1;
      PlayOrdersAtFirstQuote(queue, ticks[..n], id);
      var (left, orders) := Play(queue, ticks[..n], id);
      assert ticks == ticks[..n] + [ticks[n]];
      if IsQuote(ticks[n], id) {
        QuoteKeepsPlayed(queue, ticks[..n], ticks[n], id, left, orders);
      } else {
        OtherKeepsPlayed(queue, ticks[..n], ticks[n], id, left, orders);
      }
    }
  }

  /** Nothing is left exactly when every signal of the queue is reached. */
  lemma LeftEmptyExactly(queue: seq<ReplaySignal>, ticks: seq<Tick>, id: string)
    requires Sorted(queue, ByTime())
    ensures Play(queue, ticks, id).0 == [] <==> forall i :: 0 <= i < |queue| ==> Reached(ticks, id, queue[i].tsNs)
  {
    PlayOrdersAtFirstQuote(queue, ticks, id);
    var (left, orders) := Play(queue, ticks, id);
    if left == [] {
      forall i | 0 <= i < |queue|
        ensures Reached(ticks, id, queue[i].tsNs)
      {
        assert FirstAt(ticks, id, queue[i].tsNs, orders[i].at);
      }
    } else {
      assert !Reached(ticks, id, queue[|orders|].tsNs);
    }
  }

  // ----- the strategy object and the engine

  function Ids(inst: Instruments, signals: seq<ReplaySignal>): set<string> {
    set s | s in signals && s.key in inst :: inst[s.key]
  }

  function ForId(id: string): Order -> bool {
    (o: Order) => o.id == id
  }

  function Get<V>(m: map<string, seq<V>>, id: string): seq<V> {
    if id in m then m[id] else []
  }

  /** `pending_by_instrument_id`, built by one pass over the sorted signals. */
  method BuildPending(inst: Instruments, signals: seq<ReplaySignal>) returns (pending: map<string, seq<ReplaySignal>>)
    ensures pending.Keys == Ids(inst, signals)
    ensures forall id :: Get(pending, id) == Queue(inst, signals, id)
  {
    pending := map[];
    var sorted := Sort(signals, ByTime());
    for i := 0 to |sorted|
      invariant pending.Keys == Ids(inst, sorted[..i])
      invariant forall id :: Get(pending, id) == Filter(sorted[..i], OnInstrument(inst, id))
    {
      PendingSnoc(inst, sorted, i);
      hide Filter, Sort, Ids, OnInstrument;
      var s := sorted[i];
      if s.key in inst {
        var id := inst[s.key];
        pending := pending[id := Get(pending, id) + [s]];
      }
    }
    assert sorted[..|sorted|] == sorted;
    SortKeepsIds(inst, signals);
  }

  lemma PendingSnoc(inst: Instruments, sorted: seq<ReplaySignal>, i: nat)
    requires i < |sorted|
    ensures Ids(inst, sorted[..i + 1]) ==
      Ids(inst, sorted[..i]) + (if sorted[i].key in inst then {inst[sorted[i].key]} else {})
    ensures forall id ::
      Filter(sorted[..i + 1], OnInstrument(inst, id)) ==
      Filter(sorted[..i], OnInstrument(inst, id)) +
      (if sorted[i].key in inst && inst[sorted[i].key] == id then [sorted[i]] else [])
  {
    assert sorted[..i + 1] == sorted[..i] + [sorted[i]];
    forall id
      ensures Filter(sorted[..i + 1], OnInstrument(inst, id)) ==
        Filter(sorted[..i], OnInstrument(inst, id)) +
        (if sorted[i].key in inst && inst[sorted[i].key] == id then [sorted[i]] else [])
    {
      FilterSnoc(sorted, i, OnInstrument(inst, id));
    }
  }

  lemma SortKeepsIds(inst: Instruments, signals: seq<ReplaySignal>)
    ensures Ids(inst, Sort(signals, ByTime())) == Ids(inst, signals)
  {
    forall s
      ensures s in Sort(signals, ByTime()) <==> s in signals
    {
      SortMembers(signals, ByTime(), s);
    }
  }

  function DueNow(pending: map<string, seq<ReplaySignal>>, t: Tick): (n: nat)
    ensures n <= |Get(pending, t.id)|
  {
    DueCount(Get(pending, t.id), t.ts)
  }

  /** The queues after a quote tick. */
  function AfterTick(pending: map<string, seq<ReplaySignal>>, t: Tick): map<string, seq<ReplaySignal>> {
    if t.id in pending then pending[t.id := pending[t.id][DueNow(pending, t)..]] else pending
  }

  /** The orders a quote tick submits. */
  function Submitted(pending: map<string, seq<ReplaySignal>>, t: Tick): seq<Order> {
    OrdersFor(t.id, Get(pending, t.id)[..DueNow(pending, t)], t)
  }

  lemma NextDue(queue: seq<ReplaySignal>, done: nat, id: string, tick: Tick)
    requires done < |queue|
    ensures queue[done..][0] == queue[done] && queue[done..][1..] == queue[done + 1..]
    ensures queue[done].tsNs <= tick.ts ==>
      DueCount(queue[done..], tick.ts) == 1 + DueCount(queue[done + 1..], tick.ts)
    ensures OrdersFor(id, queue[..done + 1], tick) ==
      OrdersFor(id, queue[..done], tick) + [OrderFor(id, queue[done], tick)]
  {
    assert queue[..done + 1][..done] == queue[..done];
  }

  lemma NoneDue(queue: seq<ReplaySignal>, id: string, tick: Tick)
    ensures OrdersFor(id, queue[..0], tick) == [] && queue[0..] == queue
    ensures |queue| == 0 || queue[0].tsNs > tick.ts ==> DueCount(queue, tick.ts) == 0
  {
  }

  class ReplayStrategy {
    var pending: map<string, seq<ReplaySignal>>
    var orderAttempts: nat
    var replayedCount: nat
    var orders: seq<Order>

    constructor (queues: map<string, seq<ReplaySignal>>)
      ensures pending == queues && orderAttempts == replayedCount == 0 && orders == []
    {
      pending, orderAttempts, replayedCount, orders := queues, 0, 0, [];
    }

    /** `on_quote_tick`. */
    method OnQuoteTick(tick: Tick)
      requires tick.QuoteTick?
      modifies this
      ensures pending == AfterTick(old(pending), tick)
      ensures orders == old(orders) + Submitted(old(pending), tick)
      ensures orderAttempts == old(orderAttempts) + DueNow(old(pending), tick)
      ensures replayedCount == old(replayedCount) + DueNow(old(pending), tick)
    {
      if tick.id !in pending {
        return;
      }
      var waiting := pending[tick.id];
      ghost var queue := waiting;
      NoneDue(queue, tick.id, tick);
      hide DueCount, OrdersFor, OrderFor;
      ghost var done: nat := 0;
      while |waiting| > 0 && waiting[0].tsNs <= tick.ts
        invariant done <= |queue| && waiting == queue[done..] && pending == old(pending)
        invariant DueCount(queue, tick.ts) == done + DueCount(waiting, tick.ts)
        invariant orders == old(orders) + OrdersFor(tick.id, queue[..done], tick)
        invariant orderAttempts == old(orderAttempts) + done && replayedCount == old(replayedCount) + done
        decreases |queue| - done
      {
        NextDue(queue, done, tick.id, tick);
        var signal := waiting[0];
        waiting := waiting[1..];
        orderAttempts := orderAttempts + 1;
        replayedCount := replayedCount + 1;
        orders := orders + [OrderFor(tick.id, signal, tick)];
        done := done + 1;
      }
      NoneDue(waiting, tick.id, tick);
      pending := pending[tick.id := waiting];
    }

    ghost predicate Played(inst: Instruments, signals: seq<ReplaySignal>, ticks: seq<Tick>)
      reads this
    {
      orderAttempts == replayedCount == |orders| && PlayedState(inst, signals, ticks, pending, orders)
    }
  }

  /** After the ticks, every queue and every order list is what playing that instrument gives. */
  ghost predicate PlayedState(inst: Instruments, signals: seq<ReplaySignal>, ticks: seq<Tick>,
                              pending: map<string, seq<ReplaySignal>>, orders: seq<Order>) {
    && pending.Keys == Ids(inst, signals)
    && (forall id :: Get(pending, id) == Play(Queue(inst, signals, id), ticks, id).0)
    && (forall id :: Filter(orders, ForId(id)) == Play(Queue(inst, signals, id), ticks, id).1)
    && OwnInstrument(inst, orders)
  }

  /** Every order is for the instrument its signal is mapped to. */
  ghost predicate OwnInstrument(inst: Instruments, orders: seq<Order>) {
    forall i :: 0 <= i < |orders| ==> orders[i].signal.key in inst && inst[orders[i].signal.key] == orders[i].id
  }

  lemma PlayedStart(inst: Instruments, signals: seq<ReplaySignal>, pending: map<string, seq<ReplaySignal>>)
    requires pending.Keys == Ids(inst, signals)
    requires forall id :: Get(pending, id) == Queue(inst, signals, id)
    ensures PlayedState(inst, signals, [], pending, [])
  {
  }

  lemma PlayOneMore(queue: seq<ReplaySignal>, ticks: seq<Tick>, t: Tick, id: string)
    ensures var (left, orders) := Play(queue, ticks, id);
      Play(queue, ticks + [t], id) ==
        if IsQuote(t, id)
        then (left[DueCount(left, t.ts)..], orders + OrdersFor(id, left[..DueCount(left, t.ts)], t))
        else (left, orders)
  {
    assert (ticks + [t])[..|ticks|] == ticks;
  }

  /** One quote tick moves the object's state to what playing one more tick gives. */
  lemma TickPlays(inst: Instruments, signals: seq<ReplaySignal>, ticks: seq<Tick>, t: Tick,
                  pending: map<string, seq<ReplaySignal>>, orders: seq<Order>, id: string)
    requires t.QuoteTick?
    requires Get(pending, id) == Play(Queue(inst, signals, id), ticks, id).0
    requires Filter(orders, ForId(id)) == Play(Queue(inst, signals, id), ticks, id).1
    ensures Get(AfterTick(pending, t), id) == Play(Queue(inst, signals, id), ticks + [t], id).0
    ensures Filter(orders + Submitted(pending, t), ForId(id)) == Play(Queue(inst, signals, id), ticks + [t], id).1
  {
    PlayOneMore(Queue(inst, signals, id), ticks, t, id);
    FilterConcat(orders, Submitted(pending, t), ForId(id));
    FilterOrdersFor(t.id, Get(pending, t.id)[..DueNow(pending, t)], t, id);
    hide Play, Queue, Filter, OrdersFor, DueCount;
  }

  lemma SubmittedOwn(inst: Instruments, signals: seq<ReplaySignal>, ticks: seq<Tick>, t: Tick,
                     pending: map<string, seq<ReplaySignal>>, orders: seq<Order>)
    requires t.QuoteTick? && PlayedState(inst, signals, ticks, pending, orders)
    ensures OwnInstrument(inst, orders + Submitted(pending, t))
  {
    var waiting := Get(pending, t.id);
    var queue := Queue(inst, signals, t.id);
    SortSorts(signals, ByTime());
    FilterSorted(Sort(signals, ByTime()), OnInstrument(inst, t.id), ByTime());
    PlayOrdersAtFirstQuote(queue, ticks, t.id);
    forall i | 0 <= i < |waiting|
      ensures OnInstrument(inst, t.id)(waiting[i])
    {
      assert waiting[i] in queue;
      FilterMembers(Sort(signals, ByTime()), OnInstrument(inst, t.id), waiting[i]);
    }
  }

  lemma TickKeepsPlayed(inst: Instruments, signals: seq<ReplaySignal>, ticks: seq<Tick>, t: Tick,
                        pending: map<string, seq<ReplaySignal>>, orders: seq<Order>)
    requires t.QuoteTick? && PlayedState(inst, signals, ticks, pending, orders)
    ensures PlayedState(inst, signals, ticks + [t], AfterTick(pending, t), orders + Submitted(pending, t))
  {
    SubmittedOwn(inst, signals, ticks, t, pending, orders);
    forall id
      ensures Get(AfterTick(pending, t), id) == Play(Queue(inst, signals, id), ticks + [t], id).0
      ensures Filter(orders + Submitted(pending, t), ForId(id)) == Play(Queue(inst, signals, id), ticks + [t], id).1
    {
      TickPlays(inst, signals, ticks, t, pending, orders, id);
    }
    hide Play, Queue, Filter, Submitted;
  }

  lemma {:induction false} FilterOrdersFor(of: string, signals: seq<ReplaySignal>, t: Tick, id: string)
    ensures Filter(OrdersFor(of, signals, t), ForId(id)) == if of == id then OrdersFor(of, signals, t) else []
  {
    if |signals| > 0 {
      FilterOrdersFor(of, signals[..|signals| - 1], t, id);
      assert OrdersFor(of, signals, t)[..|signals| - 1] == OrdersFor(of, signals[..|signals| - 1], t);
    }
  }

  /** A tick that is not a quote of a subscribed instrument changes no queue. */
  lemma NobodyPlays(inst: Instruments, signals: seq<ReplaySignal>, ticks: seq<Tick>, t: Tick, id: string)
    requires !t.QuoteTick? || t.id !in Ids(inst, signals)
    ensures Play(Queue(inst, signals, id), ticks + [t], id) == Play(Queue(inst, signals, id), ticks, id)
  {
    assert (ticks + [t])[..|ticks|] == ticks;
    if IsQuote(t, id) {
      QueueHasId(inst, signals, id);
      EmptyPlays(ticks, id);
      EmptyPlays(ticks + [t], id);
    }
  }

  lemma QueueHasId(inst: Instruments, signals: seq<ReplaySignal>, id: string)
    ensures |Queue(inst, signals, id)| > 0 ==> id in Ids(inst, signals)
  {
    var queue := Queue(inst, signals, id);
    if |queue| > 0 {
      FilterMembers(Sort(signals, ByTime()), OnInstrument(inst, id), queue[0]);
      SortMembers(signals, ByTime(), queue[0]);
      assert inst[queue[0].key] in Ids(inst, signals);
    }
  }

  lemma {:induction false} EmptyPlays(ticks: seq<Tick>, id: string)
    ensures |Play([], ticks, id).0| == 0 && |Play([], ticks, id).1| == 0
  {
    if |ticks| > 0 {
      EmptyPlays(ticks[..|ticks| - 1], id);
    }
  }

  lemma OtherTickKeepsPlayed(inst: Instruments, signals: seq<ReplaySignal>, ticks: seq<Tick>, t: Tick,
                             pending: map<string, seq<ReplaySignal>>, orders: seq<Order>)
    requires !t.QuoteTick? || t.id !in Ids(inst, signals)
    requires PlayedState(inst, signals, ticks, pending, orders)
    ensures PlayedState(inst, signals, ticks + [t], pending, orders)
  {
    forall id
      ensures Play(Queue(inst, signals, id), ticks + [t], id) == Play(Queue(inst, signals, id), ticks, id)
    {
      NobodyPlays(inst, signals, ticks, t, id);
    }
    hide Play, Queue, Filter;
  }

  /** Orders are in time order, each submitted at one of the ticks. */
  ghost predicate TimesRise(orders: seq<Order>, ticks: seq<Tick>) {
    && (forall a, b :: 0 <= a < b < |orders| ==> orders[a].at.ts <= orders[b].at.ts)
    && (forall a :: 0 <= a < |orders| ==> orders[a].at in ticks)
  }

  lemma TimesKeepRising(orders: seq<Order>, ticks: seq<Tick>, t: Tick, pending: map<string, seq<ReplaySignal>>)
    requires TimesRise(orders, ticks) && forall u :: u in ticks ==> u.ts <= t.ts
    ensures TimesRise(orders + Submitted(pending, t), ticks + [t])
    ensures TimesRise(orders, ticks + [t])
  {
    hide DueNow;
  }

  /** The engine hands each tick to the strategy in order; only quotes of subscribed instruments reach it. */
  method RunEngine(strategy: ReplayStrategy, ghost inst: Instruments, ghost signals: seq<ReplaySignal>, ticks: seq<Tick>)
    requires strategy.Played(inst, signals, []) && strategy.orders == [] && Sorted(ticks, ByTs())
    modifies strategy
    ensures strategy.Played(inst, signals, ticks)
    ensures TimesRise(strategy.orders, ticks)
  {
    hide PlayedState, TimesRise, Submitted, AfterTick, DueNow;
    assert TimesRise([], ticks[..0]) by {
      NothingRises(ticks[..0]);
    }
    assert strategy.pending.Keys == Ids(inst, signals) by {
      PlayedKeys(inst, signals, [], strategy.pending, strategy.orders);
    }
    var subscribed := strategy.pending.Keys;
    for i := 0 to |ticks|
      invariant strategy.Played(inst, signals, ticks[..i])
      invariant TimesRise(strategy.orders, ticks[..i])
    {
      assert ticks[..i + 1] == ticks[..i] + [ticks[i]];
      TimesKeepRising(strategy.orders, ticks[..i], ticks[i], strategy.pending);
      if ticks[i].QuoteTick? && ticks[i].id in subscribed {
        TickKeepsPlayed(inst, signals, ticks[..i], ticks[i], strategy.pending, strategy.orders);
        SubmittedCount(strategy.pending, ticks[i]);
        strategy.OnQuoteTick(ticks[i]);
      } else {
        OtherTickKeepsPlayed(inst, signals, ticks[..i], ticks[i], strategy.pending, strategy.orders);
      }
    }
    assert ticks[..|ticks|] == ticks;
  }

  lemma NothingRises(ticks: seq<Tick>)
    ensures TimesRise([], ticks)
  {
  }

  lemma PlayedKeys(inst: Instruments, signals: seq<ReplaySignal>, ticks: seq<Tick>,
                   pending: map<string, seq<ReplaySignal>>, orders: seq<Order>)
    requires PlayedState(inst, signals, ticks, pending, orders)
    ensures pending.Keys == Ids(inst, signals)
  {
  }

  lemma SubmittedCount(pending: map<string, seq<ReplaySignal>>, t: Tick)
    ensures |Submitted(pending, t)| == DueNow(pending, t)
  {
  }

  // ----- the whole replay

  /** What a caller can check beforehand: each signal's instrument has a signal at a non-negative time, or a base quote reaches the signal. */
  ghost predicate AllReachable(inst: Instruments, base: seq<Tick>, signals: seq<ReplaySignal>) {
    forall i :: 0 <= i < |signals| && signals[i].key in inst ==>
      Reached(base, inst[signals[i].key], signals[i].tsNs) || HasSignalTime(inst, signals, inst[signals[i].key])
  }

  ghost predicate NothingPending(pending: map<string, seq<ReplaySignal>>) {
    forall id :: id in pending ==> pending[id] == []
  }

  ghost predicate AllMapped(inst: Instruments, signals: seq<ReplaySignal>) {
    forall i :: 0 <= i < |signals| ==> signals[i].key in inst
  }

  lemma SortKeepsReached(ticks: seq<Tick>, id: string, ts: int)
    ensures Reached(Sort(ticks, ByTs()), id, ts) <==> Reached(ticks, id, ts)
  {
    var sorted := Sort(ticks, ByTs());
    if Reached(sorted, id, ts) {
      var j :| 0 <= j < |sorted| && IsQuote(sorted[j], id) && ts <= sorted[j].ts;
      SortMembers(ticks, ByTs(), sorted[j]);
      var k :| 0 <= k < |ticks| && ticks[k] == sorted[j];
    }
    if Reached(ticks, id, ts) {
      var j :| 0 <= j < |ticks| && IsQuote(ticks[j], id) && ts <= ticks[j].ts;
      SortMembers(ticks, ByTs(), ticks[j]);
      var k :| 0 <= k < |sorted| && sorted[k] == ticks[j];
    }
  }

  lemma QueueSorted(inst: Instruments, signals: seq<ReplaySignal>, id: string)
    ensures Sorted(Queue(inst, signals, id), ByTime())
  {
    SortSorts(signals, ByTime());
    FilterSorted(Sort(signals, ByTime()), OnInstrument(inst, id), ByTime());
  }

  /** A queue holds exactly the signals of its instrument. */
  lemma QueueMembers(inst: Instruments, signals: seq<ReplaySignal>, id: string, s: ReplaySignal)
    ensures s in Queue(inst, signals, id) <==> s in signals && s.key in inst && inst[s.key] == id
  {
    FilterMembers(Sort(signals, ByTime()), OnInstrument(inst, id), s);
    SortMembers(signals, ByTime(), s);
  }

  /** Every queue runs empty exactly when every mapped signal is reached by a quote of its instrument. */
  lemma PendingEmptyExactly(inst: Instruments, signals: seq<ReplaySignal>, ticks: seq<Tick>,
                            pending: map<string, seq<ReplaySignal>>, orders: seq<Order>)
    requires PlayedState(inst, signals, ticks, pending, orders)
    ensures NothingPending(pending) <==>
      forall i :: 0 <= i < |signals| && signals[i].key in inst ==>
        Reached(ticks, inst[signals[i].key], signals[i].tsNs)
  {
    hide Play, Queue, Reached, Filter;
    if NothingPending(pending) {
      forall i | 0 <= i < |signals| && signals[i].key in inst
        ensures Reached(ticks, inst[signals[i].key], signals[i].tsNs)
      {
        var id := inst[signals[i].key];
        assert id in pending;
        assert Get(pending, id) == [];
        QueueSorted(inst, signals, id);
        LeftEmptyExactly(Queue(inst, signals, id), ticks, id);
        QueueMembers(inst, signals, id, signals[i]);
        var k :| 0 <= k < |Queue(inst, signals, id)| && Queue(inst, signals, id)[k] == signals[i];
      }
    }
    if forall i :: 0 <= i < |signals| && signals[i].key in inst ==> Reached(ticks, inst[signals[i].key], signals[i].tsNs) {
      forall id | id in pending
        ensures pending[id] == []
      {
        AllReachedLeavesNothing(inst, signals, ticks, id);
        assert Get(pending, id) == pending[id];
      }
    }
  }

  lemma AllReachedLeavesNothing(inst: Instruments, signals: seq<ReplaySignal>, ticks: seq<Tick>, id: string)
    requires forall i :: 0 <= i < |signals| && signals[i].key in inst ==>
      Reached(ticks, inst[signals[i].key], signals[i].tsNs)
    ensures Play(Queue(inst, signals, id), ticks, id).0 == []
  {
    hide Play, Queue, Reached;
    var queue := Queue(inst, signals, id);
    QueueSorted(inst, signals, id);
    LeftEmptyExactly(queue, ticks, id);
    forall k | 0 <= k < |queue|
      ensures Reached(ticks, id, queue[k].tsNs)
    {
      QueueMembers(inst, signals, id, queue[k]);
      var i :| 0 <= i < |signals| && signals[i] == queue[k];
    }
  }

  function SignalsOf(orders: seq<Order>): (r: seq<ReplaySignal>)
    ensures |r| == |orders|
    ensures forall i :: 0 <= i < |r| ==> r[i] == orders[i].signal
  {
    if |orders| == 0 then [] else SignalsOf(orders[..|orders| - 1]) + [orders[|orders| - 1].signal]
  }

  /** The signals ordered on an instrument are the ordered signals mapped to it. */
  lemma {:induction false} SignalsOnInstrument(inst: Instruments, orders: seq<Order>, id: string)
    requires OwnInstrument(inst, orders)
    ensures SignalsOf(Filter(orders, ForId(id))) == Filter(SignalsOf(orders), OnInstrument(inst, id))
  {
    if |orders| > 0 {
      var n := |orders| - 1;
      SignalsOnInstrument(inst, orders[..n], id);
      SignalsAppend(Filter(orders[..n], ForId(id)), orders[n]);
      assert SignalsOf(orders)[..n] == SignalsOf(orders[..n]);
    }
  }

  lemma SignalsAppend(orders: seq<Order>, o: Order)
    ensures SignalsOf(orders + [o]) == SignalsOf(orders) + [o.signal]
  {
  }

  /** With nothing pending, the orders of one instrument are its queue, each at its first quote. */
  lemma OrdersAreQueue(inst: Instruments, signals: seq<ReplaySignal>, ticks: seq<Tick>,
                       pending: map<string, seq<ReplaySignal>>, orders: seq<Order>, id: string)
    requires PlayedState(inst, signals, ticks, pending, orders) && NothingPending(pending)
    ensures SignalsOf(Filter(orders, ForId(id))) == Queue(inst, signals, id)
    ensures forall i :: 0 <= i < |Filter(orders, ForId(id))| ==>
      FirstAt(ticks, id, Filter(orders, ForId(id))[i].signal.tsNs, Filter(orders, ForId(id))[i].at)
  {
    hide Play, Queue, Reached, Filter, FirstAt;
    QueueSorted(inst, signals, id);
    PlayOrdersAtFirstQuote(Queue(inst, signals, id), ticks, id);
    assert Get(pending, id) == [];
  }

  /** Exactly once: the submitted signals are the replayable signals, as multisets. */
  lemma SubmittedExactlyOnce(inst: Instruments, signals: seq<ReplaySignal>, ticks: seq<Tick>,
                             pending: map<string, seq<ReplaySignal>>, orders: seq<Order>)
    requires PlayedState(inst, signals, ticks, pending, orders) && NothingPending(pending) && AllMapped(inst, signals)
    ensures multiset(SignalsOf(orders)) == multiset(signals)
    ensures |orders| == |signals|
  {
    forall s
      ensures multiset(SignalsOf(orders))[s] == multiset(signals)[s]
    {
      SubmittedAsOften(inst, signals, ticks, pending, orders, s);
    }
    assert |multiset(SignalsOf(orders))| == |SignalsOf(orders)|;
  }

  lemma SubmittedAsOften(inst: Instruments, signals: seq<ReplaySignal>, ticks: seq<Tick>,
                         pending: map<string, seq<ReplaySignal>>, orders: seq<Order>, s: ReplaySignal)
    requires PlayedState(inst, signals, ticks, pending, orders) && NothingPending(pending) && AllMapped(inst, signals)
    ensures multiset(SignalsOf(orders))[s] == multiset(signals)[s]
  {
    hide Play, Reached, Filter;
    if s.key in inst {
      var id := inst[s.key];
      OrdersAreQueue(inst, signals, ticks, pending, orders, id);
      SignalsOnInstrument(inst, orders, id);
      FilterCount(SignalsOf(orders), OnInstrument(inst, id), s);
      FilterCount(Sort(signals, ByTime()), OnInstrument(inst, id), s);
      SortPermutes(signals, ByTime());
    } else {
      assert s !in signals;
      assert s !in SignalsOf(orders);
    }
  }

  /** The terminal ticks reach every signal exactly when the caller's condition holds. */
  lemma ReachedExactly(inst: Instruments, base: seq<Tick>, signals: seq<ReplaySignal>)
    ensures AllReachable(inst, base, signals) <==>
      forall i :: 0 <= i < |signals| && signals[i].key in inst ==>
        Reached(Sort(Closing(inst, base, signals), ByTs()), inst[signals[i].key], signals[i].tsNs)
  {
    hide Reached, HasSignalTime, Sort, Closing;
    forall i | 0 <= i < |signals| && signals[i].key in inst
      ensures Reached(Sort(Closing(inst, base, signals), ByTs()), inst[signals[i].key], signals[i].tsNs) <==>
        Reached(base, inst[signals[i].key], signals[i].tsNs) || HasSignalTime(inst, signals, inst[signals[i].key])
    {
      ClosingReachesExactly(inst, base, signals, i);
      SortKeepsReached(Closing(inst, base, signals), inst[signals[i].key], signals[i].tsNs);
    }
  }

  /** Signals at non-negative times always meet the condition. */
  lemma NonNegativeIsReachable(inst: Instruments, base: seq<Tick>, signals: seq<ReplaySignal>)
    requires forall i :: 0 <= i < |signals| ==> signals[i].tsNs >= 0
    ensures AllReachable(inst, base, signals)
  {
    forall i | 0 <= i < |signals| && signals[i].key in inst
      ensures HasSignalTime(inst, signals, inst[signals[i].key])
    {
      assert MappedSignal(inst, signals[i], inst[signals[i].key]);
    }
  }

  /** The effective cap of `_nautilus_engine_smoke`. */
  function EffectiveCap(maxTicks: int, book: seq<BookEvent>, prices: seq<PriceRow>, trades: seq<TradeRow>,
                        signals: seq<ReplaySignal>): int {
    if |signals| == 0 then maxTicks
    else
      var needed := |prices| + |book| + |trades| + |signals| + 1;
      if maxTicks < needed then needed else maxTicks
  }

  lemma CapLeavesRoom(book: seq<BookEvent>, prices: seq<PriceRow>, trades: seq<TradeRow>, signals: seq<ReplaySignal>,
                      maxTicks: int)
    requires |signals| > 0
    ensures |book| + |prices| + |trades| + |signals| <= EffectiveCap(maxTicks, book, prices, trades, signals)
  {
  }

  /** With something to replay, the effective cap never cuts a tick off. */
  lemma CapIsEffective(inst: Instruments, book: seq<BookEvent>, prices: seq<PriceRow>, trades: seq<TradeRow>,
                       signals: seq<ReplaySignal>, maxTicks: int)
    requires |signals| > 0
    ensures Take(AllTicks(inst, book, prices, trades, signals), EffectiveCap(maxTicks, book, prices, trades, signals)) ==
      Closing(inst, BaseTicks(inst, book, prices, trades), signals)
    ensures AllTicks(inst, book, prices, trades, signals) == Closing(inst, BaseTicks(inst, book, prices, trades), signals)
  {
    BaseLength(inst, book, prices, trades);
    ClosingLength(inst, BaseTicks(inst, book, prices, trades), signals);
  }

  lemma NothingToReplay(inst: Instruments, base: seq<Tick>, ticks: seq<Tick>,
                        pending: map<string, seq<ReplaySignal>>, orders: seq<Order>)
    requires PlayedState(inst, [], ticks, pending, orders)
    ensures NothingPending(pending) && AllReachable(inst, base, [])
  {
  }

  lemma ReplayKeyMapped(row: SignalRow, primary: string, mapped: set<string>, s: ReplaySignal)
    requires s in ToReplay(primary, mapped)(row)
    ensures s.key in mapped
  {
    assert Judge(primary, mapped)(row) == Replayable;
    assert s.key == KeyOf(row, primary);
  }

  lemma {:induction false} ReplayableMapped(rows: seq<SignalRow>, primary: string, inst: Instruments)
    ensures AllMapped(inst, Sort(FlatMap(rows, ToReplay(primary, inst.Keys)), ByTime()))
  {
    var found := FlatMap(rows, ToReplay(primary, inst.Keys));
    forall s | s in Sort(found, ByTime())
      ensures s.key in inst
    {
      SortMembers(found, ByTime(), s);
      FlatMapMembers(rows, ToReplay(primary, inst.Keys), s);
      var i :| 0 <= i < |rows| && s in ToReplay(primary, inst.Keys)(rows[i]);
      ReplayKeyMapped(rows[i], primary, inst.Keys, s);
    }
  }

  /** What the replay promises when nothing stays pending. */
  ghost predicate Complete(inst: Instruments, signals: seq<ReplaySignal>, ticks: seq<Tick>, orders: seq<Order>) {
    && multiset(SignalsOf(orders)) == multiset(signals) && |orders| == |signals|
    && forall id ::
      && SignalsOf(Filter(orders, ForId(id))) == Queue(inst, signals, id)
      && forall i :: 0 <= i < |Filter(orders, ForId(id))| ==>
        FirstAt(ticks, id, Filter(orders, ForId(id))[i].signal.tsNs, Filter(orders, ForId(id))[i].at)
  }

  lemma CompleteWhenDrained(inst: Instruments, signals: seq<ReplaySignal>, ticks: seq<Tick>,
                            pending: map<string, seq<ReplaySignal>>, orders: seq<Order>)
    requires PlayedState(inst, signals, ticks, pending, orders) && NothingPending(pending) && AllMapped(inst, signals)
    ensures Complete(inst, signals, ticks, orders)
  {
    SubmittedExactlyOnce(inst, signals, ticks, pending, orders);
    hide Filter, Queue, Play, FirstAt, PlayedState, NothingPending;
    forall id
      ensures SignalsOf(Filter(orders, ForId(id))) == Queue(inst, signals, id)
      ensures forall i :: 0 <= i < |Filter(orders, ForId(id))| ==>
        FirstAt(ticks, id, Filter(orders, ForId(id))[i].signal.tsNs, Filter(orders, ForId(id))[i].at)
    {
      OrdersAreQueue(inst, signals, ticks, pending, orders, id);
    }
  }

  /** What a replay leaves: the orders, how many were attempted, and what is still pending. */
  datatype Outcome = Outcome(orders: seq<Order>, orderAttempts: nat, pending: map<string, seq<ReplaySignal>>)

  /** What a replay that ran promises. */
  ghost predicate RanFor(inst: Instruments, base: seq<Tick>, signals: seq<ReplaySignal>, ticks: seq<Tick>, o: Outcome) {
    && o.orderAttempts == |o.orders| && TimesRise(o.orders, ticks)
    && PlayedState(inst, signals, ticks, o.pending, o.orders)
    && (NothingPending(o.pending) <==> AllReachable(inst, base, signals))
    && (NothingPending(o.pending) ==> Complete(inst, signals, ticks, o.orders))
  }

  /**
   The result of `_nautilus_engine_smoke`: nothing is run without ticks, which a batch of
   reachable signals never lacks.
   */
  ghost predicate ReplayResult(inst: Instruments, base: seq<Tick>, signals: seq<ReplaySignal>, ticks: seq<Tick>,
                               outcome: Option<Outcome>) {
    && (signals != [] ==> ticks == Sort(Closing(inst, base, signals), ByTs()))
    && (outcome.None? <==> ticks == [])
    && (outcome.None? && signals != [] ==> !AllReachable(inst, base, signals))
    && (outcome.Some? ==> RanFor(inst, base, signals, ticks, outcome.value))
  }

  /** `_nautilus_engine_smoke`: from artifacts to orders. */
  method RunReplay(inst: Instruments, primary: string, rows: seq<SignalRow>, book: seq<BookEvent>,
                   prices: seq<PriceRow>, trades: seq<TradeRow>, maxTicks: int)
    returns (signals: seq<ReplaySignal>, ticks: seq<Tick>, outcome: Option<Outcome>)
    ensures signals == Sort(FlatMap(rows, ToReplay(primary, inst.Keys)), ByTime())
    ensures ReplayResult(inst, BaseTicks(inst, book, prices, trades), signals, ticks, outcome)
    ensures ReplayedFrom(rows, primary, inst.Keys, signals)
    ensures signals != [] ==> MadeFrom(inst, book, prices, trades, signals, ticks)
  {
    hide MadeFrom, ReplayedFrom;
    hide PlayedState, Reached, AllReachable, NothingPending, Complete, TimesRise, AllMapped, RanFor;
    hide Sort, Sorted, FlatMap, Take, Filter, Closing, AllTicks, BaseTicks, EffectiveCap, Play, Queue, SignalsOf;
    var coverage;
    signals, coverage := ReplaySignals(rows, primary, inst.Keys);
    ReplayableMapped(rows, primary, inst);
    var cap := EffectiveCap(maxTicks, book, prices, trades, signals);
    ticks := SmokeTicks(inst, book, prices, trades, signals, cap);
    if signals != [] {
      CapIsEffective(inst, book, prices, trades, signals, maxTicks);
      assert |book| + |prices| + |trades| + |signals| <= cap by {
        CapLeavesRoom(book, prices, trades, signals, maxTicks);
      }
    }
    if ticks == [] {
      if signals != [] {
        NoTicksNoReach(inst, BaseTicks(inst, book, prices, trades), signals);
      }
      return signals, ticks, None;
    }
    ByTsOrders();
    SortSorts(Take(AllTicks(inst, book, prices, trades, signals), cap), ByTs());
    var o := RunStrategy(inst, signals, ticks, BaseTicks(inst, book, prices, trades));
    outcome := Some(o);
  }

  /** Without a tick no signal is reached. */
  lemma NoTicksNoReach(inst: Instruments, base: seq<Tick>, signals: seq<ReplaySignal>)
    requires signals != [] && AllMapped(inst, signals) && Sort(Closing(inst, base, signals), ByTs()) == []
    ensures !AllReachable(inst, base, signals)
  {
    ReachedExactly(inst, base, signals);
    assert signals[0].key in inst && !Reached([], inst[signals[0].key], signals[0].tsNs);
    hide Reached, Sort, Closing, HasSignalTime;
  }

  /** The part after the early return: build the strategy and run the engine. */
  method RunStrategy(inst: Instruments, signals: seq<ReplaySignal>, ticks: seq<Tick>, ghost base: seq<Tick>)
    returns (o: Outcome)
    requires AllMapped(inst, signals) && Sorted(ticks, ByTs())
    requires signals != [] ==> ticks == Sort(Closing(inst, base, signals), ByTs())
    ensures RanFor(inst, base, signals, ticks, o)
  {
    hide PlayedState, Reached, AllReachable, NothingPending, Complete, TimesRise, AllMapped;
    hide Sort, Sorted, Closing, Play, Queue, SignalsOf, Filter;
    var queues := BuildPending(inst, signals);
    PlayedStart(inst, signals, queues);
    var strategy := new ReplayStrategy(queues);
    RunEngine(strategy, inst, signals, ticks);
    o := Outcome(strategy.orders, strategy.orderAttempts, strategy.pending);
    PendingEmptyExactly(inst, signals, ticks, o.pending, o.orders);
    if signals != [] {
      ReachedExactly(inst, base, signals);
    } else {
      NothingToReplay(inst, base, ticks, o.pending, o.orders);
    }
    if NothingPending(o.pending) {
      CompleteWhenDrained(inst, signals, ticks, o.pending, o.orders);
    }
  }

  // ----- a signal that is never submitted

  const Symbol: string := "BTC"
  const BuySide: string := "buy"
  const OneKey: Instruments := map[Symbol := Symbol]
  const EarlyRow: SignalRow := SignalRow(BuySide, Symbol, Some(-1), None)
  const EarlySignal: ReplaySignal := ReplaySignal(-1000000, BuySide, Symbol, None)
  const OneTrade: TradeRow := TradeRow(Symbol, Some(0), Some(1.0), Some(1.0), BuySide)
  const OneTick: Tick := TradeTick(Symbol, 0, 1.0, 1.0, false)

  lemma EarlyNames()
    ensures Upper(Symbol) == Symbol && Lower(BuySide) == BuySide
    ensures BuySide != "sell" && BuySide != "ask" && Symbol != ""
  {
    UpperAlready(Symbol);
    LowerAlready(BuySide);
    assert BuySide[0] == 'b' && "sell"[0] == 's' && "ask"[0] == 'a';
  }

  lemma OneOf<S, T>(s: S, f: S -> seq<T>)
    ensures FlatMap([s], f) == f(s) && FlatMap([], f) == []
  {
    assert [s][..0] == [];
    assert FlatMap([], f) == [];
  }

  lemma EarlyRowReplays()
    ensures Sort(FlatMap([EarlyRow], ToReplay("", OneKey.Keys)), ByTime()) == [EarlySignal]
  {
    EarlyNames();
    hide Upper, Lower;
    assert KeyOf(EarlyRow, "") == Symbol;
    assert Judge("", OneKey.Keys)(EarlyRow) == Replayable;
    assert ToReplay("", OneKey.Keys)(EarlyRow) == [EarlySignal];
    OneOf(EarlyRow, ToReplay("", OneKey.Keys));
    hide FlatMap;
    assert Sort([EarlySignal], ByTime()) == [EarlySignal];
  }

  lemma EarlyBase()
    ensures BaseTicks(OneKey, [], [], [OneTrade]) == [OneTick]
  {
    EarlyNames();
    hide Upper, Lower;
    assert FromTrade(OneKey)(OneTrade) == [OneTick];
    OneOf(OneTrade, FromTrade(OneKey));
    assert PriceFrame(OneKey, BookSymbols(OneKey, []), []) == [];
    assert FlatMap([], FromBook(OneKey)) == [] && FlatMap([], FromPrice(OneKey)) == [];
  }

  lemma EarlyTicks()
    ensures Sort(Closing(OneKey, [OneTick], [EarlySignal]), ByTs()) == [OneTick]
  {
    assert [OneTick][..0] == [];
    assert LastQuote([OneTick], Symbol) == -1;
    assert Closing(OneKey, [OneTick], [EarlySignal]) == Closing(OneKey, [OneTick], [EarlySignal][1..]);
    assert Sort([OneTick], ByTs()) == [OneTick];
  }

  /** A signal a millisecond before 1970, replayed beside one trade of its instrument, gets no closing quote and stays pending. */
  lemma EarlySignalStaysPending(ticks: seq<Tick>, outcome: Option<Outcome>)
    requires var signals := Sort(FlatMap([EarlyRow], ToReplay("", OneKey.Keys)), ByTime());
      ReplayResult(OneKey, BaseTicks(OneKey, [], [], [OneTrade]), signals, ticks, outcome)
    ensures outcome.Some? && outcome.value.pending == map[Symbol := [EarlySignal]] && outcome.value.orders == []
  {
    EarlyRowReplays();
    EarlyBase();
    EarlyTicks();
    hide Sort, FlatMap, BaseTicks, Closing, PlayedState, Complete, AllReachable, NothingPending;
    EarlyPlay(outcome.value.pending, outcome.value.orders);
  }

  lemma EarlyPlay(pending: map<string, seq<ReplaySignal>>, orders: seq<Order>)
    requires PlayedState(OneKey, [EarlySignal], [OneTick], pending, orders)
    ensures pending == map[Symbol := [EarlySignal]] && orders == []
  {
    assert Sort([EarlySignal], ByTime()) == [EarlySignal];
    assert [EarlySignal][..0] == [];
    assert Queue(OneKey, [EarlySignal], Symbol) == [EarlySignal];
    assert [OneTick][..0] == [];
    assert Play([EarlySignal], [OneTick], Symbol).0 == [EarlySignal] && |Play([EarlySignal], [OneTick], Symbol).1| == 0;
    assert OneKey[EarlySignal.key] in Ids(OneKey, [EarlySignal]);
    assert Ids(OneKey, [EarlySignal]) == {Symbol};
    assert Get(pending, Symbol) == [EarlySignal];
    NoOrders(orders);
  }

  lemma NoOrders(orders: seq<Order>)
    requires OwnInstrument(OneKey, orders) && |Filter(orders, ForId(Symbol))| == 0
    ensures |orders| == 0
  {
    if |orders| > 0 {
      FilterMembers(orders, ForId(Symbol), orders[|orders| - 1]);
    }
  }
}
