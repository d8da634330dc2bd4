/**
 The common shape of the reference signal machines.  A machine reads events in time
 order.  Without fills a signal changes the position at once; with fills the position
 only changes when a fill is applied, before the first event at or after its time.
 */
module FillDriven {
  import opened Wrappers

  datatype Timed<F> = Timed(ts: int, fill: F)

  /**
   process handles one event and may emit a signal; commit is the position change that
   immediate mode makes after emitting; applyFill is the one a fill makes.
   */
  datatype Machine<!S, !E, !G, !F> = Machine(
    ts: E -> int,
    process: (S, E) -> (S, Option<G>),
    commit: (S, G) -> S,
    applyFill: (S, F) -> S
  )

  /** Machine state and the number of fills already applied. */
  datatype Book<S> = Book(state: S, used: nat)

  /** `apply_fills(up_to_ts)`. */
  function Drain<S, E, G, F>(m: Machine<S, E, G, F>, fills: seq<Timed<F>>, b: Book<S>, upTo: int): (r: Book<S>)
    requires b.used <= |fills|
    ensures b.used <= r.used <= |fills|
    decreases |fills| - b.used
  {
    if b.used < |fills| && fills[b.used].ts <= upTo
    then Drain(m, fills, Book(m.applyFill(b.state, fills[b.used].fill), b.used + 1), upTo)
    else b
  }

  lemma NoFillsDrain<S, E, G, F>(m: Machine<S, E, G, F>, b: Book<S>, upTo: int)
    requires b.used == 0
    ensures Drain(m, [], b, upTo) == b
  {
  }

  function Step<S, E, G, F>(m: Machine<S, E, G, F>, fills: seq<Timed<F>>, b: Book<S>, e: E): (r: (Book<S>, Option<G>))
    requires b.used <= |fills|
    ensures r.0.used <= |fills|
  {
    var d := Drain(m, fills, b, m.ts(e));
    var (s, g) := m.process(d.state, e);
    if g.Some? && |fills| == 0 then (Book(m.commit(s, g.value), d.used), g) else (Book(s, d.used), g)
  }

  /** The book after all events, and what each event emitted. */
  function Run<S, E, G, F>(m: Machine<S, E, G, F>, fills: seq<Timed<F>>, start: S, events: seq<E>): (r: (Book<S>, seq<Option<G>>))
    ensures r.0.used <= |fills| && |r.1| == |events|
  {
    if |events| == 0 then (Book(start, 0), [])
    else
      var before := Run(m, fills, start, events[..|events| - 1]);
      var (b, g) := Step(m, fills, before.0, events[|events| - 1]);
      (b, before.1 + [g])
  }

  /** The signals, without the events that emitted none. */
  function Rows<G>(emitted: seq<Option<G>>): seq<G> {
    if |emitted| == 0 then []
    else
      var last := emitted[|emitted| - 1];
      Rows(emitted[..|emitted| - 1]) + (if last.Some? then [last.value] else [])
  }

  ghost predicate Ordered<S, E, G, F>(m: Machine<S, E, G, F>, events: seq<E>) {
    forall i, j :: 0 <= i < j < |events| ==> m.ts(events[i]) <= m.ts(events[j])
  }

  /** A fill of a signal does to the position what the signal does in immediate mode. */
  ghost predicate FillsCommit<S(!new), E(!new), G(!new), F(!new)>(m: Machine<S, E, G, F>, matches: (G, F) -> bool) {
    forall s, e, f :: m.process(s, e).1.Some? && matches(m.process(s, e).1.value, f) ==>
      m.applyFill(m.process(s, e).0, f) == m.commit(m.process(s, e).0, m.process(s, e).1.value)
  }

  /** The fill of event i's signal comes strictly after the event and no later than the next event. */
  ghost predicate FilledInTime<S, E, G, F>(m: Machine<S, E, G, F>, matches: (G, F) -> bool, events: seq<E>,
                                           emitted: seq<Option<G>>, fills: seq<Timed<F>>, i: nat)
    requires i < |emitted| == |events| && emitted[i].Some?
  {
    var j := |Rows(emitted[..i])|;
    && j < |fills|
    && m.ts(events[i]) < fills[j].ts
    && (i + 1 < |events| ==> fills[j].ts <= m.ts(events[i + 1]))
    && matches(emitted[i].value, fills[j].fill)
  }

  /** One fill per signal, each in time. */
  ghost predicate FillsFollow<S, E, G, F>(m: Machine<S, E, G, F>, matches: (G, F) -> bool, events: seq<E>,
                                          emitted: seq<Option<G>>, fills: seq<Timed<F>>)
    requires |emitted| == |events|
  {
    && |fills| == |Rows(emitted)|
    && forall i :: 0 <= i < |events| && emitted[i].Some? ==>
      FilledInTime(m, matches, events, emitted, fills, i)
  }

  lemma {:induction false} RowsMonotone<G>(emitted: seq<Option<G>>, i: nat, j: nat)
    requires i <= j <= |emitted|
    ensures |Rows(emitted[..i])| <= |Rows(emitted[..j])|
    decreases j - i
  {
    if i < j {
      RowsMonotone(emitted, i, j - 1);
      assert emitted[..j][..j - 1] == emitted[..j - 1];
    }
  }

  lemma RowsNext<G>(emitted: seq<Option<G>>, i: nat)
    requires i < |emitted|
    ensures Rows(emitted[..i + 1]) == Rows(emitted[..i]) + (if emitted[i].Some? then [emitted[i].value] else [])
  {
    assert emitted[..i + 1][..i] == emitted[..i];
  }

  /** The next unused fill belongs to event i or a later one, so it comes after event i. */
  lemma {:induction false} NextFillLater<S, E, G, F>(m: Machine<S, E, G, F>, matches: (G, F) -> bool, events: seq<E>,
                                  emitted: seq<Option<G>>, fills: seq<Timed<F>>, i: nat, k: nat)
    requires |emitted| == |events| && Ordered(m, events) && FillsFollow(m, matches, events, emitted, fills)
    requires i <= k <= |events| && i < |events|
    requires |Rows(emitted[..k])| == |Rows(emitted[..i])| < |fills|
    ensures m.ts(events[i]) < fills[|Rows(emitted[..i])|].ts
    decreases |events| - k
  {
    assert emitted[..|emitted|] == emitted;
    if k < |events| {
      if emitted[k].Some? {
        assert FilledInTime(m, matches, events, emitted, fills, k);
        assert i == k || m.ts(events[i]) <= m.ts(events[k]);
      } else {
        RowsNext(emitted, k);
        NextFillLater(m, matches, events, emitted, fills, i, k + 1);
      }
    }
  }

  /** Where the driven run stands before event i: level with the immediate run, or one fill behind it. */
  ghost predicate LevelOrBehind<S, E, G, F>(m: Machine<S, E, G, F>, matches: (G, F) -> bool, events: seq<E>,
                                            emitted: seq<Option<G>>, fills: seq<Timed<F>>, i: nat,
                                            immediate: S, driven: Book<S>)
    requires |emitted| == |events| && i <= |events|
  {
    var j := |Rows(emitted[..i])|;
    if i > 0 && emitted[i - 1].Some?
    then j >= 1 && driven.used == j - 1 && j - 1 < |fills| &&
         immediate == m.applyFill(driven.state, fills[j - 1].fill)
    else driven == Book(immediate, j)
  }

  /** With all earlier signals filled, nothing more is due before event i. */
  lemma NothingDue<S, E, G, F>(m: Machine<S, E, G, F>, matches: (G, F) -> bool, events: seq<E>,
                               emitted: seq<Option<G>>, fills: seq<Timed<F>>, i: nat, state: S)
    requires |emitted| == |events| && Ordered(m, events) && FillsFollow(m, matches, events, emitted, fills)
    requires i < |events|
    ensures |Rows(emitted[..i])| <= |fills|
    ensures Drain(m, fills, Book(state, |Rows(emitted[..i])|), m.ts(events[i])) ==
      Book(state, |Rows(emitted[..i])|)
  {
    RowsMonotone(emitted, i, |events|);
    assert emitted[..|events|] == emitted;
    if |Rows(emitted[..i])| < |fills| {
      NextFillLater(m, matches, events, emitted, fills, i, i);
    }
  }

  /** Draining before event i catches up. */
  lemma DrainCatchesUp<S, E, G, F>(m: Machine<S, E, G, F>, matches: (G, F) -> bool, events: seq<E>,
                                   emitted: seq<Option<G>>, fills: seq<Timed<F>>, i: nat,
                                   immediate: S, driven: Book<S>)
    requires |emitted| == |events| && Ordered(m, events) && FillsFollow(m, matches, events, emitted, fills)
    requires i < |events| && driven.used <= |fills|
    requires LevelOrBehind(m, matches, events, emitted, fills, i, immediate, driven)
    ensures Drain(m, fills, driven, m.ts(events[i])) == Book(immediate, |Rows(emitted[..i])|)
  {
    NothingDue(m, matches, events, emitted, fills, i, immediate);
    if i > 0 && emitted[i - 1].Some? {
      RowsNext(emitted, i - 1);
      assert FilledInTime(m, matches, events, emitted, fills, i - 1);
    }
  }

  /** A step of the driven run from a level book keeps it level or one fill behind. */
  lemma StepKeepsLevel<S(!new), E(!new), G(!new), F(!new)>(
      m: Machine<S, E, G, F>, matches: (G, F) -> bool, events: seq<E>, emitted: seq<Option<G>>,
      fills: seq<Timed<F>>, i: nat, immediate: S, driven: Book<S>)
    requires |emitted| == |events| && i < |events| && driven.used <= |fills| && |fills| != 0
    requires FillsCommit(m, matches) && FillsFollow(m, matches, events, emitted, fills)
    requires Drain(m, fills, driven, m.ts(events[i])) == Book(immediate, |Rows(emitted[..i])|)
    requires emitted[i] == m.process(immediate, events[i]).1
    ensures Step(m, fills, driven, events[i]).1 == emitted[i]
    ensures LevelOrBehind(m, matches, events, emitted, fills, i + 1,
                          Step(m, [], Book(immediate, 0), events[i]).0.state,
                          Step(m, fills, driven, events[i]).0)
  {
    RowsNext(emitted, i);
    if emitted[i].Some? {
      assert FilledInTime(m, matches, events, emitted, fills, i);
    }
  }

  /** The first k fills are those at or before the time. */
  ghost predicate DueBy<F>(fills: seq<Timed<F>>, k: nat, upTo: int) {
    && k <= |fills|
    && (forall j :: 0 <= j < k ==> fills[j].ts <= upTo)
    && (forall j :: k <= j < |fills| ==> upTo < fills[j].ts)
  }

  ghost predicate InTime<F>(fills: seq<Timed<F>>) {
    forall i, j :: 0 <= i < j < |fills| ==> fills[i].ts <= fills[j].ts
  }

  lemma {:induction false} DrainDue<S, E, G, F>(m: Machine<S, E, G, F>, fills: seq<Timed<F>>, b: Book<S>, upTo: int)
    requires b.used <= |fills| && InTime(fills) && forall j :: 0 <= j < b.used ==> fills[j].ts <= upTo
    ensures DueBy(fills, Drain(m, fills, b, upTo).used, upTo)
    decreases |fills| - b.used
  {
    if b.used < |fills| && fills[b.used].ts <= upTo {
      DrainDue(m, fills, Book(m.applyFill(b.state, fills[b.used].fill), b.used + 1), upTo);
    }
  }

  /** When an event is handled, exactly the fills at or before its time have been applied. */
  lemma {:induction false} FillsApplied<S, E, G, F>(m: Machine<S, E, G, F>, fills: seq<Timed<F>>, start: S, events: seq<E>, i: nat)
    requires i < |events| && Ordered(m, events) && InTime(fills)
    ensures DueBy(fills, Drain(m, fills, Run(m, fills, start, events[..i]).0, m.ts(events[i])).used, m.ts(events[i]))
  {
    if i > 0 {
      FillsApplied(m, fills, start, events, i - 1);
      RunSnoc(m, fills, start, events, i - 1);
      assert m.ts(events[i - 1]) <= m.ts(events[i]);
    }
    hide Run;
    DrainDue(m, fills, Run(m, fills, start, events[..i]).0, m.ts(events[i]));
  }

  lemma RunSnoc<S, E, G, F>(m: Machine<S, E, G, F>, fills: seq<Timed<F>>, start: S, events: seq<E>, i: nat)
    requires i < |events|
    ensures Run(m, fills, start, events[..i + 1]).0 ==
      Step(m, fills, Run(m, fills, start, events[..i]).0, events[i]).0
    ensures Run(m, fills, start, events[..i + 1]).1 ==
      Run(m, fills, start, events[..i]).1 + [Step(m, fills, Run(m, fills, start, events[..i]).0, events[i]).1]
  {
    assert events[..i + 1][..i] == events[..i];
  }

  lemma {:induction false} RowsConcat<G>(a: seq<Option<G>>, b: seq<Option<G>>)
    ensures Rows(a + b) == Rows(a) + Rows(b)
    decreases |b|
  {
    if |b| == 0 {
      assert a + b == a;
    } else {
      RowsConcat(a, b[..|b| - 1]);
      assert (a + b)[..|a + b| - 1] == a + b[..|b| - 1];
    }
  }

  /** The event that emitted the j-th signal. */
  lemma {:induction false} SignalEvent<G>(emitted: seq<Option<G>>, j: nat) returns (r: nat)
    requires j < |Rows(emitted)|
    ensures r < |emitted| && emitted[r].Some? && |Rows(emitted[..r])| == j && Rows(emitted)[j] == emitted[r].value
  {
    var n := |emitted| - 1;
    if j < |Rows(emitted[..n])| {
      r := SignalEvent(emitted[..n], j);
      assert emitted[..n][..r] == emitted[..r];
    } else {
      r := n;
    }
  }

  function Emitted<G>(g: Option<G>): seq<G> {
    if g.Some? then [g.value] else []
  }

  /** One more event appends what its step emits. */
  lemma RunRows<S, E, G, F>(m: Machine<S, E, G, F>, fills: seq<Timed<F>>, start: S, events: seq<E>, i: nat)
    requires i < |events|
    ensures Run(m, fills, start, events[..i + 1]).0 ==
      Step(m, fills, Run(m, fills, start, events[..i]).0, events[i]).0
    ensures Rows(Run(m, fills, start, events[..i + 1]).1) ==
      Rows(Run(m, fills, start, events[..i]).1) +
      Emitted(Step(m, fills, Run(m, fills, start, events[..i]).0, events[i]).1)
  {
    RunSnoc(m, fills, start, events, i);
    var emitted := Run(m, fills, start, events[..i + 1]).1;
    assert emitted[..|emitted| - 1] == Run(m, fills, start, events[..i]).1;
  }

  lemma {:induction false} DrivenTracks<S(!new), E(!new), G(!new), F(!new)>(
      m: Machine<S, E, G, F>, matches: (G, F) -> bool, start: S, events: seq<E>, fills: seq<Timed<F>>, i: nat)
    requires i <= |events| && Ordered(m, events) && FillsCommit(m, matches) && |fills| != 0
    requires FillsFollow(m, matches, events, Run(m, [], start, events).1, fills)
    ensures Run(m, fills, start, events[..i]).1 == Run(m, [], start, events).1[..i]
    ensures LevelOrBehind(m, matches, events, Run(m, [], start, events).1, fills, i,
                          Run(m, [], start, events[..i]).0.state, Run(m, fills, start, events[..i]).0)
  {
    if i > 0 {
      hide FillsCommit, FillsFollow, LevelOrBehind, Ordered;
      var emitted := Run(m, [], start, events).1;
      DrivenTracks(m, matches, start, events, fills, i - 1);
      RunSnoc(m, fills, start, events, i - 1);
      RunSnoc(m, [], start, events, i - 1);
      var immediate := Run(m, [], start, events[..i - 1]).0;
      var driven := Run(m, fills, start, events[..i - 1]).0;
      DrainCatchesUp(m, matches, events, emitted, fills, i - 1, immediate.state, driven);
      ImmediateEmits(m, start, events, i - 1);
      StepKeepsLevel(m, matches, events, emitted, fills, i - 1, immediate.state, driven);
      assert emitted[..i] == emitted[..i - 1] + [emitted[i - 1]];
    }
  }

  lemma ImmediateEmits<S, E, G, F>(m: Machine<S, E, G, F>, start: S, events: seq<E>, i: nat)
    requires i < |events|
    ensures Run(m, [], start, events).1[i] ==
      m.process(Run(m, [], start, events[..i]).0.state, events[i]).1
    ensures Run(m, [], start, events[..i]).0.used == 0
  {
    RunPrefix(m, [], start, events, i + 1);
    RunSnoc(m, [], start, events, i);
    assert Run(m, [], start, events).1[..i + 1][i] == Run(m, [], start, events).1[i];
  }

  lemma {:induction false} RunPrefix<S, E, G, F>(m: Machine<S, E, G, F>, fills: seq<Timed<F>>, start: S, events: seq<E>, i: nat)
    requires i <= |events|
    ensures Run(m, fills, start, events[..i]).1 == Run(m, fills, start, events).1[..i]
    decreases |events|
  {
    if i == |events| {
      assert events[..i] == events;
    } else {
      RunPrefix(m, fills, start, events[..|events| - 1], i);
      assert events[..|events| - 1][..i] == events[..i];
    }
  }

  /**
   Refinement: driven by the timely fills of its own signals, the machine emits the very
   signals it emits without fills.
   */
  lemma DrivenEqualsImmediate<S(!new), E(!new), G(!new), F(!new)>(
      m: Machine<S, E, G, F>, matches: (G, F) -> bool, start: S, events: seq<E>, fills: seq<Timed<F>>)
    requires Ordered(m, events) && FillsCommit(m, matches)
    requires FillsFollow(m, matches, events, Run(m, [], start, events).1, fills)
    ensures Run(m, fills, start, events).1 == Run(m, [], start, events).1
  {
    if fills != [] {
      DrivenTracks(m, matches, start, events, fills, |events|);
      assert events[..|events|] == events;
    }
  }
}
