/** What holds after any sequence of sessions, and when stopping and resuming makes no difference. */
module OrchestratorRuns {
  import opened Wrappers
  import opened Candidates
  import opened Orchestrator
  import F = Feasibility

  // ----- safety over all sessions

  ghost predicate AllSafe(records: seq<Record>) {
    forall i :: 0 <= i < |records| ==> Safe(records[i])
  }

  /** The same candidates, and no history entry was lost or rewritten. */
  ghost predicate Grown(before: seq<Record>, after: seq<Record>) {
    && |before| == |after|
    && forall i :: 0 <= i < |before| ==> before[i].who == after[i].who && before[i].history <= after[i].history
  }

  lemma AdvanceGrows(w: World, r: Record, disk: Disk)
    ensures Advance(w, r, disk).Ok? ==> r.history <= Advance(w, r, disk).value.0.history
  {
    hide GateChecks, F.Evaluate, F.ToDict;
  }

  lemma {:induction false} SweepKeepsSafe(w: World, store: Store, i: nat, left: nat, changed: bool)
    requires i <= |store.records| && AllSafe(store.records)
    ensures AllSafe(Sweep(w, store, i, left, changed).store.records)
    ensures Grown(store.records, Sweep(w, store, i, left, changed).store.records)
    decreases |store.records| - i
  {
    hide Advance, Safe, Sweep;
    SweepUnfolds(w, store, i, left, changed);
    if i < |store.records| && left > 0 && Advance(w, store.records[i], store.disk).Ok? {
      var step := Advance(w, store.records[i], store.disk);
      AdvanceKeepsSafe(w, store.records[i], store.disk);
      AdvanceGrows(w, store.records[i], store.disk);
      SweepKeepsSafe(w, Store(store.records[i := step.value.0], step.value.1), i + 1, left - 1,
                     changed || step.value.0 != store.records[i]);
    }
  }

  lemma {:induction false} SweepsKeepSafe(w: World, store: Store, left: nat, n: nat)
    requires AllSafe(store.records)
    ensures AllSafe(Sweeps(w, store, left, n).store.records)
    ensures Grown(store.records, Sweeps(w, store, left, n).store.records)
    decreases n
  {
    hide Sweep, AllSafe, Sweeps;
    SweepsUnfolds(w, store, left, n);
    if n > 0 {
      SweepKeepsSafe(w, store, 0, left, false);
      var p := Sweep(w, store, 0, left, false);
      SweepsKeepSafe(w, p.store, p.left, n - 1);
    }
  }

  lemma {:induction false} ReprobeFromKeepsSafe(w: World, records: seq<Record>, disk: Disk, i: nat)
    requires i <= |records| && AllSafe(records)
    ensures var all := ReprobeFrom(w, records, disk, i);
      all.Ok? ==> AllSafe(all.value.0) && Grown(records, all.value.0)
    decreases |records| - i
  {
    hide ReprobeOne, Safe, ReprobeFrom;
    ReprobeUnfolds(w, records, disk, i);
    if i < |records| && ReprobeOne(w, records[i], disk).Ok? {
      var step := ReprobeOne(w, records[i], disk);
      ReprobeKeepsSafe(w, records[i], disk);
      ReprobeGrows(w, records[i], disk);
      ReprobeFromKeepsSafe(w, records[i := step.value.0], disk, i + 1);
      var all := ReprobeFrom(w, records, disk, i);
      if all.Ok? {
        GrownChains(records, records[i := step.value.0], all.value.0);
      }
    }
  }

  lemma ReprobeGrows(w: World, r: Record, disk: Disk)
    ensures ReprobeOne(w, r, disk).Ok? ==> r.history <= ReprobeOne(w, r, disk).value.0.history
  {
  }

  lemma GrownChains(a: seq<Record>, b: seq<Record>, c: seq<Record>)
    requires Grown(a, b) && Grown(b, c)
    ensures Grown(a, c)
  {
  }

  /** One use of the orchestrator, each with a world of its own. */
  datatype Session = NormalSession(w: World, budget: nat) | ReprobeSession(w: World)

  function After(session: Session, store: Store): (r: Store)
    ensures |r.records| == |store.records|
  {
    match session
    case NormalSession(w, budget) => Normal(w, store, budget).store
    case ReprobeSession(w) => Reprobe(w, store)
  }

  function AfterAll(sessions: seq<Session>, store: Store): (r: Store)
    ensures |r.records| == |store.records|
  {
    if |sessions| == 0 then store
    else After(sessions[|sessions| - 1], AfterAll(sessions[..|sessions| - 1], store))
  }

  lemma SessionKeepsSafe(session: Session, store: Store)
    requires AllSafe(store.records)
    ensures AllSafe(After(session, store).records) && Grown(store.records, After(session, store).records)
  {
    match session
    case NormalSession(w, budget) => SweepsKeepSafe(w, store, budget, 3);
    case ReprobeSession(w) => ReprobeFromKeepsSafe(w, store.records, store.disk, 0);
  }

  /** Every state file that sessions in any order can leave is safe, and histories only grow. */
  lemma {:induction false} AlwaysSafe(sessions: seq<Session>, store: Store)
    requires AllSafe(store.records)
    ensures AllSafe(AfterAll(sessions, store).records) && Grown(store.records, AfterAll(sessions, store).records)
  {
    if |sessions| > 0 {
      AlwaysSafe(sessions[..|sessions| - 1], store);
      SessionKeepsSafe(sessions[|sessions| - 1], AfterAll(sessions[..|sessions| - 1], store));
      hide After, AllSafe;
    }
  }

  /**
   Over a whole run: status is the last history entry, Stage 3 is preceded by a Stage 2
   pass, and a candidate that failed Stage 2 in any earlier state never reaches Stage 3
   or checkpoint 1, whatever sessions follow.
   */
  lemma PipelineSafety(earlier: seq<Session>, later: seq<Session>, start: Store, i: nat)
    requires AllSafe(start.records) && i < |start.records|
    ensures var past, now := AfterAll(earlier, start).records[i], AfterAll(later, AfterAll(earlier, start)).records[i];
      && now.history != [] && now.status == now.history[|now.history| - 1]
      && (forall k :: 0 <= k < |now.history| && now.history[k] == Stage3Done ==> Stage2Pass in now.history[..k])
      && (Stage2Fail in past.history ==>
            forall s :: s in now.history ==> s in {IdeaRegistered, Stage2Fail, PassOnReprobe})
  {
    AlwaysSafe(earlier, start);
    AlwaysSafe(later, AfterAll(earlier, start));
    NoStage3AfterFailure(AfterAll(later, AfterAll(earlier, start)).records[i]);
  }

  // ----- three sweeps finish

  function Rank(s: Status): nat {
    match s
    case IdeaRegistered => 3
    case Stage2Pass => 2
    case Stage3Done => 1
    case _ => 0
  }

  ghost predicate RankAtMost(records: seq<Record>, m: nat) {
    forall i :: 0 <= i < |records| ==> Rank(records[i].status) <= m
  }

  ghost predicate AllNoop(records: seq<Record>) {
    forall i :: 0 <= i < |records| ==> Noop(records[i].status)
  }

  /** A step that is not a no-op changes the record and lowers its rank. */
  lemma AdvanceLowersRank(w: World, r: Record, disk: Disk)
    ensures Noop(r.status) ==> Advance(w, r, disk).Ok?
    ensures var step := Advance(w, r, disk);
      step.Ok? ==>
        && (Noop(r.status) ==> step.value == (r, disk))
        && (!Noop(r.status) ==> step.value.0 != r && Rank(step.value.0.status) < Rank(r.status))
  {
    hide GateChecks, F.Evaluate, F.ToDict;
  }

  function Less(m: nat): nat {
    if m == 0 then 0 else m - 1
  }

  /** What a sweep with enough time does from candidate i on. */
  ghost predicate Lowered(before: seq<Record>, p: Progress, i: nat, left: nat, changed: bool)
    requires i <= |before| == |p.store.records|
  {
    && p.left + (|before| - i) == left
    && (forall k :: 0 <= k < i ==> p.store.records[k] == before[k])
    && (forall k :: i <= k < |before| ==> Rank(p.store.records[k].status) <= Less(Rank(before[k].status)))
    && (!p.changed ==> !changed && forall k :: i <= k < |before| ==> Noop(before[k].status) && p.store.records[k] == before[k])
  }

  lemma {:induction false} SweepLowers(w: World, store: Store, i: nat, left: nat, changed: bool)
    requires i <= |store.records| && left >= |store.records| - i
    ensures var p := Sweep(w, store, i, left, changed);
      !p.failed ==> Lowered(store.records, p, i, left, changed)
    decreases |store.records| - i
  {
    hide Advance, Sweep, Rank, Noop, Lowered;
    SweepUnfolds(w, store, i, left, changed);
    if i < |store.records| && Advance(w, store.records[i], store.disk).Ok? {
      var step := Advance(w, store.records[i], store.disk);
      AdvanceLowersRank(w, store.records[i], store.disk);
      SweepLowers(w, Store(store.records[i := step.value.0], step.value.1), i + 1, left - 1,
                  changed || step.value.0 != store.records[i]);
      if !Sweep(w, store, i, left, changed).failed {
        LoweredStep(store.records, i, step.value.0, Sweep(w, store, i, left, changed), left, changed);
      }
    } else if i == |store.records| {
      LoweredEnd(store, left, changed);
    }
  }

  lemma LoweredEnd(store: Store, left: nat, changed: bool)
    ensures Lowered(store.records, Progress(store, left, changed, false), |store.records|, left, changed)
  {
  }

  lemma LoweredStep(before: seq<Record>, i: nat, r: Record, p: Progress, left: nat, changed: bool)
    requires i < |before| == |p.store.records| && left > 0
    requires Noop(before[i].status) ==> r == before[i]
    requires !Noop(before[i].status) ==> r != before[i] && Rank(r.status) < Rank(before[i].status)
    requires Lowered(before[i := r], p, i + 1, left - 1, changed || r != before[i])
    ensures Lowered(before, p, i, left, changed)
  {
    var next := before[i := r];
    forall k | i <= k < |before|
      ensures Rank(p.store.records[k].status) <= Less(Rank(before[k].status))
    {
      assert k > i ==> next[k] == before[k];
      assert p.store.records[i] == next[i] == r;
    }
    if !p.changed {
      forall k | i <= k < |before|
        ensures Noop(before[k].status) && p.store.records[k] == before[k]
      {
        assert k > i ==> next[k] == before[k];
        assert p.store.records[i] == next[i] == r;
      }
    }
  }

  /** The steps that n sweeps over a batch take. */
  function Need(n: nat, candidates: nat): nat {
    if n == 0 then 0 else candidates + Need(n - 1, candidates)
  }

  lemma {:induction false} SweepsFinish(w: World, store: Store, left: nat, n: nat)
    requires RankAtMost(store.records, n) && left >= Need(n, |store.records|)
    ensures var p := Sweeps(w, store, left, n);
      !p.failed ==> AllNoop(p.store.records)
    decreases n
  {
    hide Sweep, Sweeps, Lowered, RankAtMost, AllNoop;
    SweepsUnfolds(w, store, left, n);
    if n > 0 {
      SweepLowers(w, store, 0, left, false);
      var p := Sweep(w, store, 0, left, false);
      if !p.failed {
        LoweredMeans(store, p, left, n);
        if p.changed {
          SweepsFinish(w, p.store, p.left, n - 1);
        }
      }
    } else {
      NothingRanked(store.records);
    }
  }

  lemma LoweredMeans(store: Store, p: Progress, left: nat, n: nat)
    requires |p.store.records| == |store.records| && Lowered(store.records, p, 0, left, false)
    requires n > 0 && RankAtMost(store.records, n)
    ensures RankAtMost(p.store.records, n - 1) && p.left + |store.records| == left
    ensures !p.changed ==> AllNoop(p.store.records)
  {
    forall k | 0 <= k < |store.records|
      ensures Rank(p.store.records[k].status) <= n - 1
    {
      assert Rank(p.store.records[k].status) <= Less(Rank(store.records[k].status));
    }
  }

  lemma NothingRanked(records: seq<Record>)
    requires RankAtMost(records, 0)
    ensures AllNoop(records)
  {
  }

  /** Within the budget and without exceptions one session leaves every candidate in a no-op status. */
  lemma ThreeSweepsSuffice(w: World, store: Store, budget: nat)
    requires budget >= 3 * |store.records| && !Normal(w, store, budget).failed
    ensures AllNoop(Normal(w, store, budget).store.records)
  {
    assert Need(3, |store.records|) == 3 * |store.records| by {
      assert Need(1, |store.records|) == |store.records|;
      assert Need(2, |store.records|) == 2 * |store.records|;
    }
    SweepsFinish(w, store, budget, 3);
  }

  // ----- stop and resume

  /** A directory belongs to one identity. */
  ghost predicate DirsDetermine(records: seq<Record>) {
    forall i, j :: 0 <= i < |records| && 0 <= j < |records| && records[i].who.dir == records[j].who.dir ==>
      records[i].who == records[j].who
  }

  /** The summary on disk is the one this candidate's runner gives. */
  ghost predicate OwnSummary(w: World, r: Record, disk: Disk) {
    r.status == Stage3Done ==>
      && w.runner(r.who).Ok?
      && Path(r.who.dir, SummaryJson) in disk
      && disk[Path(r.who.dir, SummaryJson)] == SummaryFile(w.runner(r.who).value)
  }

  ghost predicate FilesAgree(w: World, store: Store) {
    forall i :: 0 <= i < |store.records| ==> OwnSummary(w, store.records[i], store.disk)
  }

  function OwnDisk(w: World, r: Record): Disk {
    if w.runner(r.who).Ok? then map[Path(r.who.dir, SummaryJson) := SummaryFile(w.runner(r.who).value)] else map[]
  }

  /** The step of a candidate that is alone in the batch. */
  function Solo(w: World, r: Record): Result<Record, string> {
    var step := Advance(w, r, OwnDisk(w, r));
    if step.Ok? then Ok(step.value.0) else Err(step.error)
  }

  function SoloTimes(w: World, r: Record, k: nat): Result<Record, string> {
    if k == 0 then Ok(r)
    else
      var before := SoloTimes(w, r, k - 1);
      if before.Err? then before else Solo(w, before.value)
  }

  ghost predicate OnOrbit(w: World, start: Record, r: Record) {
    exists k: nat :: SoloTimes(w, start, k) == Ok(r)
  }

  /** In a batch with its own files, a candidate steps as if alone. */
  lemma AdvanceIsSolo(w: World, r: Record, disk: Disk)
    requires Safe(r) && OwnSummary(w, r, disk)
    ensures Advance(w, r, disk).Ok? <==> Solo(w, r).Ok?
    ensures Advance(w, r, disk).Ok? ==> Advance(w, r, disk).value.0 == Solo(w, r).value
  {
    if r.status == Stage3Done {
      assert r.history[|r.history| - 1] in r.history;
    }
    hide GateChecks, F.Evaluate, F.ToDict;
  }

  /** A step writes only in the candidate's own directory, and a summary only as its runner gives it. */
  lemma AdvanceWritesOwn(w: World, r: Record, disk: Disk, other: Record)
    requires Advance(w, r, disk).Ok?
    requires other.who.dir == r.who.dir ==> other.who == r.who
    requires OwnSummary(w, other, disk)
    ensures OwnSummary(w, other, Advance(w, r, disk).value.1)
    ensures Safe(r) ==> OwnSummary(w, Advance(w, r, disk).value.0, Advance(w, r, disk).value.1)
  {
    hide GateChecks, F.Evaluate, F.ToDict;
    if Noop(r.status) {
    }
  }

  /** What the store keeps in step with: each candidate on its own orbit, each summary its own. */
  ghost predicate InStep(w: World, start: seq<Record>, store: Store) {
    && |start| == |store.records|
    && AllSafe(store.records) && DirsDetermine(store.records) && FilesAgree(w, store)
    && forall i :: 0 <= i < |start| ==> OnOrbit(w, start[i], store.records[i])
  }

  lemma StepKeepsInStep(w: World, start: seq<Record>, store: Store, i: nat)
    requires InStep(w, start, store) && i < |store.records|
    ensures var step := Advance(w, store.records[i], store.disk);
      && (step.Ok? <==> Solo(w, store.records[i]).Ok?)
      && (step.Ok? ==> InStep(w, start, Store(store.records[i := step.value.0], step.value.1)))
  {
    var r := store.records[i];
    AdvanceIsSolo(w, r, store.disk);
    AdvanceKeepsSafe(w, r, store.disk);
    if Advance(w, r, store.disk).Ok? {
      var (next, disk) := Advance(w, r, store.disk).value;
      forall j | 0 <= j < |start|
        ensures OwnSummary(w, store.records[j], disk) && OwnSummary(w, next, disk)
      {
        AdvanceWritesOwn(w, r, store.disk, store.records[j]);
      }
      OrbitStep(w, start[i], r);
      hide Advance, Safe, OwnSummary, OnOrbit, Solo;
      var records := store.records[i := next];
      assert forall j :: 0 <= j < |records| ==> records[j].who == store.records[j].who;
      assert DirsDetermine(records);
    }
  }

  lemma OrbitStep(w: World, start: Record, r: Record)
    requires OnOrbit(w, start, r) && Solo(w, r).Ok?
    ensures OnOrbit(w, start, Solo(w, r).value)
  {
    var k: nat :| SoloTimes(w, start, k) == Ok(r);
    assert SoloTimes(w, start, k + 1) == Solo(w, r);
  }

  lemma {:induction false} SweepKeepsInStep(w: World, start: seq<Record>, store: Store, i: nat, left: nat, changed: bool)
    requires InStep(w, start, store) && i <= |store.records|
    ensures InStep(w, start, Sweep(w, store, i, left, changed).store)
    decreases |store.records| - i
  {
    hide Advance, InStep, Sweep, Solo;
    SweepUnfolds(w, store, i, left, changed);
    if i < |store.records| && left > 0 && Advance(w, store.records[i], store.disk).Ok? {
      StepKeepsInStep(w, start, store, i);
      var step := Advance(w, store.records[i], store.disk);
      SweepKeepsInStep(w, start, Store(store.records[i := step.value.0], step.value.1), i + 1, left - 1,
                       changed || step.value.0 != store.records[i]);
    }
  }

  lemma {:induction false} SweepsKeepInStep(w: World, start: seq<Record>, store: Store, left: nat, n: nat)
    requires InStep(w, start, store)
    ensures InStep(w, start, Sweeps(w, store, left, n).store)
    decreases n
  {
    hide InStep, Sweep, Sweeps;
    SweepsUnfolds(w, store, left, n);
    if n > 0 {
      SweepKeepsInStep(w, start, store, 0, left, false);
      var p := Sweep(w, store, 0, left, false);
      SweepsKeepInStep(w, start, p.store, p.left, n - 1);
    }
  }

  /** How a session ends: its budget, and a candidate whose next step was cut off between its file and the state file. */
  datatype Stop = Stop(budget: nat, torn: Option<nat>)

  /** The files are one step ahead of the records. */
  function Torn(w: World, store: Store, torn: Option<nat>): (r: Store)
    ensures r.records == store.records
  {
    if torn.Some? && torn.value < |store.records| && Advance(w, store.records[torn.value], store.disk).Ok?
    then Store(store.records, Advance(w, store.records[torn.value], store.disk).value.1)
    else store
  }

  /** Normal sessions over the persisted state, each stopped by its budget or by a crash. */
  function Resumed(w: World, store: Store, stops: seq<Stop>): (r: Store)
    ensures |r.records| == |store.records|
  {
    if |stops| == 0 then store
    else
      var stop := stops[|stops| - 1];
      Torn(w, Normal(w, Resumed(w, store, stops[..|stops| - 1]), stop.budget).store, stop.torn)
  }

  lemma TornKeepsInStep(w: World, start: seq<Record>, store: Store, torn: Option<nat>)
    requires InStep(w, start, store)
    ensures InStep(w, start, Torn(w, store, torn))
  {
    if torn.Some? && torn.value < |store.records| && Advance(w, store.records[torn.value], store.disk).Ok? {
      forall j | 0 <= j < |store.records|
        ensures OwnSummary(w, store.records[j], Advance(w, store.records[torn.value], store.disk).value.1)
      {
        AdvanceWritesOwn(w, store.records[torn.value], store.disk, store.records[j]);
      }
      hide Advance, OwnSummary, OnOrbit, Safe;
    }
  }

  lemma {:induction false} ResumedInStep(w: World, start: seq<Record>, store: Store, stops: seq<Stop>)
    requires InStep(w, start, store)
    ensures InStep(w, start, Resumed(w, store, stops))
  {
    hide InStep, Torn, Normal;
    if |stops| > 0 {
      var stop := stops[|stops| - 1];
      ResumedInStep(w, start, store, stops[..|stops| - 1]);
      NormalKeepsInStep(w, start, Resumed(w, store, stops[..|stops| - 1]), stop.budget);
      TornKeepsInStep(w, start, Normal(w, Resumed(w, store, stops[..|stops| - 1]), stop.budget).store, stop.torn);
    }
  }

  lemma NormalKeepsInStep(w: World, start: seq<Record>, store: Store, budget: nat)
    requires InStep(w, start, store)
    ensures InStep(w, start, Normal(w, store, budget).store)
  {
    hide InStep;
    SweepsKeepInStep(w, start, store, budget, 3);
  }

  /** Beyond a no-op nothing moves. */
  lemma {:induction false} OrbitStops(w: World, start: Record, k: nat, m: nat)
    requires k <= m && SoloTimes(w, start, k).Ok? && Noop(SoloTimes(w, start, k).value.status)
    ensures SoloTimes(w, start, m) == SoloTimes(w, start, k)
    decreases m
  {
    hide Solo;
    if k < m {
      OrbitStops(w, start, k, m - 1);
      SoloStops(w, SoloTimes(w, start, k).value);
    }
  }

  lemma SoloStops(w: World, r: Record)
    requires Noop(r.status)
    ensures Solo(w, r) == Ok(r)
  {
    AdvanceLowersRank(w, r, OwnDisk(w, r));
    hide Advance;
    assert Advance(w, r, OwnDisk(w, r)).Ok?;
  }

  lemma {:induction false} OrbitPrefix(w: World, start: Record, k: nat, m: nat)
    requires k <= m && SoloTimes(w, start, m).Ok?
    ensures SoloTimes(w, start, k).Ok?
    decreases m
  {
    hide Solo;
    if k < m {
      OrbitPrefix(w, start, k, m - 1);
    }
  }

  /** An orbit has one end, and no exception before it. */
  lemma OrbitEnd(w: World, start: Record, end: Record, r: Record)
    requires OnOrbit(w, start, end) && OnOrbit(w, start, r) && Noop(end.status)
    ensures Noop(r.status) ==> r == end
    ensures Solo(w, r).Ok?
  {
    hide Solo, SoloTimes;
    var m: nat :| SoloTimes(w, start, m) == Ok(end);
    var k: nat :| SoloTimes(w, start, k) == Ok(r);
    SoloNext(w, start, k);
    if k < m {
      OrbitPrefix(w, start, k + 1, m);
      if Noop(r.status) {
        OrbitStops(w, start, k, m);
      }
    } else {
      OrbitStops(w, start, m, k);
      OrbitStops(w, start, m, k + 1);
    }
  }

  lemma SoloNext(w: World, start: Record, k: nat)
    requires SoloTimes(w, start, k).Ok?
    ensures SoloTimes(w, start, k + 1) == Solo(w, SoloTimes(w, start, k).value)
  {
  }

  /** Two finished stores in step with the same start have the same records. */
  lemma FinishedAlike(w: World, start: seq<Record>, a: Store, b: Store)
    requires InStep(w, start, a) && InStep(w, start, b) && AllNoop(a.records) && AllNoop(b.records)
    ensures a.records == b.records
  {
    forall i | 0 <= i < |start|
      ensures a.records[i] == b.records[i]
    {
      OrbitEnd(w, start[i], a.records[i], b.records[i]);
    }
  }

  lemma NextStepSucceeds(w: World, start: seq<Record>, done: Store, store: Store, i: nat)
    requires InStep(w, start, done) && AllNoop(done.records) && InStep(w, start, store) && i < |store.records|
    ensures Solo(w, store.records[i]).Ok?
  {
    OrbitEnd(w, start[i], done.records[i], store.records[i]);
  }

  /** Once some run finishes, no run in step with the same start meets an exception. */
  lemma {:induction false} SweepNeverFails(w: World, start: seq<Record>, done: Store, store: Store, i: nat, left: nat,
                                           changed: bool)
    requires InStep(w, start, done) && AllNoop(done.records) && InStep(w, start, store) && i <= |store.records|
    ensures !Sweep(w, store, i, left, changed).failed
    decreases |store.records| - i
  {
    hide Advance, InStep, Sweep, AllNoop, Solo;
    SweepUnfolds(w, store, i, left, changed);
    if i < |store.records| && left > 0 {
      NextStepSucceeds(w, start, done, store, i);
      StepKeepsInStep(w, start, store, i);
      var step := Advance(w, store.records[i], store.disk);
      SweepNeverFails(w, start, done, Store(store.records[i := step.value.0], step.value.1), i + 1, left - 1,
                      changed || step.value.0 != store.records[i]);
    }
  }

  lemma {:induction false} SweepsNeverFail(w: World, start: seq<Record>, done: Store, store: Store, left: nat, n: nat)
    requires InStep(w, start, done) && AllNoop(done.records) && InStep(w, start, store)
    ensures !Sweeps(w, store, left, n).failed
    decreases n
  {
    hide InStep, Sweep, Sweeps, AllNoop;
    SweepsUnfolds(w, store, left, n);
    if n > 0 {
      SweepNeverFails(w, start, done, store, 0, left, false);
      SweepKeepsInStep(w, start, store, 0, left, false);
      var p := Sweep(w, store, 0, left, false);
      SweepsNeverFail(w, start, done, p.store, p.left, n - 1);
    }
  }

  /** A batch as registered: nothing has happened yet. */
  ghost predicate JustRegistered(records: seq<Record>) {
    forall i :: 0 <= i < |records| ==> records[i].status == IdeaRegistered && Safe(records[i])
  }

  /** What registration returns is such a batch, and its directories determine its candidates when its ids have distinct ones. */
  lemma RegisteredBatch(ideas: seq<Idea>, hypotheses: map<string, string>, records: seq<Record>)
    requires |records| == |ideas|
    requires forall i :: 0 <= i < |ideas| ==> records[i] == Registered(ideas[i], HypothesisOf(ideas[i], hypotheses))
    ensures JustRegistered(records)
    ensures (forall i, j :: 0 <= i < j < |ideas| ==> DeriveDir(Strip(ideas[i].id)) != DeriveDir(Strip(ideas[j].id))) ==>
      DirsDetermine(records)
  {
    forall i | 0 <= i < |records|
      ensures records[i].status == IdeaRegistered && Safe(records[i])
      ensures records[i].who.dir == DeriveDir(Strip(ideas[i].id))
    {
      RegisteredSafe(ideas[i], HypothesisOf(ideas[i], hypotheses));
    }
    hide Safe, Registered, DeriveDir, Strip;
  }

  lemma RegisteredInStep(w: World, store: Store)
    requires JustRegistered(store.records) && DirsDetermine(store.records)
    ensures InStep(w, store.records, store)
  {
    forall i | 0 <= i < |store.records|
      ensures OnOrbit(w, store.records[i], store.records[i])
    {
      assert SoloTimes(w, store.records[i], 0) == Ok(store.records[i]);
    }
  }

  /**
   Resume: with deterministic probes and runners and a directory per identity, stopping
   and resuming any number of times, by budget or by a crash between a step's file and
   the state file, changes neither the final records nor whether the run meets an
   exception.
   */
  lemma ResumeMakesNoDifference(w: World, start: Store, stops: seq<Stop>, last: nat, full: nat)
    requires JustRegistered(start.records) && DirsDetermine(start.records)
    requires full >= 3 * |start.records| && last >= 3 * |start.records|
    requires !Normal(w, start, full).failed
    ensures var resumed := Normal(w, Resumed(w, start, stops), last);
      && !resumed.failed && AllNoop(resumed.store.records)
      && resumed.store.records == Normal(w, start, full).store.records
  {
    hide JustRegistered, DirsDetermine, Sweeps, InStep, AllNoop;
    RegisteredInStep(w, start);
    ResumedInStep(w, start.records, start, stops);
    var middle := Resumed(w, start, stops);
    SweepsKeepInStep(w, start.records, start, full, 3);
    SweepsKeepInStep(w, start.records, middle, last, 3);
    ThreeSweepsSuffice(w, start, full);
    SweepsNeverFail(w, start.records, Normal(w, start, full).store, middle, last, 3);
    ThreeSweepsSuffice(w, middle, last);
    FinishedAlike(w, start.records, Normal(w, start, full).store, Normal(w, middle, last).store);
  }

  // ----- the funnel

  function Count(records: seq<Record>, p: Record -> bool): nat {
    if |records| == 0 then 0
    else Count(records[..|records| - 1], p) + (if p(records[|records| - 1]) then 1 else 0)
  }

  function LatestIs(s: Status): Record -> bool {
    (r: Record) => Latest(r) == s
  }

  function Ever(s: Status): Record -> bool {
    (r: Record) => s in r.history
  }

  function EverPassedStage2(): Record -> bool {
    (r: Record) => Stage2Pass in r.history || PassOnReprobe in r.history
  }

  datatype Funnel = Funnel(selected: nat, stage2Pass: nat, stage2Fail: nat, stage3Done: nat, stage3Awaiting: nat,
                           checkpoint1Pass: nat, checkpoint1Fail: nat, checkpoint1NeedsHuman: nat, feedbackSpawned: nat)

  /** `_orchestrator_funnel_metrics`. */
  function FunnelMetrics(records: seq<Record>): Funnel {
    Funnel(|records|, Count(records, EverPassedStage2()), Count(records, LatestIs(Stage2Fail)),
           Count(records, Ever(Stage3Done)), Count(records, LatestIs(AwaitingStage3)),
           Count(records, LatestIs(Checkpoint1Pass)), Count(records, LatestIs(Checkpoint1Fail)),
           Count(records, LatestIs(Checkpoint1NeedsHuman)), Count(records, (r: Record) => r.feedbackSpawned))
  }

  /** Which of the funnel's classes one safe record is in. */
  lemma OneRecordFunnel(r: Record)
    requires Safe(r)
    ensures EverPassedStage2()(r) <==> r.status !in {IdeaRegistered, AwaitingStage2, Stage2Fail}
    ensures Ever(Stage3Done)(r) <==> r.status in {Stage3Done, Checkpoint1Pass, Checkpoint1Fail, Checkpoint1NeedsHuman}
    ensures Latest(r) == r.status
  {
    PathOfHistory(r.history);
    if r.status == Stage2Fail || r.status == PassOnReprobe {
      assert r.history[1] == Stage2Fail;
      NoStage3AfterFailure(r);
    }
    if r.status == PassOnReprobe {
      assert r.history[|r.history| - 1] == PassOnReprobe;
    }
    if |r.history| > 2 && r.history[2] == Stage3Done {
      assert Stage3Done in r.history;
    }
    if |r.history| > 1 && r.history[1] == Stage2Pass {
      assert Stage2Pass in r.history;
    }
  }

  /** The number of candidates in a status. */
  ghost function HowMany(records: seq<Record>, s: Status): nat {
    |set i: nat | i < |records| && records[i].status == s|
  }

  lemma {:induction false} CountIsSize(records: seq<Record>, p: Record -> bool, members: set<nat>)
    requires forall i: nat :: i in members <==> i < |records| && p(records[i])
    ensures Count(records, p) == |members|
  {
    if |records| > 0 {
      var n := |records| - 1;
      CountIsSize(records[..n], p, members - {n});
    } else {
      assert members == {};
    }
  }

  lemma LatestCounts(records: seq<Record>, s: Status)
    requires AllSafe(records)
    ensures Count(records, LatestIs(s)) == HowMany(records, s)
  {
    forall i: nat | i < |records|
      ensures LatestIs(s)(records[i]) <==> records[i].status == s
    {
      OneRecordFunnel(records[i]);
    }
    hide Safe;
    CountIsSize(records, LatestIs(s), set i: nat | i < |records| && records[i].status == s);
  }

  /** Each number of the funnel, from the statuses. */
  ghost predicate CountsStatuses(records: seq<Record>) {
    var f := FunnelMetrics(records);
    && f.selected == |records| && f.stage2Fail == HowMany(records, Stage2Fail)
    && f.checkpoint1Pass == HowMany(records, Checkpoint1Pass) && f.checkpoint1Fail == HowMany(records, Checkpoint1Fail)
    && f.checkpoint1NeedsHuman == HowMany(records, Checkpoint1NeedsHuman)
    && f.stage3Awaiting == HowMany(records, AwaitingStage3)
    && f.stage3Done == HowMany(records, Stage3Done) + f.checkpoint1Pass + f.checkpoint1Fail + f.checkpoint1NeedsHuman
    && f.stage2Pass == HowMany(records, Stage2Pass) + HowMany(records, PassOnReprobe) + f.stage3Awaiting + f.stage3Done
    && f.feedbackSpawned == |set i: nat | i < |records| && records[i].feedbackSpawned|
  }

  lemma FunnelCountsStatuses(records: seq<Record>)
    requires AllSafe(records)
    ensures CountsStatuses(records)
  {
    FunnelConserves(records);
    forall s: Status
      ensures Count(records, LatestIs(s)) == HowMany(records, s)
    {
      LatestCounts(records, s);
    }
    CountIsSize(records, (r: Record) => r.feedbackSpawned, set i: nat | i < |records| && records[i].feedbackSpawned);
    hide AllSafe, Count, HowMany, LatestIs, Ever, EverPassedStage2;
  }

  /** Nobody is lost or counted twice, at Stage 2 and at checkpoint 1. */
  ghost predicate Conserved(records: seq<Record>) {
    var f := FunnelMetrics(records);
    && f.selected == |records|
    && f.selected == Count(records, LatestIs(IdeaRegistered)) + Count(records, LatestIs(AwaitingStage2))
                     + f.stage2Pass + f.stage2Fail
    && f.stage2Pass == Count(records, LatestIs(PassOnReprobe)) + Count(records, LatestIs(Stage2Pass))
                       + f.stage3Awaiting + f.stage3Done
    && f.stage3Done == Count(records, LatestIs(Stage3Done)) + f.checkpoint1Pass + f.checkpoint1Fail
                       + f.checkpoint1NeedsHuman
  }

  lemma FunnelConserves(records: seq<Record>)
    requires AllSafe(records)
    ensures Conserved(records)
  {
    Stage2Conserves(records);
    Stage3Conserves(records);
    Checkpoint1Conserves(records);
  }

  ghost predicate Stage2Adds(records: seq<Record>) {
    |records| == Count(records, LatestIs(IdeaRegistered)) + Count(records, LatestIs(AwaitingStage2))
                 + Count(records, EverPassedStage2()) + Count(records, LatestIs(Stage2Fail))
  }

  ghost predicate Stage3Adds(records: seq<Record>) {
    Count(records, EverPassedStage2()) ==
    Count(records, LatestIs(PassOnReprobe)) + Count(records, LatestIs(Stage2Pass))
    + Count(records, LatestIs(AwaitingStage3)) + Count(records, Ever(Stage3Done))
  }

  ghost predicate Checkpoint1Adds(records: seq<Record>) {
    Count(records, Ever(Stage3Done)) ==
    Count(records, LatestIs(Stage3Done)) + Count(records, LatestIs(Checkpoint1Pass))
    + Count(records, LatestIs(Checkpoint1Fail)) + Count(records, LatestIs(Checkpoint1NeedsHuman))
  }

  lemma {:induction false} Stage2Conserves(records: seq<Record>)
    requires AllSafe(records)
    ensures Stage2Adds(records)
  {
    if |records| > 0 {
      assert AllSafe(records[..|records| - 1]) && Safe(records[|records| - 1]);
      hide Safe, Count, LatestIs, Ever, EverPassedStage2, AllSafe;
      Stage2Conserves(records[..|records| - 1]);
      OneRecordCounts(records);
    }
  }

  lemma {:induction false} Stage3Conserves(records: seq<Record>)
    requires AllSafe(records)
    ensures Stage3Adds(records)
  {
    if |records| > 0 {
      assert AllSafe(records[..|records| - 1]) && Safe(records[|records| - 1]);
      hide Safe, Count, LatestIs, Ever, EverPassedStage2, AllSafe;
      Stage3Conserves(records[..|records| - 1]);
      OneRecordCounts(records);
    }
  }

  lemma {:induction false} Checkpoint1Conserves(records: seq<Record>)
    requires AllSafe(records)
    ensures Checkpoint1Adds(records)
  {
    if |records| > 0 {
      assert AllSafe(records[..|records| - 1]) && Safe(records[|records| - 1]);
      hide Safe, Count, LatestIs, Ever, EverPassedStage2, AllSafe;
      Checkpoint1Conserves(records[..|records| - 1]);
      OneRecordCounts(records);
    }
  }

  /** How the last record adds to the counts. */
  lemma OneRecordCounts(records: seq<Record>)
    requires |records| > 0 && Safe(records[|records| - 1])
    ensures var rest, s := records[..|records| - 1], records[|records| - 1].status;
      && (forall t :: Count(records, LatestIs(t)) == Count(rest, LatestIs(t)) + if s == t then 1 else 0)
      && Count(records, EverPassedStage2()) ==
           Count(rest, EverPassedStage2()) + (if s in {IdeaRegistered, AwaitingStage2, Stage2Fail} then 0 else 1)
      && Count(records, Ever(Stage3Done)) == Count(rest, Ever(Stage3Done)) +
           (if s in {Stage3Done, Checkpoint1Pass, Checkpoint1Fail, Checkpoint1NeedsHuman} then 1 else 0)
  {
    OneRecordFunnel(records[|records| - 1]);
    hide Safe;
  }

  /** The funnel conserves candidates after any sessions from a registered batch. */
  lemma FunnelConservesAlways(sessions: seq<Session>, start: Store)
    requires JustRegistered(start.records)
    ensures Conserved(AfterAll(sessions, start).records) && CountsStatuses(AfterAll(sessions, start).records)
  {
    AlwaysSafe(sessions, start);
    FunnelConserves(AfterAll(sessions, start).records);
    FunnelCountsStatuses(AfterAll(sessions, start).records);
  }
}
