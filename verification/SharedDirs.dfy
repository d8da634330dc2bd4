/**
 Two candidates that share a directory overwrite each other's summary, so stopping and
 resuming can change the outcome: a directory per identity is not only enough for a
 repeatable batch but necessary.
 */
module SharedDirs {
  import opened Wrappers
  import opened Candidates
  import opened Orchestrator
  import opened OrchestratorRuns
  import F = Feasibility
  import C = Checkpoint1

  // ----- a world in which only one candidate deserves to pass

  const Passing: F.FeasibilityResult :=
    F.FeasibilityResult("b", "c", "d", "h", "f",
                        [F.Check("data_availability", F.Pass, "ok", map[]), F.Check("distinctness", F.Pass, "ok", map[]),
                         F.Check("cost_after_edge", F.Pass, "ok", map[])], F.SCHEMA_VERSION)

  function SummaryOf(good: bool): C.Summary {
    C.Summary("F", Some(1), Some(1), Some(good), Some(C.Finite(0.95)), Some(C.Finite(0.95)), Some(false), Some(true), None, Some(true),
              map["BTC" := C.NotARecord], None)
  }

  function OnlyGood(good: Identity): World {
    World((family: string) => true, (id: string) => true, (who: Identity) => Ok(Passing), (family: string) => true,
          (who: Identity) => Ok(SummaryOf(who == good)), [C.RegistryRow("F", 1, "", "", None)], (p: Path) => "")
  }

  lemma PassingPasses()
    ensures F.Evaluate(Passing) == F.Pass
  {
    assert F.DistinctNames(Passing.checks);
    F.PassMeans(Passing);
    assert F.RequiredChecks[0] == Passing.checks[0].name && F.RequiredChecks[1] == Passing.checks[1].name
           && F.RequiredChecks[2] == Passing.checks[2].name;
  }

  lemma GateOf(w: World, who: Identity, good: bool, at: Path)
    requires w == OnlyGood(who)
    ensures C.Evaluate(GateChecks(w, SummaryOf(good), at)) == if good then C.PASS else C.FAIL
  {
    var rows := w.registry;
    C.EverythingContainsNothing("");
    assert C.LastRow(rows, "F", "") == 0;
    assert rows[..1] == rows && C.Running(rows, "F") == 1;
    assert C.Expected(rows, "F", Some("")) == Some(1);
    var checks := GateChecks(w, SummaryOf(good), at);
    assert checks == C.Checks(SummaryOf(good), Some(1));
    if good {
      assert "BTC" in SummaryOf(good).ctValSources;
      C.PassMeans(SummaryOf(good), Some(1));
    } else {
      assert checks[1] == C.FAIL;
      assert C.FAIL in checks;
    }
  }

  // ----- one step in that world

  function SummaryAt(store: Store, dir: string): Option<File> {
    if Path(dir, SummaryJson) in store.disk then Some(store.disk[Path(dir, SummaryJson)]) else None
  }

  /** Stage 3 is done only where a summary can be read. */
  ghost predicate Ready(store: Store) {
    && AllSafe(store.records)
    && forall i :: 0 <= i < |store.records| && store.records[i].status == Stage3Done ==>
      exists good :: SummaryAt(store, store.records[i].who.dir) == Some(SummaryFile(SummaryOf(good)))
  }

  function Stepped(w: World, store: Store, k: nat): (r: Store)
    requires k < |store.records|
    ensures |r.records| == |store.records|
  {
    var step := Advance(w, store.records[k], store.disk);
    if step.Ok? then Store(store.records[k := step.value.0], step.value.1) else store
  }

  /** The status a step gives; good tells whether the summary read is the good one. */
  function NextStatus(s: Status, good: bool): Status {
    match s
    case IdeaRegistered => Stage2Pass
    case Stage2Pass => Stage3Done
    case Stage3Done => if good then Checkpoint1Pass else Checkpoint1Fail
    case _ => s
  }

  ghost predicate StepsTo(good: Identity, store: Store, k: nat, next: Store)
    requires k < |store.records| == |next.records|
  {
    var r := store.records[k];
    && next.records == store.records[k := next.records[k]]
    && next.records[k].who == r.who
    && (r.status != Stage3Done ==> next.records[k].status == NextStatus(r.status, true))
    && (Noop(r.status) ==> next.records[k] == r)
    && (forall ok :: r.status == Stage3Done && SummaryAt(store, r.who.dir) == Some(SummaryFile(SummaryOf(ok))) ==>
          next.records[k].status == NextStatus(Stage3Done, ok))
    && (forall dir :: SummaryAt(next, dir) ==
          if r.status == Stage2Pass && r.who.dir == dir then Some(SummaryFile(SummaryOf(r.who == good)))
          else SummaryAt(store, dir))
  }

  lemma SummariesDiffer()
    ensures SummaryOf(true) != SummaryOf(false)
  {
    assert SummaryOf(true).leakPassed != SummaryOf(false).leakPassed;
  }

  lemma StepSucceeds(good: Identity, store: Store, k: nat)
    requires Ready(store) && k < |store.records|
    ensures Advance(OnlyGood(good), store.records[k], store.disk).Ok?
    ensures StepsTo(good, store, k, Stepped(OnlyGood(good), store, k))
  {
    hide F.Evaluate, GateChecks, C.Evaluate, F.ToDict, SummaryOf;
    var r := store.records[k];
    assert Safe(r);
    SummariesDiffer();
    PassingPasses();
    if r.status == Stage3Done {
      var ok :| SummaryAt(store, r.who.dir) == Some(SummaryFile(SummaryOf(ok)));
      assert r.history[|r.history| - 1] in r.history;
      GateOf(OnlyGood(good), good, ok, r.summaryPath.value);
    }
    hide Safe;
  }

  lemma StepStaysReady(good: Identity, store: Store, k: nat)
    requires Ready(store) && k < |store.records|
    ensures Ready(Stepped(OnlyGood(good), store, k))
  {
    var next := Stepped(OnlyGood(good), store, k);
    StepSucceeds(good, store, k);
    AdvanceKeepsSafe(OnlyGood(good), store.records[k], store.disk);
    hide Advance, Safe, SummaryOf;
    forall i | 0 <= i < |next.records| && next.records[i].status == Stage3Done
      ensures exists ok :: SummaryAt(next, next.records[i].who.dir) == Some(SummaryFile(SummaryOf(ok)))
    {
      var dir := next.records[i].who.dir;
      if store.records[k].status == Stage2Pass && store.records[k].who.dir == dir {
        assert SummaryAt(next, dir) == Some(SummaryFile(SummaryOf(store.records[k].who == good)));
      } else {
        assert SummaryAt(next, dir) == SummaryAt(store, dir);
        assert i != k ==> next.records[i] == store.records[i];
      }
    }
  }

  // ----- a stretch of candidates stepped in turn

  function Block(w: World, store: Store, k: nat, e: nat): (r: Store)
    requires k <= e <= |store.records|
    ensures |r.records| == |store.records|
    decreases e
  {
    if k == e then store
    else Stepped(w, Block(w, store, k, e - 1), e - 1)
  }

  lemma {:induction false} BlockReady(good: Identity, store: Store, k: nat, e: nat)
    requires Ready(store) && k <= e <= |store.records|
    ensures Ready(Block(OnlyGood(good), store, k, e))
    decreases e
  {
    hide Ready, OnlyGood, Stepped;
    if k < e {
      BlockReady(good, store, k, e - 1);
      StepStaysReady(good, Block(OnlyGood(good), store, k, e - 1), e - 1);
    }
  }

  /** The last step of a block. */
  lemma BlockStep(good: Identity, store: Store, k: nat, e: nat)
    requires Ready(store) && k < e <= |store.records|
    ensures StepsTo(good, Block(OnlyGood(good), store, k, e - 1), e - 1, Block(OnlyGood(good), store, k, e))
  {
    hide Ready, OnlyGood, Stepped, StepsTo;
    BlockReady(good, store, k, e - 1);
    StepSucceeds(good, Block(OnlyGood(good), store, k, e - 1), e - 1);
  }

  lemma {:induction false} BlockJoins(w: World, store: Store, k: nat, m: nat, e: nat)
    requires k <= m <= e <= |store.records|
    ensures Block(w, store, k, e) == Block(w, Block(w, store, k, m), m, e)
    decreases e
  {
    if m < e {
      BlockJoins(w, store, k, m, e - 1);
    }
  }

  function Least(a: nat, b: nat): nat {
    if a < b then a else b
  }

  /** A sweep is the block that the time left allows. */
  lemma {:induction false} SweepIsBlock(good: Identity, store: Store, k: nat, left: nat, changed: bool)
    requires Ready(store) && k <= |store.records|
    ensures var p, e := Sweep(OnlyGood(good), store, k, left, changed), Least(|store.records|, k + left);
      && !p.failed && p.store == Block(OnlyGood(good), store, k, e) && p.left == left - (e - k)
      && (changed ==> p.changed)
      && (k < e && !Noop(store.records[k].status) ==> p.changed)
      && (k == e ==> p.changed == changed)
    decreases |store.records| - k
  {
    var w, n := OnlyGood(good), |store.records|;
    hide Ready, Advance, Sweep, StepsTo, OnlyGood, Block;
    SweepUnfolds(w, store, k, left, changed);
    BlockStarts(w, store, k);
    if k < n && left > 0 {
      StepSucceeds(good, store, k);
      StepStaysReady(good, store, k);
      AdvanceLowersRank(w, store.records[k], store.disk);
      BlockJoins(w, store, k, k + 1, Least(n, k + left));
      var step := Advance(w, store.records[k], store.disk);
      SweepIsBlock(good, Stepped(w, store, k), k + 1, left - 1, changed || step.value.0 != store.records[k]);
    }
  }

  lemma BlockStarts(w: World, store: Store, k: nat)
    requires k <= |store.records|
    ensures Block(w, store, k, k) == store
    ensures k < |store.records| ==> Block(w, store, k, k + 1) == Stepped(w, store, k)
  {
    if k < |store.records| {
      assert Block(w, store, k, k) == store;
    }
  }

  /** What a block leaves alone. */
  lemma {:induction false} BlockFrame(good: Identity, store: Store, k: nat, e: nat, i: nat)
    requires Ready(store) && k <= e <= |store.records| && i < |store.records|
    ensures var b := Block(OnlyGood(good), store, k, e);
      && b.records[i].who == store.records[i].who
      && (i < k || e <= i || Noop(store.records[i].status) ==> b.records[i] == store.records[i])
    decreases e
  {
    hide Ready, Stepped, OnlyGood, SummaryOf, SummaryAt;
    if k < e {
      BlockFrame(good, store, k, e - 1, i);
      BlockStep(good, store, k, e);
    }
  }

  ghost predicate AllAt(records: seq<Record>, k: nat, e: nat, s: Status)
    requires k <= e <= |records|
  {
    forall i :: k <= i < e ==> records[i].status == s
  }

  /** A block of candidates at the same early status moves them on together. */
  lemma {:induction false} BlockMoves(good: Identity, store: Store, k: nat, e: nat, s: Status)
    requires Ready(store) && k <= e <= |store.records| && AllAt(store.records, k, e, s)
    requires s == IdeaRegistered || s == Stage2Pass
    ensures AllAt(Block(OnlyGood(good), store, k, e).records, k, e, NextStatus(s, true))
    decreases e
  {
    hide Ready, Stepped, OnlyGood, SummaryOf, SummaryAt;
    if k < e {
      BlockMoves(good, store, k, e - 1, s);
      BlockFrame(good, store, k, e - 1, e - 1);
      BlockStep(good, store, k, e);
    }
  }

  /** Nobody in the block writes the directory's summary. */
  ghost predicate NoWriter(records: seq<Record>, k: nat, e: nat, dir: string)
    requires k <= e <= |records|
  {
    forall i :: k <= i < e ==> records[i].status != Stage2Pass || records[i].who.dir != dir
  }

  lemma {:induction false} BlockKeepsSummary(good: Identity, store: Store, k: nat, e: nat, dir: string)
    requires Ready(store) && k <= e <= |store.records| && NoWriter(store.records, k, e, dir)
    ensures SummaryAt(Block(OnlyGood(good), store, k, e), dir) == SummaryAt(store, dir)
    decreases e
  {
    hide Ready, Stepped, OnlyGood, SummaryOf, SummaryAt;
    if k < e {
      BlockKeepsSummary(good, store, k, e - 1, dir);
      BlockFrame(good, store, k, e - 1, e - 1);
      BlockStep(good, store, k, e);
    }
  }

  /** The last writer's summary stays. */
  lemma BlockLastWriter(good: Identity, store: Store, k: nat, e: nat, q: nat)
    requires Ready(store) && k <= q < e <= |store.records| && store.records[q].status == Stage2Pass
    requires NoWriter(store.records, q + 1, e, store.records[q].who.dir)
    ensures SummaryAt(Block(OnlyGood(good), store, k, e), store.records[q].who.dir) ==
      Some(SummaryFile(SummaryOf(store.records[q].who == good)))
  {
    var w, dir := OnlyGood(good), store.records[q].who.dir;
    BlockJoins(w, store, k, q, e);
    BlockJoins(w, store, k, q, q + 1);
    BlockJoins(w, store, k, q + 1, e);
    BlockReady(good, store, k, q);
    BlockReady(good, store, k, q + 1);
    BlockFrame(good, store, k, q, q);
    var before := Block(w, store, k, q);
    StepSucceeds(good, before, q);
    var after := Block(w, store, k, q + 1);
    forall i | q + 1 <= i < e
      ensures after.records[i] == store.records[i]
    {
      BlockFrame(good, store, k, q + 1, i);
    }
    assert NoWriter(after.records, q + 1, e, dir);
    BlockKeepsSummary(good, after, q + 1, e, dir);
    hide Ready, Advance;
    assert after == Stepped(w, before, q);
  }

  /** A candidate whose summary nobody before it in the block overwrites is judged by that summary. */
  lemma BlockJudges(good: Identity, store: Store, k: nat, e: nat, i: nat, ok: bool)
    requires Ready(store) && k <= i < e <= |store.records| && store.records[i].status == Stage3Done
    requires NoWriter(store.records, k, i, store.records[i].who.dir)
    requires SummaryAt(store, store.records[i].who.dir) == Some(SummaryFile(SummaryOf(ok)))
    ensures Block(OnlyGood(good), store, k, e).records[i].status == NextStatus(Stage3Done, ok)
  {
    var w := OnlyGood(good);
    BlockJoins(w, store, k, i + 1, e);
    BlockReady(good, store, k, i);
    BlockReady(good, store, k, i + 1);
    BlockFrame(good, store, k, i, i);
    BlockKeepsSummary(good, store, k, i, store.records[i].who.dir);
    var before := Block(w, store, k, i);
    StepSucceeds(good, before, i);
    var after := Block(w, store, k, i + 1);
    assert after == Stepped(w, before, i);
    BlockFrame(good, after, i + 1, e, i);
  }

  // ----- the two runs

  /** The last candidate with the directory. */
  ghost predicate LastWith(records: seq<Record>, m: nat, dir: string) {
    && m < |records| && records[m].who.dir == dir
    && forall i :: m < i < |records| ==> records[i].who.dir != dir
  }

  lemma {:induction false} LastExists(records: seq<Record>, i: nat, dir: string) returns (m: nat)
    requires i < |records| && records[i].who.dir == dir
    ensures i <= m && LastWith(records, m, dir)
    decreases |records| - i
  {
    m := i;
    if j :| i < j < |records| && records[j].who.dir == dir {
      m := LastExists(records, j, dir);
    }
  }

  lemma RegisteredReady(store: Store)
    requires JustRegistered(store.records)
    ensures Ready(store) && AllAt(store.records, 0, |store.records|, IdeaRegistered)
  {
  }

  function Pass(w: World, store: Store): (r: Store)
    ensures |r.records| == |store.records|
  {
    Block(w, store, 0, |store.records|)
  }

  /** A sweep with enough time over a batch whose first candidate still has something to do. */
  lemma SweepsStart(good: Identity, store: Store, left: nat, n: nat)
    requires Ready(store) && left >= |store.records| > 0 && n > 0 && !Noop(store.records[0].status)
    ensures Ready(Pass(OnlyGood(good), store))
    ensures Sweeps(OnlyGood(good), store, left, n) ==
      Sweeps(OnlyGood(good), Pass(OnlyGood(good), store), left - |store.records|, n - 1)
  {
    hide Ready, OnlyGood, Sweep, Sweeps, Noop, Block;
    SweepsUnfolds(OnlyGood(good), store, left, n);
    SweepIsBlock(good, store, 0, left, false);
    BlockReady(good, store, 0, |store.records|);
  }

  lemma SweepsEnd(good: Identity, store: Store, left: nat)
    requires Ready(store) && left >= |store.records|
    ensures Sweeps(OnlyGood(good), store, left, 1).store == Pass(OnlyGood(good), store)
    ensures !Sweeps(OnlyGood(good), store, left, 1).failed
  {
    hide Ready, OnlyGood, Sweep, Sweeps, Noop, Block;
    SweepsUnfolds(OnlyGood(good), store, left, 1);
    SweepIsBlock(good, store, 0, left, false);
    var p := Sweep(OnlyGood(good), store, 0, left, false);
    SweepsUnfolds(OnlyGood(good), p.store, p.left, 0);
  }

  lemma SameWho(good: Identity, store: Store, k: nat, e: nat)
    requires Ready(store) && k <= e <= |store.records|
    ensures forall i :: 0 <= i < |store.records| ==>
      Block(OnlyGood(good), store, k, e).records[i].who == store.records[i].who
    ensures forall i :: 0 <= i < |store.records| && (i < k || e <= i) ==>
      Block(OnlyGood(good), store, k, e).records[i] == store.records[i]
  {
    forall i | 0 <= i < |store.records|
      ensures Block(OnlyGood(good), store, k, e).records[i].who == store.records[i].who
      ensures i < k || e <= i ==> Block(OnlyGood(good), store, k, e).records[i] == store.records[i]
    {
      BlockFrame(good, store, k, e, i);
    }
  }

  lemma FirstPass(start: Store, good: Identity)
    requires JustRegistered(start.records) && |start.records| > 0
    ensures Ready(start) && !Noop(start.records[0].status)
    ensures AllAt(Pass(OnlyGood(good), start).records, 0, |start.records|, Stage2Pass)
    ensures !Noop(Pass(OnlyGood(good), start).records[0].status)
    ensures forall i :: 0 <= i < |start.records| ==> Pass(OnlyGood(good), start).records[i].who == start.records[i].who
  {
    hide OnlyGood, Block, Ready;
    RegisteredReady(start);
    BlockMoves(good, start, 0, |start.records|, IdeaRegistered);
    SameWho(good, start, 0, |start.records|);
  }

  /** The last candidate of the directory writes the summary. */
  lemma SecondPass(store: Store, good: Identity, m: nat)
    requires Ready(store) && AllAt(store.records, 0, |store.records|, Stage2Pass)
    requires m < |store.records| && LastWith(store.records, m, store.records[m].who.dir) && store.records[m].who != good
    ensures var t := Pass(OnlyGood(good), store);
      && AllAt(t.records, 0, |t.records|, Stage3Done) && !Noop(t.records[0].status)
      && SummaryAt(t, store.records[m].who.dir) == Some(SummaryFile(SummaryOf(false)))
      && forall i :: 0 <= i < |store.records| ==> t.records[i].who == store.records[i].who
  {
    hide OnlyGood, Block, Ready, SummaryOf, SummaryAt;
    BlockMoves(good, store, 0, |store.records|, Stage2Pass);
    BlockLastWriter(good, store, 0, |store.records|, m);
    SameWho(good, store, 0, |store.records|);
  }

  lemma ThirdPass(store: Store, good: Identity, i: nat, k: nat, ok: bool)
    requires Ready(store) && i < k <= |store.records| && AllAt(store.records, 0, k, Stage3Done)
    requires SummaryAt(store, store.records[i].who.dir) == Some(SummaryFile(SummaryOf(ok)))
    ensures Pass(OnlyGood(good), store).records[i].status == NextStatus(Stage3Done, ok)
  {
    hide OnlyGood, Block, Ready, SummaryOf, SummaryAt;
    BlockJudges(good, store, 0, |store.records|, i, ok);
  }

  /** After n more sweeps candidate i ends with the status. */
  ghost predicate Ends(w: World, store: Store, left: nat, n: nat, i: nat, s: Status) {
    && i < |store.records|
    && !Sweeps(w, store, left, n).failed && Sweeps(w, store, left, n).store.records[i].status == s
  }

  lemma EndsEarlier(good: Identity, store: Store, left: nat, n: nat, i: nat, s: Status)
    requires Ready(store) && left >= |store.records| > 0 && n > 0 && !Noop(store.records[0].status)
    requires Ends(OnlyGood(good), Pass(OnlyGood(good), store), left - |store.records|, n - 1, i, s)
    ensures Ends(OnlyGood(good), store, left, n, i, s)
  {
    hide Ready, OnlyGood, Sweeps, Pass, Noop;
    SweepsStart(good, store, left, n);
  }

  lemma EndsHere(good: Identity, store: Store, left: nat, i: nat, s: Status)
    requires Ready(store) && left >= |store.records| > i && Pass(OnlyGood(good), store).records[i].status == s
    ensures Ends(OnlyGood(good), store, left, 1, i, s)
  {
    hide Ready, OnlyGood, Sweeps, Pass;
    SweepsEnd(good, store, left);
  }

  lemma PassReady(store: Store, good: Identity)
    requires Ready(store)
    ensures Ready(Pass(OnlyGood(good), store))
  {
    hide Ready, OnlyGood, Block;
    BlockReady(good, store, 0, |store.records|);
  }

  lemma FailsFromStage2(store: Store, good: Identity, i: nat, m: nat, left: nat)
    requires Ready(store) && i < |store.records| && left >= |store.records| + |store.records|
    requires AllAt(store.records, 0, |store.records|, Stage2Pass) && !Noop(store.records[0].status)
    requires m < |store.records| && store.records[m].who.dir == store.records[i].who.dir && store.records[m].who != good
    requires LastWith(store.records, m, store.records[m].who.dir)
    ensures Ends(OnlyGood(good), store, left, 2, i, Checkpoint1Fail)
  {
    hide Ready, OnlyGood, Pass, SummaryOf, SummaryAt, AllAt, Noop, LastWith, Ends;
    SecondPass(store, good, m);
    PassReady(store, good);
    var t := Pass(OnlyGood(good), store);
    ThirdPass(t, good, i, |t.records|, false);
    EndsHere(good, t, left - |store.records|, i, Checkpoint1Fail);
    EndsEarlier(good, store, left, 2, i, Checkpoint1Fail);
  }

  /** Without a stop, candidate i is judged by the summary of the last candidate of its directory. */
  lemma UninterruptedFails(start: Store, i: nat, m: nat, good: Identity, full: nat)
    requires JustRegistered(start.records) && i < |start.records| && full >= 3 * |start.records|
    requires LastWith(start.records, m, start.records[i].who.dir) && m < |start.records|
    requires start.records[m].who.dir == start.records[i].who.dir && start.records[m].who != good
    ensures Ends(OnlyGood(good), start, full, 3, i, Checkpoint1Fail)
  {
    hide Ready, OnlyGood, Pass, AllAt, Noop, JustRegistered, LastWith, Ends;
    FirstPass(start, good);
    PassReady(start, good);
    var s := Pass(OnlyGood(good), start);
    SameLast(start.records, s.records, m, start.records[i].who.dir);
    FailsFromStage2(s, good, i, m, full - |start.records|);
    EndsEarlier(good, start, full, 3, i, Checkpoint1Fail);
  }

  lemma SameLast(records: seq<Record>, later: seq<Record>, m: nat, dir: string)
    requires LastWith(records, m, dir) && |later| == |records|
    requires forall i :: 0 <= i < |records| ==> later[i].who == records[i].who
    ensures LastWith(later, m, dir)
  {
  }

  /** Stopped after candidate i's first step: the next session does its Stage 3 before the others'. */
  lemma FirstSession(start: Store, i: nat, good: Identity)
    requires Ready(start) && i < |start.records|
    ensures Normal(OnlyGood(good), start, i + 1).store == Block(OnlyGood(good), start, 0, i + 1)
  {
    var w := OnlyGood(good);
    hide Ready, OnlyGood, Sweep, Sweeps, Block, Noop;
    SweepIsBlock(good, start, 0, i + 1, false);
    var p := Sweep(w, start, 0, i + 1, false);
    SweepsUnfolds(w, start, i + 1, 3);
    if p.changed {
      SweepsUnfolds(w, p.store, 0, 2);
      SweepUnfolds(w, p.store, 0, 0, false);
    }
  }

  lemma FirstSessionMoves(start: Store, i: nat, good: Identity)
    requires JustRegistered(start.records) && i < |start.records|
    ensures var s := Block(OnlyGood(good), start, 0, i + 1);
      && AllAt(s.records, 0, i + 1, Stage2Pass) && AllAt(s.records, i + 1, |s.records|, IdeaRegistered)
      && !Noop(s.records[0].status)
      && forall j :: 0 <= j < |s.records| ==> s.records[j].who == start.records[j].who
  {
    RegisteredReady(start);
    hide Ready, OnlyGood, Block, JustRegistered;
    BlockMoves(good, start, 0, i + 1, IdeaRegistered);
    SameWho(good, start, 0, i + 1);
  }

  /** The second session's first sweep leaves candidate i's own summary in the directory. */
  lemma SecondSessionFirstSweep(s: Store, i: nat, good: Identity)
    requires Ready(s) && i < |s.records| && s.records[i].who == good
    requires AllAt(s.records, 0, i + 1, Stage2Pass) && AllAt(s.records, i + 1, |s.records|, IdeaRegistered)
    ensures var t := Pass(OnlyGood(good), s);
      && AllAt(t.records, 0, i + 1, Stage3Done) && t.records[i].who == s.records[i].who && !Noop(t.records[0].status)
      && SummaryAt(t, good.dir) == Some(SummaryFile(SummaryOf(true)))
  {
    var n := |s.records|;
    var w := OnlyGood(good);
    hide Ready, OnlyGood, Block, SummaryOf, SummaryAt;
    BlockJoins(w, s, 0, i + 1, n);
    BlockReady(good, s, 0, i + 1);
    BlockMoves(good, s, 0, i + 1, Stage2Pass);
    BlockLastWriter(good, s, 0, i + 1, i);
    SameWho(good, s, 0, i + 1);
    var x := Block(w, s, 0, i + 1);
    BlockKeepsSummary(good, x, i + 1, n, good.dir);
    SameWho(good, x, i + 1, n);
  }

  lemma JudgedStays(store: Store, good: Identity, i: nat)
    requires Ready(store) && i < |store.records| && store.records[i].status == Checkpoint1Pass
    ensures Pass(OnlyGood(good), store).records[i].status == Checkpoint1Pass
  {
    hide Ready, OnlyGood;
    BlockFrame(good, store, 0, |store.records|, i);
  }

  lemma PassesFromStage3(store: Store, good: Identity, i: nat, left: nat)
    requires Ready(store) && i < |store.records| && left >= |store.records| + |store.records|
    requires AllAt(store.records, 0, i + 1, Stage3Done) && !Noop(store.records[0].status)
    requires SummaryAt(store, store.records[i].who.dir) == Some(SummaryFile(SummaryOf(true)))
    ensures Ends(OnlyGood(good), store, left, 2, i, Checkpoint1Pass)
  {
    hide Ready, OnlyGood, Pass, SummaryOf, SummaryAt, AllAt, Noop, Ends;
    ThirdPass(store, good, i, i + 1, true);
    PassReady(store, good);
    var t := Pass(OnlyGood(good), store);
    JudgedStays(t, good, i);
    EndsHere(good, t, left - |store.records|, i, Checkpoint1Pass);
    EndsEarlier(good, store, left, 2, i, Checkpoint1Pass);
  }

  lemma InterruptedPasses(start: Store, i: nat, good: Identity, last: nat)
    requires JustRegistered(start.records) && i < |start.records| && last >= 3 * |start.records|
    requires start.records[i].who == good
    ensures Ends(OnlyGood(good), Normal(OnlyGood(good), start, i + 1).store, last, 3, i, Checkpoint1Pass)
  {
    hide Ready, OnlyGood, Block, Pass, SummaryOf, SummaryAt, JustRegistered, AllAt, Noop, Normal, Ends;
    FirstPass(start, good);
    FirstSession(start, i, good);
    BlockReady(good, start, 0, i + 1);
    FirstSessionMoves(start, i, good);
    var s := Block(OnlyGood(good), start, 0, i + 1);
    SecondSessionFirstSweep(s, i, good);
    PassReady(s, good);
    PassesFromStage3(Pass(OnlyGood(good), s), good, i, last - |start.records|);
    EndsEarlier(good, s, last, 3, i, Checkpoint1Pass);
  }

  // ----- exactly when resuming makes no difference

  /** No way of stopping and resuming changes the records a completed batch ends with. */
  ghost predicate Repeatable(start: Store) {
    forall w, stops, last, full |
      last >= 3 * |start.records| && full >= 3 * |start.records| && !Normal(w, start, full).failed ::
      Normal(w, Resumed(w, start, stops), last).store.records == Normal(w, start, full).store.records
  }

  lemma ResumedOnce(w: World, start: Store, budget: nat)
    ensures Resumed(w, start, [Stop(budget, None)]) == Normal(w, start, budget).store
  {
    hide Normal;
    assert [Stop(budget, None)][..0] == [];
    assert Resumed(w, start, []) == start;
  }

  lemma SharedDirNotRepeatable(start: Store, i: nat, j: nat)
    requires JustRegistered(start.records) && i < |start.records| && j < |start.records|
    requires start.records[i].who.dir == start.records[j].who.dir && start.records[i].who != start.records[j].who
    ensures !Repeatable(start)
  {
    var m := LastExists(start.records, if i < j then j else i, start.records[i].who.dir);
    var k := if start.records[i].who != start.records[m].who then i else j;
    assert LastWith(start.records, m, start.records[k].who.dir) && start.records[m].who.dir == start.records[k].who.dir;
    hide LastWith;
    TwoEndings(start, k, m, start.records[k].who);
  }

  lemma TwoEndings(start: Store, k: nat, m: nat, good: Identity)
    requires JustRegistered(start.records) && k < |start.records| && start.records[k].who == good
    requires LastWith(start.records, m, start.records[k].who.dir) && m < |start.records|
    requires start.records[m].who.dir == good.dir && start.records[m].who != good
    ensures !Repeatable(start)
  {
    hide OnlyGood, JustRegistered, LastWith, Resumed, Sweeps;
    var w, full := OnlyGood(good), 3 * |start.records|;
    UninterruptedFails(start, k, m, good, full);
    InterruptedPasses(start, k, good, full);
    ResumedOnce(w, start, k + 1);
    assert Normal(w, Resumed(w, start, [Stop(k + 1, None)]), full).store.records[k] != Normal(w, start, full).store.records[k];
  }

  /** A registered batch is repeatable exactly when a directory belongs to one identity. */
  lemma RepeatableExactly(start: Store)
    requires JustRegistered(start.records)
    ensures Repeatable(start) <==> DirsDetermine(start.records)
  {
    if DirsDetermine(start.records) {
      forall w, stops, last, full |
        last >= 3 * |start.records| && full >= 3 * |start.records| && !Normal(w, start, full).failed
        ensures Normal(w, Resumed(w, start, stops), last).store.records == Normal(w, start, full).store.records
      {
        ResumeMakesNoDifference(w, start, stops, last, full);
      }
    } else {
      var i, j :| 0 <= i < |start.records| && 0 <= j < |start.records|
                  && start.records[i].who.dir == start.records[j].who.dir && start.records[i].who != start.records[j].who;
      SharedDirNotRepeatable(start, i, j);
    }
  }
}
