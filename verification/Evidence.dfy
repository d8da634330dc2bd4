/**
 Every entry of every candidate's history is backed by something a session saw: a missing
 probe or runner, a probe result, a runner's summary, or the gate's verdict on a summary.
 */
module Evidence {
  import opened Wrappers
  import opened Candidates
  import opened Orchestrator
  import opened OrchestratorRuns
  import F = Feasibility
  import C = Checkpoint1

  /** In one of the sessions a candidate of this directory had its runner give this summary. */
  ghost predicate GivenByRunner(sessions: seq<Session>, batch: seq<Record>, dir: string, summary: C.Summary) {
    exists j, k ::
      && 0 <= j < |sessions| && 0 <= k < |batch|
      && sessions[j].NormalSession? && batch[k].who.dir == dir && sessions[j].w.runner(batch[k].who) == Ok(summary)
  }

  /** The gate gives this verdict on a summary that some runner gave for the candidate's directory. */
  ghost predicate JudgedAs(w: World, sessions: seq<Session>, batch: seq<Record>, who: Identity, verdict: C.Verdict) {
    exists summary: C.Summary ::
      && GivenByRunner(sessions, batch, who.dir, summary)
      && C.Evaluate(C.Checks(summary, C.Expected(w.registry, summary.familyId,
                                                 Some(w.pathText(Path(who.dir, SummaryJson)))))) == verdict
  }

  /** The session saw a Stage 2 result, and it met everything or not. */
  ghost predicate Probes(w: World, who: Identity, met: bool) {
    && w.hasProbe(who.family) && w.powerDeclared(who.id) && w.probe(who).Ok?
    && (F.MeetsAll(w.probe(who).value) <==> met)
  }

  /** What the session saw is reason to go from status a to status b. */
  ghost predicate Reason(session: Session, sessions: seq<Session>, batch: seq<Record>, who: Identity, a: Status, b: Status) {
    match b
    case IdeaRegistered => false
    case AwaitingStage2 => session.NormalSession? && !session.w.hasProbe(who.family)
    case Stage2Pass => session.NormalSession? && Probes(session.w, who, true)
    case Stage2Fail => (session.NormalSession? <==> a == IdeaRegistered) && Probes(session.w, who, false)
    case PassOnReprobe => session.ReprobeSession? && Probes(session.w, who, true)
    case AwaitingStage3 => session.NormalSession? && !session.w.hasRunner(who.family)
    case Stage3Done => session.NormalSession? && session.w.hasRunner(who.family) && session.w.runner(who).Ok?
    case Checkpoint1Pass => session.NormalSession? && JudgedAs(session.w, sessions, batch, who, C.PASS)
    case Checkpoint1Fail => session.NormalSession? && JudgedAs(session.w, sessions, batch, who, C.FAIL)
    case Checkpoint1NeedsHuman => session.NormalSession? && JudgedAs(session.w, sessions, batch, who, C.NEEDS_HUMAN)
  }

  ghost predicate HasReason(sessions: seq<Session>, batch: seq<Record>, who: Identity, a: Status, b: Status) {
    exists j :: 0 <= j < |sessions| && Reason(sessions[j], sessions, batch, who, a, b)
  }

  ghost predicate EntriesBacked(sessions: seq<Session>, batch: seq<Record>, r: Record) {
    forall k :: 1 <= k < |r.history| ==> HasReason(sessions, batch, r.who, r.history[k - 1], r.history[k])
  }

  /** A safe record of the batch whose entries all have a reason. */
  ghost predicate Backed(sessions: seq<Session>, batch: seq<Record>, i: nat, r: Record) {
    && i < |batch| && r.who == batch[i].who
    && Safe(r) && EntriesBacked(sessions, batch, r)
  }

  /** In one of the sessions the probe gave a result that is written like this. */
  ghost predicate GivenByProbe(sessions: seq<Session>, batch: seq<Record>, dir: string, payload: F.Json) {
    exists j, k ::
      && 0 <= j < |sessions| && 0 <= k < |batch|
      && sessions[j].NormalSession? && batch[k].who.dir == dir
      && WrittenBy(sessions[j].w, batch[k].who, payload)
  }

  ghost predicate WrittenBy(w: World, who: Identity, payload: F.Json) {
    w.probe(who).Ok? && payload == F.ToDict(w.probe(who).value)
  }

  /** In one of the sessions the gate made these checks of a summary that a runner gave for the directory. */
  ghost predicate GivenByGate(sessions: seq<Session>, batch: seq<Record>, dir: string, checks: seq<C.Verdict>) {
    exists j, summary ::
      && 0 <= j < |sessions| && sessions[j].NormalSession?
      && GivenByRunner(sessions, batch, dir, summary) && ChecksOf(sessions[j].w, dir, summary, checks)
  }

  ghost predicate ChecksOf(w: World, dir: string, summary: C.Summary, checks: seq<C.Verdict>) {
    checks == C.Checks(summary, C.Expected(w.registry, summary.familyId, Some(w.pathText(Path(dir, SummaryJson)))))
  }

  /** The file holds what a probe, a runner or the gate gave for its directory. */
  ghost predicate FileBacked(sessions: seq<Session>, batch: seq<Record>, path: Path, file: File) {
    match path.kind
    case Stage2Json => file.Stage2File? && GivenByProbe(sessions, batch, path.dir, file.payload)
    case SummaryJson => file.SummaryFile? && GivenByRunner(sessions, batch, path.dir, file.summary)
    case Checkpoint1Json => file.Checkpoint1File? && GivenByGate(sessions, batch, path.dir, file.checks)
  }

  ghost predicate FilesBacked(sessions: seq<Session>, batch: seq<Record>, disk: Disk) {
    forall path :: path in disk ==> FileBacked(sessions, batch, path, disk[path])
  }

  ghost predicate RecordsBacked(sessions: seq<Session>, batch: seq<Record>, records: seq<Record>) {
    && |records| == |batch|
    && forall i :: 0 <= i < |records| ==> Backed(sessions, batch, i, records[i])
  }

  ghost predicate StoreBacked(sessions: seq<Session>, batch: seq<Record>, store: Store) {
    RecordsBacked(sessions, batch, store.records) && FilesBacked(sessions, batch, store.disk)
  }

  // ----- more sessions keep every reason

  lemma ReasonKept(session: Session, sessions: seq<Session>, more: Session, batch: seq<Record>, who: Identity, a: Status, b: Status)
    requires Reason(session, sessions, batch, who, a, b)
    ensures Reason(session, sessions + [more], batch, who, a, b)
  {
    forall summary: C.Summary | GivenByRunner(sessions, batch, who.dir, summary)
      ensures GivenByRunner(sessions + [more], batch, who.dir, summary)
    {
      GivenKept(sessions, more, batch, who.dir, summary);
    }
    hide GivenByRunner, C.Checks, C.Evaluate, C.Expected;
  }

  lemma GivenKept(sessions: seq<Session>, more: Session, batch: seq<Record>, dir: string, summary: C.Summary)
    requires GivenByRunner(sessions, batch, dir, summary)
    ensures GivenByRunner(sessions + [more], batch, dir, summary)
  {
    var j, k :|
      && 0 <= j < |sessions| && 0 <= k < |batch|
      && sessions[j].NormalSession? && batch[k].who.dir == dir && sessions[j].w.runner(batch[k].who) == Ok(summary);
    assert (sessions + [more])[j] == sessions[j];
  }

  lemma ProbeKept(sessions: seq<Session>, more: Session, batch: seq<Record>, dir: string, payload: F.Json)
    requires GivenByProbe(sessions, batch, dir, payload)
    ensures GivenByProbe(sessions + [more], batch, dir, payload)
  {
    var j, k :|
      && 0 <= j < |sessions| && 0 <= k < |batch|
      && sessions[j].NormalSession? && batch[k].who.dir == dir && WrittenBy(sessions[j].w, batch[k].who, payload);
    hide WrittenBy;
    assert (sessions + [more])[j] == sessions[j];
  }

  lemma GateKept(sessions: seq<Session>, more: Session, batch: seq<Record>, dir: string, checks: seq<C.Verdict>)
    requires GivenByGate(sessions, batch, dir, checks)
    ensures GivenByGate(sessions + [more], batch, dir, checks)
  {
    var j, summary :|
      && 0 <= j < |sessions| && sessions[j].NormalSession?
      && GivenByRunner(sessions, batch, dir, summary) && ChecksOf(sessions[j].w, dir, summary, checks);
    GivenKept(sessions, more, batch, dir, summary);
    hide ChecksOf, GivenByRunner;
    assert (sessions + [more])[j] == sessions[j];
  }

  lemma FileKept(sessions: seq<Session>, more: Session, batch: seq<Record>, path: Path, file: File)
    requires FileBacked(sessions, batch, path, file)
    ensures FileBacked(sessions + [more], batch, path, file)
  {
    match path.kind
    case Stage2Json => ProbeKept(sessions, more, batch, path.dir, file.payload);
    case SummaryJson => GivenKept(sessions, more, batch, path.dir, file.summary);
    case Checkpoint1Json => GateKept(sessions, more, batch, path.dir, file.checks);
  }

  lemma HasReasonKept(sessions: seq<Session>, more: Session, batch: seq<Record>, who: Identity, a: Status, b: Status)
    requires HasReason(sessions, batch, who, a, b)
    ensures HasReason(sessions + [more], batch, who, a, b)
  {
    var j :| 0 <= j < |sessions| && Reason(sessions[j], sessions, batch, who, a, b);
    ReasonKept(sessions[j], sessions, more, batch, who, a, b);
    hide Reason;
    assert (sessions + [more])[j] == sessions[j];
  }

  lemma StoreBackedKept(sessions: seq<Session>, more: Session, batch: seq<Record>, store: Store)
    requires StoreBacked(sessions, batch, store)
    ensures StoreBacked(sessions + [more], batch, store)
  {
    forall i, k | 0 <= i < |batch| && 1 <= k < |store.records[i].history|
      ensures HasReason(sessions + [more], batch, store.records[i].who, store.records[i].history[k - 1], store.records[i].history[k])
    {
      assert Backed(sessions, batch, i, store.records[i]);
      HasReasonKept(sessions, more, batch, store.records[i].who, store.records[i].history[k - 1], store.records[i].history[k]);
    }
    forall path | path in store.disk
      ensures FileBacked(sessions + [more], batch, path, store.disk[path])
    {
      assert FileBacked(sessions, batch, path, store.disk[path]);
      FileKept(sessions, more, batch, path, store.disk[path]);
    }
    hide FileBacked;
    hide HasReason, GivenByRunner, Safe;
  }

  // ----- one step

  lemma EntryAdded(sessions: seq<Session>, batch: seq<Record>, i: nat, r: Record, now: Record, s: Status, j: nat)
    requires Backed(sessions, batch, i, r) && Safe(now) && now.who == r.who && now.history == r.history + [s]
    requires j < |sessions| && Reason(sessions[j], sessions, batch, r.who, r.status, s)
    ensures Backed(sessions, batch, i, now)
  {
    assert HasReason(sessions, batch, r.who, r.status, s);
    hide Reason, HasReason;
    forall k | 1 <= k < |now.history|
      ensures HasReason(sessions, batch, now.who, now.history[k - 1], now.history[k])
    {
      assert k < |r.history| ==> HasReason(sessions, batch, r.who, r.history[k - 1], r.history[k]);
    }
  }

  lemma HistoryKept(sessions: seq<Session>, batch: seq<Record>, i: nat, r: Record, now: Record)
    requires Backed(sessions, batch, i, r) && Safe(now) && now.who == r.who && now.history == r.history
    ensures Backed(sessions, batch, i, now)
  {
  }

  /** Nothing was added to the history, or one entry with a reason in session j. */
  ghost predicate AddsReasoned(sessions: seq<Session>, batch: seq<Record>, r: Record, now: Record, j: nat)
    requires j < |sessions|
  {
    || now.history == r.history
    || (now.history == r.history + [now.status] && Reason(sessions[j], sessions, batch, r.who, r.status, now.status))
  }

  lemma ProbedStatus(r: Record, result: F.FeasibilityResult)
    requires r.status == IdeaRegistered
    ensures Probed(r, result).history == r.history + [Probed(r, result).status]
    ensures Probed(r, result).status == if F.MeetsAll(result) then Stage2Pass else Stage2Fail
  {
    F.PassMeans(result);
    hide F.Evaluate, F.MeetsAll;
  }

  lemma ProbeReason(sessions: seq<Session>, batch: seq<Record>, r: Record, disk: Disk, j: nat)
    requires j < |sessions| && sessions[j].NormalSession? && r.status == IdeaRegistered
    ensures var step := Advance(sessions[j].w, r, disk); step.Ok? ==> AddsReasoned(sessions, batch, r, step.value.0, j)
  {
    if sessions[j].w.probe(r.who).Ok? {
      ProbedStatus(r, sessions[j].w.probe(r.who).value);
    }
    hide JudgedAs, F.Evaluate, F.MeetsAll, F.ToDict, GateChecks, Judged, Summarised, Probed;
  }

  lemma RunnerReason(sessions: seq<Session>, batch: seq<Record>, r: Record, disk: Disk, j: nat)
    requires j < |sessions| && sessions[j].NormalSession? && r.status == Stage2Pass
    ensures var step := Advance(sessions[j].w, r, disk); step.Ok? ==> AddsReasoned(sessions, batch, r, step.value.0, j)
  {
    hide JudgedAs, Probes, F.Evaluate, F.ToDict, GateChecks, Judged, Probed;
  }

  lemma VerdictReason(sessions: seq<Session>, batch: seq<Record>, r: Record, disk: Disk, j: nat)
    requires j < |sessions| && sessions[j].NormalSession? && r.status == Stage3Done
    requires Safe(r) && FilesBacked(sessions, batch, disk)
    ensures var step := Advance(sessions[j].w, r, disk); step.Ok? ==> AddsReasoned(sessions, batch, r, step.value.0, j)
  {
    hide Probes, FilesBacked, JudgedAs, F.Evaluate, F.ToDict, C.Evaluate, GateChecks, Probed;
    if Advance(sessions[j].w, r, disk).Ok? {
      assert r.status in r.history;
      GateReason(sessions, batch, r, disk, j);
    }
  }

  /** An advance adds at most one entry, and its reason is in its own session. */
  lemma AdvanceReason(sessions: seq<Session>, batch: seq<Record>, r: Record, disk: Disk, j: nat)
    requires j < |sessions| && sessions[j].NormalSession?
    requires Safe(r) && FilesBacked(sessions, batch, disk)
    ensures var step := Advance(sessions[j].w, r, disk); step.Ok? ==> AddsReasoned(sessions, batch, r, step.value.0, j)
  {
    match r.status
    case IdeaRegistered => ProbeReason(sessions, batch, r, disk, j);
    case Stage2Pass => RunnerReason(sessions, batch, r, disk, j);
    case Stage3Done => VerdictReason(sessions, batch, r, disk, j);
    case _ =>
  }

  lemma GateReason(sessions: seq<Session>, batch: seq<Record>, r: Record, disk: Disk, j: nat)
    requires j < |sessions| && sessions[j].NormalSession? && FilesBacked(sessions, batch, disk)
    requires Path(r.who.dir, SummaryJson) in disk && disk[Path(r.who.dir, SummaryJson)].SummaryFile?
    ensures var at := Path(r.who.dir, SummaryJson);
      JudgedAs(sessions[j].w, sessions, batch, r.who, C.Evaluate(GateChecks(sessions[j].w, disk[at].summary, at)))
  {
    hide GivenByRunner, C.Checks, C.Evaluate, C.Expected;
    assert FileBacked(sessions, batch, Path(r.who.dir, SummaryJson), disk[Path(r.who.dir, SummaryJson)]);
  }

  /** An advance writes at most one file. */
  ghost predicate Writes(w: World, r: Record, disk: Disk, now: Disk) {
    || now == disk
    || (w.probe(r.who).Ok? && now == disk[Path(r.who.dir, Stage2Json) := Stage2File(F.ToDict(w.probe(r.who).value))])
    || (w.runner(r.who).Ok? && now == disk[Path(r.who.dir, SummaryJson) := SummaryFile(w.runner(r.who).value)])
    || (&& r.status == Stage3Done && r.summaryPath.Some? && r.summaryPath.value in disk
        && disk[r.summaryPath.value].SummaryFile?
        && now == disk[Path(r.who.dir, Checkpoint1Json) :=
             Checkpoint1File(GateChecks(w, disk[r.summaryPath.value].summary, r.summaryPath.value))])
  }

  lemma AdvanceWrites(w: World, r: Record, disk: Disk)
    ensures Advance(w, r, disk).Ok? ==> Writes(w, r, disk, Advance(w, r, disk).value.1)
  {
    hide F.Evaluate, F.ToDict, GateChecks, Judged, Probed, Summarised;
  }

  lemma FileAdded(sessions: seq<Session>, batch: seq<Record>, disk: Disk, path: Path, file: File)
    requires FilesBacked(sessions, batch, disk) && FileBacked(sessions, batch, path, file)
    ensures FilesBacked(sessions, batch, disk[path := file])
  {
    hide FileBacked;
  }

  lemma ChecksGiven(sessions: seq<Session>, batch: seq<Record>, r: Record, disk: Disk, j: nat)
    requires j < |sessions| && sessions[j].NormalSession? && FilesBacked(sessions, batch, disk)
    requires Path(r.who.dir, SummaryJson) in disk && disk[Path(r.who.dir, SummaryJson)].SummaryFile?
    ensures var at := Path(r.who.dir, SummaryJson);
      GivenByGate(sessions, batch, r.who.dir, GateChecks(sessions[j].w, disk[at].summary, at))
  {
    var at := Path(r.who.dir, SummaryJson);
    assert FileBacked(sessions, batch, at, disk[at]);
    assert ChecksOf(sessions[j].w, r.who.dir, disk[at].summary, GateChecks(sessions[j].w, disk[at].summary, at));
    hide GivenByRunner, ChecksOf, GateChecks;
  }

  lemma RunnerFile(sessions: seq<Session>, batch: seq<Record>, i: nat, disk: Disk, j: nat)
    requires j < |sessions| && sessions[j].NormalSession? && i < |batch| && FilesBacked(sessions, batch, disk)
    requires sessions[j].w.runner(batch[i].who).Ok?
    ensures var who := batch[i].who;
      FilesBacked(sessions, batch, disk[Path(who.dir, SummaryJson) := SummaryFile(sessions[j].w.runner(who).value)])
  {
    var who, w := batch[i].who, sessions[j].w;
    hide FilesBacked;
    assert GivenByRunner(sessions, batch, who.dir, w.runner(who).value);
    FileAdded(sessions, batch, disk, Path(who.dir, SummaryJson), SummaryFile(w.runner(who).value));
  }

  lemma ProbeFile(sessions: seq<Session>, batch: seq<Record>, i: nat, disk: Disk, j: nat)
    requires j < |sessions| && sessions[j].NormalSession? && i < |batch| && FilesBacked(sessions, batch, disk)
    requires sessions[j].w.probe(batch[i].who).Ok?
    ensures var who := batch[i].who;
      FilesBacked(sessions, batch, disk[Path(who.dir, Stage2Json) := Stage2File(F.ToDict(sessions[j].w.probe(who).value))])
  {
    var who, w := batch[i].who, sessions[j].w;
    hide FilesBacked, F.ToDict;
    assert WrittenBy(w, who, F.ToDict(w.probe(who).value));
    assert GivenByProbe(sessions, batch, who.dir, F.ToDict(w.probe(who).value));
    FileAdded(sessions, batch, disk, Path(who.dir, Stage2Json), Stage2File(F.ToDict(w.probe(who).value)));
  }

  lemma GateFile(sessions: seq<Session>, batch: seq<Record>, r: Record, disk: Disk, j: nat)
    requires j < |sessions| && sessions[j].NormalSession? && FilesBacked(sessions, batch, disk)
    requires Path(r.who.dir, SummaryJson) in disk && disk[Path(r.who.dir, SummaryJson)].SummaryFile?
    ensures var at := Path(r.who.dir, SummaryJson);
      FilesBacked(sessions, batch, disk[Path(r.who.dir, Checkpoint1Json) :=
        Checkpoint1File(GateChecks(sessions[j].w, disk[at].summary, at))])
  {
    hide FilesBacked, GateChecks, GivenByGate;
    var at := Path(r.who.dir, SummaryJson);
    ChecksGiven(sessions, batch, r, disk, j);
    FileAdded(sessions, batch, disk, Path(r.who.dir, Checkpoint1Json),
              Checkpoint1File(GateChecks(sessions[j].w, disk[at].summary, at)));
  }

  lemma SummaryWhereExpected(r: Record)
    requires Safe(r) && r.status == Stage3Done
    ensures r.summaryPath == Some(Path(r.who.dir, SummaryJson))
  {
  }

  /** What an advance writes is this session's. */
  lemma AdvanceFiles(sessions: seq<Session>, batch: seq<Record>, i: nat, r: Record, disk: Disk, j: nat)
    requires j < |sessions| && sessions[j].NormalSession? && i < |batch| && r.who == batch[i].who && Safe(r)
    requires FilesBacked(sessions, batch, disk)
    ensures var step := Advance(sessions[j].w, r, disk);
      step.Ok? ==> FilesBacked(sessions, batch, step.value.1)
  {
    hide *;
    AdvanceWrites(sessions[j].w, r, disk);
    if sessions[j].w.runner(r.who).Ok? {
      RunnerFile(sessions, batch, i, disk, j);
    }
    if sessions[j].w.probe(r.who).Ok? {
      ProbeFile(sessions, batch, i, disk, j);
    }
    if r.status == Stage3Done {
      SummaryWhereExpected(r);
      var at := Path(r.who.dir, SummaryJson);
      if at in disk && disk[at].SummaryFile? {
        GateFile(sessions, batch, r, disk, j);
      }
    }
    if Advance(sessions[j].w, r, disk).Ok? {
      WritesCases(sessions[j].w, r, disk, Advance(sessions[j].w, r, disk).value.1);
    }
  }

  lemma WritesCases(w: World, r: Record, disk: Disk, now: Disk)
    requires Writes(w, r, disk, now)
    ensures now != disk && !(w.probe(r.who).Ok? && now == disk[Path(r.who.dir, Stage2Json) :=
              Stage2File(F.ToDict(w.probe(r.who).value))])
            && !(w.runner(r.who).Ok? && now == disk[Path(r.who.dir, SummaryJson) := SummaryFile(w.runner(r.who).value)]) ==>
      && r.status == Stage3Done && r.summaryPath.Some? && r.summaryPath.value in disk
      && disk[r.summaryPath.value].SummaryFile?
      && now == disk[Path(r.who.dir, Checkpoint1Json) :=
           Checkpoint1File(GateChecks(w, disk[r.summaryPath.value].summary, r.summaryPath.value))]
  {
  }

  lemma AdvanceBacked(sessions: seq<Session>, batch: seq<Record>, store: Store, i: nat, j: nat)
    requires j < |sessions| && sessions[j].NormalSession? && i < |batch| && StoreBacked(sessions, batch, store)
    ensures var step := Advance(sessions[j].w, store.records[i], store.disk);
      step.Ok? ==> StoreBacked(sessions, batch, Store(store.records[i := step.value.0], step.value.1))
  {
    var r := store.records[i];
    assert Backed(sessions, batch, i, r);
    AdvanceReason(sessions, batch, r, store.disk, j);
    AdvanceFiles(sessions, batch, i, r, store.disk, j);
    AdvanceKeepsSafe(sessions[j].w, r, store.disk);
    hide Advance, Reason, FilesBacked, Safe, EntriesBacked;
    var step := Advance(sessions[j].w, r, store.disk);
    if step.Ok? {
      if step.value.0.history == r.history {
        HistoryKept(sessions, batch, i, r, step.value.0);
      } else {
        EntryAdded(sessions, batch, i, r, step.value.0, step.value.0.status, j);
      }
    }
  }

  lemma {:induction false} SweepBacked(sessions: seq<Session>, batch: seq<Record>, store: Store, i: nat, left: nat, changed: bool, j: nat)
    requires j < |sessions| && sessions[j].NormalSession? && i <= |store.records| && StoreBacked(sessions, batch, store)
    ensures StoreBacked(sessions, batch, Sweep(sessions[j].w, store, i, left, changed).store)
    decreases |store.records| - i
  {
    hide Advance, Sweep, FilesBacked, RecordsBacked;
    var w := sessions[j].w;
    SweepUnfolds(w, store, i, left, changed);
    SameLength(sessions, batch, store);
    if i < |store.records| && left > 0 && Advance(w, store.records[i], store.disk).Ok? {
      var step := Advance(w, store.records[i], store.disk);
      AdvanceBacked(sessions, batch, store, i, j);
      SweepBacked(sessions, batch, Store(store.records[i := step.value.0], step.value.1), i + 1, left - 1,
                  changed || step.value.0 != store.records[i], j);
    }
  }

  lemma SameLength(sessions: seq<Session>, batch: seq<Record>, store: Store)
    requires StoreBacked(sessions, batch, store)
    ensures |store.records| == |batch|
  {
  }

  lemma {:induction false} SweepsBacked(sessions: seq<Session>, batch: seq<Record>, store: Store, left: nat, n: nat, j: nat)
    requires j < |sessions| && sessions[j].NormalSession? && StoreBacked(sessions, batch, store)
    ensures StoreBacked(sessions, batch, Sweeps(sessions[j].w, store, left, n).store)
    decreases n
  {
    hide Sweep, Sweeps, StoreBacked;
    var w := sessions[j].w;
    SweepsUnfolds(w, store, left, n);
    if n > 0 {
      SweepBacked(sessions, batch, store, 0, left, false, j);
      var p := Sweep(w, store, 0, left, false);
      SweepsBacked(sessions, batch, p.store, p.left, n - 1, j);
    }
  }

  lemma RejudgedBacked(sessions: seq<Session>, batch: seq<Record>, i: nat, r: Record, now: Record, disk: Disk, j: nat)
    requires j < |sessions| && sessions[j].ReprobeSession? && Backed(sessions, batch, i, r) && Safe(now)
    requires Rejudged(sessions[j].w, disk, r, now)
    ensures Backed(sessions, batch, i, now)
  {
    hide F.MeetsAll, F.ToDict;
    if now.history == r.history {
      HistoryKept(sessions, batch, i, r, now);
    } else {
      EntryAdded(sessions, batch, i, r, now, now.status, j);
    }
  }

  lemma ReprobeBacked(sessions: seq<Session>, batch: seq<Record>, store: Store, j: nat)
    requires j < |sessions| && sessions[j].ReprobeSession? && StoreBacked(sessions, batch, store)
    ensures StoreBacked(sessions, batch, Reprobe(sessions[j].w, store))
  {
    var w := sessions[j].w;
    SessionMeans(w, store);
    AllBackedSafe(sessions, batch, store);
    SessionKeepsSafe(sessions[j], store);
    hide Rejudged, Safe, EntriesBacked, FilesBacked, ReprobeFrom, AdvisoryOf, AllReprobable;
    var now := Reprobe(w, store);
    if now != store {
      forall i | 0 <= i < |batch|
        ensures Backed(sessions, batch, i, now.records[i])
      {
        assert Backed(sessions, batch, i, store.records[i]);
        RejudgedBacked(sessions, batch, i, store.records[i], now.records[i], store.disk, j);
      }
    }
  }

  lemma AllBackedSafe(sessions: seq<Session>, batch: seq<Record>, store: Store)
    requires StoreBacked(sessions, batch, store)
    ensures AllSafe(store.records)
  {
    hide Safe, EntriesBacked;
    forall i | 0 <= i < |store.records|
      ensures Safe(store.records[i])
    {
      assert Backed(sessions, batch, i, store.records[i]);
    }
  }

  lemma {:induction false} AllSessionsBacked(sessions: seq<Session>, start: Store)
    requires FreshBatch(start)
    ensures StoreBacked(sessions, start.records, AfterAll(sessions, start))
  {
    var n := |sessions|;
    hide Safe, HasReason, After;
    if n > 0 {
      var before := AfterAll(sessions[..n - 1], start);
      AllSessionsBacked(sessions[..n - 1], start);
      StoreBackedKept(sessions[..n - 1], sessions[n - 1], start.records, before);
      assert sessions[..n - 1] + [sessions[n - 1]] == sessions;
      hide StoreBacked, After;
      SessionBacked(sessions, start.records, before, n - 1);
    }
  }

  lemma SessionBacked(sessions: seq<Session>, batch: seq<Record>, store: Store, j: nat)
    requires j < |sessions| && StoreBacked(sessions, batch, store)
    ensures StoreBacked(sessions, batch, After(sessions[j], store))
  {
    hide StoreBacked, Sweeps, Reprobe;
    match sessions[j]
    case NormalSession(w, budget) => SweepsBacked(sessions, batch, store, budget, 3, j);
    case ReprobeSession(w) => ReprobeBacked(sessions, batch, store, j);
  }

  /** A batch as registration leaves it: every candidate registered, and no files. */
  ghost predicate FreshBatch(start: Store) {
    && start.disk == map[]
    && forall i :: 0 <= i < |start.records| ==> Safe(start.records[i]) && start.records[i].history == [IdeaRegistered]
  }

  /**
   Whatever sessions have run on a registered batch, every entry of every history has its
   reason in one of them.
   */
  lemma EveryEntryHasReason(sessions: seq<Session>, start: Store, i: nat, k: nat)
    requires FreshBatch(start) && i < |start.records|
    requires 1 <= k < |AfterAll(sessions, start).records[i].history|
    ensures var r := AfterAll(sessions, start).records[i];
      HasReason(sessions, start.records, r.who, r.history[k - 1], r.history[k])
  {
    AllSessionsBacked(sessions, start);
    hide AfterAll, HasReason, Safe;
    assert Backed(sessions, start.records, i, AfterAll(sessions, start).records[i]);
  }

  /** Every file on disk is what a session's probe, runner or gate gave for its directory. */
  lemma EveryFileHasSource(sessions: seq<Session>, start: Store)
    requires FreshBatch(start)
    ensures FilesBacked(sessions, start.records, AfterAll(sessions, start).disk)
  {
    AllSessionsBacked(sessions, start);
    hide AfterAll, RecordsBacked;
  }

  /** A candidate passes on reprobe only on a result of a reprobe session that meets everything. */
  lemma PassOnReprobeWasEarned(sessions: seq<Session>, start: Store, i: nat)
    requires FreshBatch(start) && i < |start.records|
    requires AfterAll(sessions, start).records[i].status == PassOnReprobe
    ensures exists j :: 0 <= j < |sessions| && sessions[j].ReprobeSession?
                        && Probes(sessions[j].w, start.records[i].who, true)
  {
    AllSessionsBacked(sessions, start);
    var r := AfterAll(sessions, start).records[i];
    assert Backed(sessions, start.records, i, r);
    EveryEntryHasReason(sessions, start, i, |r.history| - 1);
    hide AfterAll, Probes;
  }

  /** A candidate passes checkpoint 1 only on a summary of its directory that the gate passes. */
  lemma CheckpointPassWasEarned(sessions: seq<Session>, start: Store, i: nat)
    requires FreshBatch(start) && i < |start.records|
    requires AfterAll(sessions, start).records[i].status == Checkpoint1Pass
    ensures exists j :: 0 <= j < |sessions| && JudgedAs(sessions[j].w, sessions, start.records, start.records[i].who, C.PASS)
    ensures exists j :: 0 <= j < |sessions| && Probes(sessions[j].w, start.records[i].who, true)
  {
    AllSessionsBacked(sessions, start);
    var r := AfterAll(sessions, start).records[i];
    assert Backed(sessions, start.records, i, r);
    PathOfHistory(r.history);
    EveryEntryHasReason(sessions, start, i, 3);
    EveryEntryHasReason(sessions, start, i, 1);
    hide AfterAll, Probes, JudgedAs;
  }
}
