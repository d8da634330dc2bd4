/** One candidate of a research batch: its record, and the steps that move it. */
module Candidates {
  import opened Wrappers
  import F = Feasibility
  import C = Checkpoint1

  datatype Status =
    | IdeaRegistered | AwaitingStage2 | Stage2Fail | Stage2Pass | PassOnReprobe
    | AwaitingStage3 | Stage3Done | Checkpoint1Pass | Checkpoint1Fail | Checkpoint1NeedsHuman

  datatype Kind = Stage2Json | SummaryJson | Checkpoint1Json

  /** A file of the batch: the candidate directory and the file name. */
  datatype Path = Path(dir: string, kind: Kind)

  datatype File = Stage2File(payload: F.Json) | SummaryFile(summary: C.Summary) | Checkpoint1File(checks: seq<C.Verdict>)

  type Disk = map<Path, File>

  datatype Identity = Identity(id: string, dir: string, family: string, hypothesis: string)

  /** The candidate's entry in the state file; history is without its timestamps. */
  datatype Record = Record(who: Identity, feedbackSpawned: bool, status: Status, history: seq<Status>,
                           stage2Path: Option<Path>, summaryPath: Option<Path>, checkpointPath: Option<Path>,
                           checkpointVerdict: Option<C.Verdict>)

  /** Everything outside the batch that a step consults; an Err is an exception. */
  datatype World = World(
    hasProbe: string -> bool,
    powerDeclared: string -> bool,
    probe: Identity -> Result<F.FeasibilityResult, string>,
    hasRunner: string -> bool,
    runner: Identity -> Result<C.Summary, string>,
    registry: seq<C.RegistryRow>,
    pathText: Path -> string
  )

  predicate Noop(s: Status) {
    s != IdeaRegistered && s != Stage2Pass && s != Stage3Done
  }

  // ----- registration

  function TrimLeft(s: string): string {
    if |s| > 0 && F.IsSpace(s[0]) then TrimLeft(s[1..]) else s
  }

  function TrimRight(s: string): string {
    if |s| > 0 && F.IsSpace(s[|s| - 1]) then TrimRight(s[..|s| - 1]) else s
  }

  function Strip(s: string): string {
    TrimRight(TrimLeft(s))
  }

  function Underscored(s: string): (r: string)
    ensures |r| == |s| && forall i :: 0 <= i < |s| ==> r[i] == if s[i] == '-' then '_' else s[i]
  {
    if |s| == 0 then "" else Underscored(s[..|s| - 1]) + [if s[|s| - 1] == '-' then '_' else s[|s| - 1]]
  }

  /** `derive_candidate_dir`. */
  function DeriveDir(id: string): string {
    Underscored(if "B-" <= id || "A-" <= id then id[2..] else id)
  }

  /** Directories do not tell all candidates apart. */
  lemma DirsCollide(id: string)
    ensures DeriveDir("A-" + id) == DeriveDir("B-" + id)
  {
    assert ("A-" + id)[2..] == id == ("B-" + id)[2..];
  }

  /** A candidate as proposed; the id falls back to the provisional one before this. */
  datatype Idea = Idea(id: string, family: string, feedbackSpawned: bool)

  function Registered(idea: Idea, hypothesis: string): Record {
    var id := Strip(idea.id);
    var family := Strip(idea.family);
    Record(Identity(id, DeriveDir(id), if family == "" then "NEW" else family, Strip(hypothesis)),
           idea.feedbackSpawned, IdeaRegistered, [IdeaRegistered], None, None, None, None)
  }

  /** `hypothesis_ids.get(candidate_id)`. */
  function HypothesisOf(idea: Idea, hypotheses: map<string, string>): string {
    if Strip(idea.id) in hypotheses then hypotheses[Strip(idea.id)] else ""
  }

  predicate Registrable(idea: Idea, hypotheses: map<string, string>) {
    F.NonBlank(idea.id) && F.NonBlank(HypothesisOf(idea, hypotheses))
  }

  /** White space only. */
  ghost predicate Blank(s: string) {
    forall i :: 0 <= i < |s| ==> F.IsSpace(s[i])
  }

  /** bare is the text without the white space around it. */
  ghost predicate Bares(text: string, bare: string) {
    && (bare != "" ==> !F.IsSpace(bare[0]) && !F.IsSpace(bare[|bare| - 1]))
    && exists before, after: string :: text == before + bare + after && Blank(before) && Blank(after)
  }

  lemma {:induction false} TrimLeftBares(s: string) returns (before: string)
    ensures s == before + TrimLeft(s) && Blank(before)
    ensures TrimLeft(s) != "" ==> !F.IsSpace(TrimLeft(s)[0])
  {
    before := "";
    if |s| > 0 && F.IsSpace(s[0]) {
      var more := TrimLeftBares(s[1..]);
      before := [s[0]] + more;
      assert s == [s[0]] + s[1..];
    }
  }

  lemma {:induction false} TrimRightBares(s: string) returns (after: string)
    ensures s == TrimRight(s) + after && Blank(after)
    ensures TrimRight(s) != "" ==> !F.IsSpace(TrimRight(s)[|TrimRight(s)| - 1]) && TrimRight(s)[0] == s[0]
  {
    after := "";
    if |s| > 0 && F.IsSpace(s[|s| - 1]) {
      var more := TrimRightBares(s[..|s| - 1]);
      after := more + [s[|s| - 1]];
      assert s == s[..|s| - 1] + [s[|s| - 1]];
    }
  }

  lemma StripBares(s: string)
    ensures Bares(s, Strip(s))
  {
    var before := TrimLeftBares(s);
    var after := TrimRightBares(TrimLeft(s));
    assert s == before + Strip(s) + after;
  }

  /** The directory is the id without an A or B prefix, and with underscores for hyphens. */
  ghost predicate DirOf(id: string, dir: string) {
    var rest := if |id| >= 2 && (id[0] == 'A' || id[0] == 'B') && id[1] == '-' then id[2..] else id;
    |dir| == |rest| && forall i :: 0 <= i < |dir| ==> dir[i] == if rest[i] == '-' then '_' else rest[i]
  }

  /** What registration makes of an idea: bare texts, a default family, and the first status. */
  ghost predicate RegisteredAs(idea: Idea, hypothesis: string, r: Record) {
    && Bares(idea.id, r.who.id) && DirOf(r.who.id, r.who.dir) && Bares(hypothesis, r.who.hypothesis)
    && (if Blank(idea.family) then r.who.family == "NEW" else Bares(idea.family, r.who.family))
    && r.feedbackSpawned == idea.feedbackSpawned
    && r.status == IdeaRegistered && r.history == [IdeaRegistered]
    && r.stage2Path.None? && r.summaryPath.None? && r.checkpointPath.None? && r.checkpointVerdict.None?
  }

  lemma BlankIsBare(s: string)
    ensures Blank(s) <==> Strip(s) == ""
  {
    StripBares(s);
    var before, after: string :| s == before + Strip(s) + after && Blank(before) && Blank(after);
    if Strip(s) != "" {
      assert s[|before|] == Strip(s)[0];
    }
  }

  lemma RegisteredMeans(idea: Idea, hypothesis: string)
    ensures RegisteredAs(idea, hypothesis, Registered(idea, hypothesis))
  {
    StripBares(idea.id);
    StripBares(hypothesis);
    StripBares(idea.family);
    BlankIsBare(idea.family);
    hide Strip, Bares, Blank;
  }

  /** `pre_register_batch`. */
  method PreRegister(ideas: seq<Idea>, hypotheses: map<string, string>) returns (r: Result<seq<Record>, string>)
    ensures r.Ok? <==> |ideas| <= 15 && forall i :: 0 <= i < |ideas| ==> Registrable(ideas[i], hypotheses)
    ensures r.Ok? ==>
      && |r.value| == |ideas|
      && (forall i :: 0 <= i < |ideas| ==> r.value[i] == Registered(ideas[i], HypothesisOf(ideas[i], hypotheses)))
      && (forall i :: 0 <= i < |ideas| ==> RegisteredAs(ideas[i], HypothesisOf(ideas[i], hypotheses), r.value[i]))
  {
    hide *;
    if |ideas| > 15 {
      return Err("idea_batch candidate cap is 15");
    }
    var records: seq<Record> := [];
    for i := 0 to |ideas|
      invariant |records| == i
      invariant forall k :: 0 <= k < i ==> Registrable(ideas[k], hypotheses)
      invariant forall k :: 0 <= k < i ==> records[k] == Registered(ideas[k], HypothesisOf(ideas[k], hypotheses))
      invariant forall k :: 0 <= k < i ==> RegisteredAs(ideas[k], HypothesisOf(ideas[k], hypotheses), records[k])
    {
      RegisteredMeans(ideas[i], HypothesisOf(ideas[i], hypotheses));
      var registrable := Registrable(ideas[i], hypotheses);
      if !registrable {
        return Err("missing candidate_id or hypothesis_id");
      }
      records := records + [Registered(ideas[i], HypothesisOf(ideas[i], hypotheses))];
    }
    r := Ok(records);
  }

  // ----- the steps, on records

  /** `_set_status`. */
  function WithStatus(r: Record, s: Status): Record {
    if r.status == s then r else r.(status := s, history := r.history + [s])
  }

  /** `_append_status`. */
  function WithAppended(r: Record, s: Status): Record {
    r.(status := s, history := r.history + [s])
  }

  /** `_latest_status`. */
  function Latest(r: Record): Status {
    if |r.history| > 0 then r.history[|r.history| - 1] else r.status
  }

  function VerdictStatus(v: C.Verdict): Status {
    match v
    case PASS => Checkpoint1Pass
    case FAIL => Checkpoint1Fail
    case NEEDS_HUMAN => Checkpoint1NeedsHuman
  }

  function GateChecks(w: World, summary: C.Summary, at: Path): seq<C.Verdict> {
    C.Checks(summary, C.Expected(w.registry, summary.familyId, Some(w.pathText(at))))
  }

  /** Stage 3 done: judge the given summary. */
  function Judged(w: World, r: Record, summary: C.Summary, at: Path): Record {
    var verdict := C.Evaluate(GateChecks(w, summary, at));
    WithStatus(r.(checkpointPath := Some(Path(r.who.dir, Checkpoint1Json)), checkpointVerdict := Some(verdict)),
               VerdictStatus(verdict))
  }

  function Probed(r: Record, result: F.FeasibilityResult): Record {
    WithStatus(r.(stage2Path := Some(Path(r.who.dir, Stage2Json))),
               if F.Evaluate(result) == F.Fail then Stage2Fail else Stage2Pass)
  }

  function Summarised(r: Record): Record {
    WithStatus(r.(summaryPath := Some(Path(r.who.dir, SummaryJson))), Stage3Done)
  }

  /** `advance_candidate`: the new record and the new files. */
  function Advance(w: World, r: Record, disk: Disk): Result<(Record, Disk), string> {
    match r.status
    case IdeaRegistered =>
      if !w.hasProbe(r.who.family) then Ok((WithStatus(r, AwaitingStage2), disk))
      else if !w.powerDeclared(r.who.id) then Err("statistical power inputs")
      else
        var result := w.probe(r.who);
        if result.Err? then Err(result.error)
        else Ok((Probed(r, result.value), disk[Path(r.who.dir, Stage2Json) := Stage2File(F.ToDict(result.value))]))
    case Stage2Pass =>
      if !w.hasRunner(r.who.family) then Ok((WithStatus(r, AwaitingStage3), disk))
      else
        var summary := w.runner(r.who);
        if summary.Err? then Err(summary.error)
        else Ok((Summarised(r), disk[Path(r.who.dir, SummaryJson) := SummaryFile(summary.value)]))
    case Stage3Done =>
      if r.summaryPath.None? then Err("no summary_path")
      else if r.summaryPath.value !in disk || !disk[r.summaryPath.value].SummaryFile? then Err("cannot read summary")
      else
        var at := r.summaryPath.value;
        Ok((Judged(w, r, disk[at].summary, at),
            disk[Path(r.who.dir, Checkpoint1Json) := Checkpoint1File(GateChecks(w, disk[at].summary, at))]))
    case _ => Ok((r, disk))
  }

  /** One line of the reprobe advisory. */
  datatype Advice = Advice(id: string, passes: bool, changed: bool)

  /** The fields a reprobe insists on. */
  predicate Reprobable(r: Record) {
    && F.NonBlank(r.who.id) && F.NonBlank(r.who.family) && F.NonBlank(r.who.hypothesis) && F.NonBlank(r.who.dir)
    && r.stage2Path.Some?
  }

  /** The body of the reprobe loop: no advice for a candidate that is not at stage2_fail. */
  function ReprobeOne(w: World, r: Record, disk: Disk): Result<(Record, Option<Advice>), string> {
    if Latest(r) != Stage2Fail then Ok((r, None))
    else if !Reprobable(r) then Err("missing field")
    else if r.stage2Path.value !in disk || !disk[r.stage2Path.value].Stage2File? then Err("cannot read stage 2 result")
    else if !w.hasProbe(r.who.family) then Err("missing Stage2 probe")
    else if !w.powerDeclared(r.who.id) then Err("statistical power inputs")
    else
      var result := w.probe(r.who);
      if result.Err? then Err(result.error)
      else
        var passes := F.Evaluate(result.value) == F.Pass;
        var changed := F.ToDict(result.value) != disk[r.stage2Path.value].payload;
        Ok((if changed then WithAppended(r, if passes then PassOnReprobe else Stage2Fail) else r,
            Some(Advice(r.who.id, passes, changed))))
  }

  /** The latest status is a Stage 2 failure. */
  predicate HasFailed(r: Record) {
    if r.history == [] then r.status == Stage2Fail else r.history[|r.history| - 1] == Stage2Fail
  }

  /** Nothing that a reprobe of this failed candidate needs is missing. */
  predicate CanReprobe(w: World, r: Record, disk: Disk) {
    && Reprobable(r)
    && r.stage2Path.value in disk && disk[r.stage2Path.value].Stage2File?
    && w.hasProbe(r.who.family) && w.powerDeclared(r.who.id) && w.probe(r.who).Ok?
  }

  /**
   What a reprobe makes of a candidate: a failed one whose new result is written
   differently from the file gets one more entry, a pass exactly when the new result meets
   everything; any other candidate stays as it is.
   */
  ghost predicate Rejudged(w: World, disk: Disk, r: Record, now: Record) {
    if HasFailed(r) then
      && CanReprobe(w, r, disk)
      && var result := w.probe(r.who).value;
      && (now.history != r.history <==> F.ToDict(result) != disk[r.stage2Path.value].payload)
      && (now.history == r.history ==> now == r)
      && (now.history != r.history ==>
            && now == r.(status := now.status, history := r.history + [now.status])
            && now.status == if F.MeetsAll(result) then PassOnReprobe else Stage2Fail)
    else now == r
  }

  /** The advisory line of a failed candidate. */
  ghost predicate Advised(w: World, disk: Disk, r: Record, advice: Option<Advice>) {
    if HasFailed(r) && CanReprobe(w, r, disk) then
      && advice.Some? && advice.value.id == r.who.id
      && (advice.value.passes <==> F.MeetsAll(w.probe(r.who).value))
      && (advice.value.changed <==> F.ToDict(w.probe(r.who).value) != disk[r.stage2Path.value].payload)
    else advice.None?
  }

  lemma ReprobeOneMeans(w: World, r: Record, disk: Disk)
    ensures ReprobeOne(w, r, disk).Ok? <==> (HasFailed(r) ==> CanReprobe(w, r, disk))
    ensures ReprobeOne(w, r, disk).Ok? ==>
      Rejudged(w, disk, r, ReprobeOne(w, r, disk).value.0) && Advised(w, disk, r, ReprobeOne(w, r, disk).value.1)
  {
    hide F.Evaluate, F.ToDict, F.MeetsAll, F.NonBlank;
    if w.probe(r.who).Ok? {
      F.PassMeans(w.probe(r.who).value);
    }
  }

  // ----- the steps, on objects

  class Candidate {
    const who: Identity
    const feedbackSpawned: bool
    var status: Status
    var history: seq<Status>
    var stage2Path: Option<Path>
    var summaryPath: Option<Path>
    var checkpointPath: Option<Path>
    var checkpointVerdict: Option<C.Verdict>

    constructor (r: Record)
      ensures View() == r
    {
      who, feedbackSpawned, status, history := r.who, r.feedbackSpawned, r.status, r.history;
      stage2Path, summaryPath := r.stage2Path, r.summaryPath;
      checkpointPath, checkpointVerdict := r.checkpointPath, r.checkpointVerdict;
    }

    function View(): Record
      reads this
    {
      Record(who, feedbackSpawned, status, history, stage2Path, summaryPath, checkpointPath, checkpointVerdict)
    }

    method SetStatus(s: Status) returns (changed: bool)
      modifies this
      ensures View() == WithStatus(old(View()), s) && changed == (old(status) != s)
    {
      if status == s {
        return false;
      }
      status := s;
      history := history + [s];
      changed := true;
    }

    method AppendStatus(s: Status)
      modifies this
      ensures View() == WithAppended(old(View()), s)
    {
      status := s;
      history := history + [s];
    }

    /** `advance_candidate`. */
    method AdvanceCandidate(w: World, disk: Disk) returns (r: Result<Disk, string>)
      modifies this
      ensures var step := Advance(w, old(View()), disk);
        if step.Ok? then r == Ok(step.value.1) && View() == step.value.0
        else r == Err(step.error) && View() == old(View())
    {
      hide F.Evaluate, F.ToDict, GateChecks, VerdictStatus;
      if Noop(status) {
        return Ok(disk);
      }
      var changed;
      if status == IdeaRegistered {
        if !w.hasProbe(who.family) {
          changed := SetStatus(AwaitingStage2);
          return Ok(disk);
        }
        if !w.powerDeclared(who.id) {
          return Err("statistical power inputs");
        }
        var result := w.probe(who);
        if result.Err? {
          return Err(result.error);
        }
        var path := Path(who.dir, Stage2Json);
        stage2Path := Some(path);
        changed := SetStatus(if F.Evaluate(result.value) == F.Fail then Stage2Fail else Stage2Pass);
        return Ok(disk[path := Stage2File(F.ToDict(result.value))]);
      }
      if status == Stage2Pass {
        if !w.hasRunner(who.family) {
          changed := SetStatus(AwaitingStage3);
          return Ok(disk);
        }
        var summary := w.runner(who);
        if summary.Err? {
          return Err(summary.error);
        }
        var path := Path(who.dir, SummaryJson);
        summaryPath := Some(path);
        changed := SetStatus(Stage3Done);
        return Ok(disk[path := SummaryFile(summary.value)]);
      }
      if summaryPath.None? {
        return Err("no summary_path");
      }
      var at := summaryPath.value;
      if at !in disk || !disk[at].SummaryFile? {
        return Err("cannot read summary");
      }
      var checks := GateChecks(w, disk[at].summary, at);
      var path := Path(who.dir, Checkpoint1Json);
      checkpointPath := Some(path);
      checkpointVerdict := Some(C.Evaluate(checks));
      changed := SetStatus(VerdictStatus(C.Evaluate(checks)));
      r := Ok(disk[path := Checkpoint1File(checks)]);
    }

    /** The body of the loop of `reprobe_stage2_failures`. */
    method Reprobe(w: World, disk: Disk) returns (r: Result<Option<Advice>, string>)
      modifies this
      ensures var step := ReprobeOne(w, old(View()), disk);
        if step.Ok? then r == Ok(step.value.1) && View() == step.value.0
        else r == Err(step.error) && View() == old(View())
      ensures r.Ok? <==> (old(HasFailed(View())) ==> CanReprobe(w, old(View()), disk))
      ensures r.Ok? ==> Rejudged(w, disk, old(View()), View()) && Advised(w, disk, old(View()), r.value)
    {
      ReprobeOneMeans(w, View(), disk);
      hide Rejudged, Advised, CanReprobe, HasFailed, F.Evaluate, F.ToDict;
      if Latest(View()) != Stage2Fail {
        return Ok(None);
      }
      var reprobable := Reprobable(View());
      if !reprobable {
        return Err("missing field");
      }
      if stage2Path.value !in disk || !disk[stage2Path.value].Stage2File? {
        return Err("cannot read stage 2 result");
      }
      if !w.hasProbe(who.family) {
        return Err("missing Stage2 probe");
      }
      if !w.powerDeclared(who.id) {
        return Err("statistical power inputs");
      }
      var result := w.probe(who);
      if result.Err? {
        return Err(result.error);
      }
      var passes := F.Evaluate(result.value) == F.Pass;
      var changed := F.ToDict(result.value) != disk[stage2Path.value].payload;
      if changed {
        AppendStatus(if passes then PassOnReprobe else Stage2Fail);
      }
      r := Ok(Some(Advice(who.id, passes, changed)));
    }
  }

  // ----- what every history satisfies

  /** The moves that a step or a reprobe makes. */
  predicate Follows(a: Status, b: Status) {
    match a
    case IdeaRegistered => b == AwaitingStage2 || b == Stage2Fail || b == Stage2Pass
    case Stage2Fail => b == Stage2Fail || b == PassOnReprobe
    case Stage2Pass => b == AwaitingStage3 || b == Stage3Done
    case Stage3Done => b == Checkpoint1Pass || b == Checkpoint1Fail || b == Checkpoint1NeedsHuman
    case _ => false
  }

  ghost predicate Legal(history: seq<Status>) {
    && |history| > 0 && history[0] == IdeaRegistered
    && forall i :: 0 <= i < |history| - 1 ==> Follows(history[i], history[i + 1])
  }

  /** What holds of a record in every state file. */
  ghost predicate Safe(r: Record) {
    && Legal(r.history) && r.status == r.history[|r.history| - 1]
    && (Stage2Fail in r.history ==> r.stage2Path == Some(Path(r.who.dir, Stage2Json)))
    && (Stage3Done in r.history ==> r.summaryPath == Some(Path(r.who.dir, SummaryJson)))
    && (r.checkpointVerdict.Some? ==> r.status == VerdictStatus(r.checkpointVerdict.value))
    && (r.checkpointVerdict.None? ==> r.status !in {Checkpoint1Pass, Checkpoint1Fail, Checkpoint1NeedsHuman})
  }

  lemma RegisteredSafe(idea: Idea, hypothesis: string)
    ensures Safe(Registered(idea, hypothesis))
  {
  }

  lemma LegalAppend(history: seq<Status>, s: Status)
    requires Legal(history) && Follows(history[|history| - 1], s)
    ensures Legal(history + [s])
  {
  }

  lemma ProbedSafe(r: Record, result: F.FeasibilityResult)
    requires Safe(r) && r.status == IdeaRegistered
    ensures Safe(Probed(r, result))
  {
    PathOfHistory(r.history);
    LegalAppend(r.history, Stage2Fail);
    LegalAppend(r.history, Stage2Pass);
  }

  lemma SummarisedSafe(r: Record)
    requires Safe(r) && r.status == Stage2Pass
    ensures Safe(Summarised(r))
  {
    PathOfHistory(r.history);
    LegalAppend(r.history, Stage3Done);
  }

  lemma AwaitingSafe(r: Record, s: Status)
    requires Safe(r) && Follows(r.status, s) && s in {AwaitingStage2, AwaitingStage3}
    ensures Safe(WithStatus(r, s))
  {
    PathOfHistory(r.history);
    LegalAppend(r.history, s);
  }

  lemma JudgedSafe(w: World, r: Record, summary: C.Summary, at: Path)
    requires Safe(r) && r.status == Stage3Done
    ensures Safe(Judged(w, r, summary, at))
  {
    PathOfHistory(r.history);
    LegalAppend(r.history, VerdictStatus(C.Evaluate(GateChecks(w, summary, at))));
  }

  lemma AdvanceKeepsSafe(w: World, r: Record, disk: Disk)
    requires Safe(r)
    ensures Advance(w, r, disk).Ok? ==> Safe(Advance(w, r, disk).value.0)
    ensures Advance(w, r, disk).Ok? ==> Advance(w, r, disk).value.0.who == r.who
    ensures Noop(r.status) ==> Advance(w, r, disk) == Ok((r, disk))
  {
    if Advance(w, r, disk).Ok? {
      match r.status
      case IdeaRegistered =>
        AwaitingSafe(r, AwaitingStage2);
        if w.probe(r.who).Ok? {
          ProbedSafe(r, w.probe(r.who).value);
        }
      case Stage2Pass =>
        AwaitingSafe(r, AwaitingStage3);
        SummarisedSafe(r);
      case Stage3Done => JudgedSafe(w, r, disk[r.summaryPath.value].summary, r.summaryPath.value);
      case _ =>
    }
    hide Safe;
  }

  lemma ReprobeKeepsSafe(w: World, r: Record, disk: Disk)
    requires Safe(r)
    ensures ReprobeOne(w, r, disk).Ok? ==> Safe(ReprobeOne(w, r, disk).value.0)
    ensures ReprobeOne(w, r, disk).Ok? ==> ReprobeOne(w, r, disk).value.0.who == r.who
  {
    if Latest(r) == Stage2Fail {
      LegalAppend(r.history, PassOnReprobe);
      LegalAppend(r.history, Stage2Fail);
      PathOfHistory(r.history);
    }
  }

  /** The last status says which statuses came before it. */
  ghost predicate PathTo(history: seq<Status>)
    requires |history| > 0
  {
    match history[|history| - 1]
    case IdeaRegistered => history == [IdeaRegistered]
    case AwaitingStage2 => history == [IdeaRegistered, AwaitingStage2]
    case Stage2Fail => AfterFailures(history, |history|)
    case PassOnReprobe => |history| > 2 && AfterFailures(history, |history| - 1)
    case Stage2Pass => history == [IdeaRegistered, Stage2Pass]
    case AwaitingStage3 => history == [IdeaRegistered, Stage2Pass, AwaitingStage3]
    case Stage3Done => history == [IdeaRegistered, Stage2Pass, Stage3Done]
    case last => history == [IdeaRegistered, Stage2Pass, Stage3Done, last]
  }

  /** Registered, then only failures up to the n-th entry. */
  ghost predicate AfterFailures(history: seq<Status>, n: nat) {
    1 < n <= |history| && history[0] == IdeaRegistered && forall i :: 1 <= i < n ==> history[i] == Stage2Fail
  }

  /** Every legal history is one of these. */
  lemma {:induction false} PathOfHistory(history: seq<Status>)
    requires Legal(history)
    ensures PathTo(history)
  {
    var n := |history| - 1;
    if n > 0 {
      PathOfHistory(history[..n]);
      assert history == history[..n] + [history[n]];
      assert Follows(history[n - 1], history[n]);
    }
  }

  /** Stage 3 comes after a Stage 2 pass; a candidate that ever failed Stage 2 never gets there. */
  lemma NoStage3AfterFailure(r: Record)
    requires Safe(r)
    ensures forall k :: 0 <= k < |r.history| && r.history[k] == Stage3Done ==> Stage2Pass in r.history[..k]
    ensures Stage2Fail in r.history ==> r.history[1] == Stage2Fail
    ensures Stage2Fail in r.history ==>
      forall s :: s in r.history ==> s in {IdeaRegistered, Stage2Fail, PassOnReprobe}
  {
    PathOfHistory(r.history);
    forall k | 0 <= k < |r.history| && r.history[k] == Stage3Done
      ensures Stage2Pass in r.history[..k]
    {
      assert r.history[..k][1] == Stage2Pass;
    }
  }
}
