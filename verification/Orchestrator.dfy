/**
 The orchestrator: sweeps over the candidates of a batch that persist every step, reprobe
 sessions, and what any sequence of sessions leaves on disk.
 */
module Orchestrator {
  import opened Wrappers
  import opened Candidates

  /** What is persisted: the records of the state file, and the other files. */
  datatype Store = Store(records: seq<Record>, disk: Disk)

  /** Where a sweep stands: left counts the steps before the time budget is spent. */
  datatype Progress = Progress(store: Store, left: nat, changed: bool, failed: bool)

  /** One sweep from candidate i on: it stops when the time is up, or at an exception. */
  function Sweep(w: World, store: Store, i: nat, left: nat, changed: bool): (r: Progress)
    requires i <= |store.records|
    ensures |r.store.records| == |store.records|
    decreases |store.records| - i
  {
    if i == |store.records| || left == 0 then Progress(store, left, changed, false)
    else
      var step := Advance(w, store.records[i], store.disk);
      if step.Err? then Progress(store, left - 1, changed, true)
      else
        Sweep(w, Store(store.records[i := step.value.0], step.value.1), i + 1, left - 1,
              changed || step.value.0 != store.records[i])
  }

  /** At most n sweeps; a sweep that changes nothing is the last. */
  function Sweeps(w: World, store: Store, left: nat, n: nat): (r: Progress)
    ensures |r.store.records| == |store.records|
    decreases n
  {
    if n == 0 then Progress(store, left, false, false)
    else
      var p := Sweep(w, store, 0, left, false);
      if p.failed || !p.changed then p else Sweeps(w, p.store, p.left, n - 1)
  }

  /** A normal session: three sweeps. */
  function Normal(w: World, store: Store, budget: nat): (r: Progress)
    ensures |r.store.records| == |store.records|
  {
    Sweeps(w, store, budget, 3)
  }

  /** The loop of a reprobe session, from candidate i on. */
  function ReprobeFrom(w: World, records: seq<Record>, disk: Disk, i: nat): (r: Result<(seq<Record>, seq<Advice>), string>)
    requires i <= |records|
    ensures r.Ok? ==> |r.value.0| == |records|
    decreases |records| - i
  {
    if i == |records| then Ok((records, []))
    else
      var step := ReprobeOne(w, records[i], disk);
      if step.Err? then Err(step.error)
      else
        var rest := ReprobeFrom(w, records[i := step.value.0], disk, i + 1);
        if rest.Err? then rest
        else Ok((rest.value.0, (if step.value.1.Some? then [step.value.1.value] else []) + rest.value.1))
  }

  /** A reprobe session persists all of its changes or, after an exception, none. */
  function Reprobe(w: World, store: Store): (r: Store)
    ensures |r.records| == |store.records|
  {
    var all := ReprobeFrom(w, store.records, store.disk, 0);
    if all.Ok? then Store(all.value.0, store.disk) else store
  }

  /** No failed candidate lacks what its reprobe needs. */
  ghost predicate AllReprobable(w: World, store: Store) {
    forall i :: 0 <= i < |store.records| && HasFailed(store.records[i]) ==> CanReprobe(w, store.records[i], store.disk)
  }

  /** The advisory: one line for each failed candidate, in their order. */
  ghost predicate AdvisoryOf(w: World, disk: Disk, records: seq<Record>, rows: seq<Advice>)
    decreases records
  {
    if records == [] then rows == []
    else if HasFailed(records[0]) then
      rows != [] && Advised(w, disk, records[0], Some(rows[0])) && AdvisoryOf(w, disk, records[1..], rows[1..])
    else AdvisoryOf(w, disk, records[1..], rows)
  }

  lemma {:induction false} ReprobeFromMeans(w: World, records: seq<Record>, disk: Disk, i: nat)
    requires i <= |records|
    ensures var all := ReprobeFrom(w, records, disk, i);
      && (all.Ok? <==> forall k :: i <= k < |records| && HasFailed(records[k]) ==> CanReprobe(w, records[k], disk))
      && (all.Ok? ==>
            && (forall k :: 0 <= k < i ==> all.value.0[k] == records[k])
            && (forall k :: i <= k < |records| ==> Rejudged(w, disk, records[k], all.value.0[k]))
            && AdvisoryOf(w, disk, records[i..], all.value.1))
    decreases |records| - i
  {
    hide ReprobeOne, Rejudged, Advised, HasFailed, CanReprobe;
    if i < |records| {
      var step := ReprobeOne(w, records[i], disk);
      ReprobeOneMeans(w, records[i], disk);
      AdviceWhenFailed(w, records[i], disk, if step.Ok? then step.value.1 else None);
      if step.Ok? {
        var next := records[i := step.value.0];
        ReprobeFromMeans(w, next, disk, i + 1);
        assert next[i + 1..] == records[i + 1..];
        assert forall k :: i < k < |records| ==> next[k] == records[k];
        assert records[i..][1..] == records[i + 1..];
        var rest := ReprobeFrom(w, next, disk, i + 1);
        assert rest.Ok? && step.value.1.Some? ==> ([step.value.1.value] + rest.value.1)[1..] == rest.value.1;
        assert rest.Ok? ==> [] + rest.value.1 == rest.value.1;
      }
    }
  }

  lemma AdviceWhenFailed(w: World, r: Record, disk: Disk, advice: Option<Advice>)
    ensures HasFailed(r) ==> CanReprobe(w, r, disk) && Advised(w, disk, r, advice) ==> advice.Some?
    ensures !HasFailed(r) && Advised(w, disk, r, advice) ==> advice.None?
  {
  }

  /** Every candidate was rejudged, and the other files are as before. */
  ghost predicate SessionRejudged(w: World, store: Store, persisted: Store) {
    && persisted.disk == store.disk && |persisted.records| == |store.records|
    && forall i :: 0 <= i < |store.records| ==> Rejudged(w, store.disk, store.records[i], persisted.records[i])
  }

  lemma SessionMeans(w: World, store: Store)
    ensures var all := ReprobeFrom(w, store.records, store.disk, 0);
      && (all.Ok? <==> AllReprobable(w, store))
      && (all.Ok? ==> AdvisoryOf(w, store.disk, store.records, all.value.1) && SessionRejudged(w, store, Reprobe(w, store)))
      && (all.Err? ==> Reprobe(w, store) == store)
  {
    ReprobeFromMeans(w, store.records, store.disk, 0);
    assert store.records[0..] == store.records;
    hide ReprobeFrom, Rejudged, HasFailed, CanReprobe;
  }

  // ----- the sessions as they are written

  function Views(candidates: seq<Candidate>): (r: seq<Record>)
    reads candidates
    ensures |r| == |candidates| && forall i :: 0 <= i < |r| ==> r[i] == candidates[i].View()
  {
    if |candidates| == 0 then []
    else Views(candidates[..|candidates| - 1]) + [candidates[|candidates| - 1].View()]
  }

  ghost predicate Separate(candidates: seq<Candidate>) {
    forall i, j :: 0 <= i < j < |candidates| ==> candidates[i] != candidates[j]
  }

  /** Reading the state file makes one object per record. */
  method Load(records: seq<Record>) returns (candidates: seq<Candidate>)
    ensures Separate(candidates) && Views(candidates) == records
    ensures forall k :: 0 <= k < |candidates| ==> fresh(candidates[k])
  {
    candidates := [];
    for i := 0 to |records|
      invariant |candidates| == i && Separate(candidates)
      invariant forall k :: 0 <= k < |candidates| ==> fresh(candidates[k])
      invariant forall k :: 0 <= k < i ==> candidates[k].View() == records[k]
    {
      var c := new Candidate(records[i]);
      candidates := candidates + [c];
    }
  }

  /** Advancing one object changes one view. */
  method StepAt(w: World, candidates: seq<Candidate>, i: nat, ghost records: seq<Record>, disk: Disk)
    returns (r: Result<Disk, string>)
    requires i < |candidates| && Separate(candidates) && Views(candidates) == records
    modifies candidates
    ensures var step := Advance(w, records[i], disk);
      if step.Ok? then r == Ok(step.value.1) && Views(candidates) == records[i := step.value.0]
      else r == Err(step.error) && Views(candidates) == records
  {
    hide Advance;
    r := candidates[i].AdvanceCandidate(w, disk);
  }

  lemma SweepUnfolds(w: World, store: Store, i: nat, left: nat, changed: bool)
    requires i <= |store.records|
    ensures i == |store.records| || left == 0 ==> Sweep(w, store, i, left, changed) == Progress(store, left, changed, false)
    ensures i < |store.records| && left > 0 ==>
      var step := Advance(w, store.records[i], store.disk);
      Sweep(w, store, i, left, changed) ==
        if step.Err? then Progress(store, left - 1, changed, true)
        else Sweep(w, Store(store.records[i := step.value.0], step.value.1), i + 1, left - 1,
                   changed || step.value.0 != store.records[i])
  {
  }

  /** The inner loop of `run_orchestrator`; persisted is what the last write left. */
  method RunSweep(w: World, candidates: seq<Candidate>, store: Store, budget: nat)
    returns (persisted: Store, left: nat, changed: bool, failed: bool)
    requires Separate(candidates) && Views(candidates) == store.records
    modifies candidates
    ensures Progress(persisted, left, changed, failed) == Sweep(w, store, 0, budget, false)
    ensures !failed ==> Views(candidates) == persisted.records
  {
    hide Advance, Sweep, Views, Separate;
    persisted, left, changed, failed := store, budget, false, false;
    var i: nat := 0;
    while i < |candidates| && left > 0
      invariant i <= |candidates| == |persisted.records| && !failed
      invariant Views(candidates) == persisted.records
      invariant Sweep(w, persisted, i, left, changed) == Sweep(w, store, 0, budget, false)
    {
      SweepUnfolds(w, persisted, i, left, changed);
      var before := candidates[i].View();
      var disk := StepAt(w, candidates, i, persisted.records, persisted.disk);
      left := left - 1;
      if disk.Err? {
        failed := true;
        return;
      }
      changed := changed || before != candidates[i].View();
      persisted := Store(Views(candidates), disk.value);
      i := i + 1;
    }
    SweepUnfolds(w, persisted, i, left, changed);
  }

  lemma SweepsUnfolds(w: World, store: Store, left: nat, n: nat)
    ensures n == 0 ==> Sweeps(w, store, left, n) == Progress(store, left, false, false)
    ensures n > 0 ==>
      var p := Sweep(w, store, 0, left, false);
      Sweeps(w, store, left, n) == if p.failed || !p.changed then p else Sweeps(w, p.store, p.left, n - 1)
  {
  }

  /** A normal session of `run_orchestrator` over an existing state file. */
  method RunNormal(w: World, store: Store, budget: nat) returns (persisted: Store, ok: bool)
    ensures persisted == Normal(w, store, budget).store && ok == !Normal(w, store, budget).failed
  {
    hide Sweep, Sweeps, Views, Separate;
    var candidates := Load(store.records);
    persisted := store;
    var left := budget;
    var n: nat := 3;
    while n > 0
      invariant n <= 3 && Separate(candidates) && Views(candidates) == persisted.records
      invariant forall k :: 0 <= k < |candidates| ==> fresh(candidates[k])
      invariant Sweeps(w, persisted, left, n).store == Normal(w, store, budget).store
      invariant Sweeps(w, persisted, left, n).failed == Normal(w, store, budget).failed
    {
      SweepsUnfolds(w, persisted, left, n);
      var moved, failed;
      persisted, left, moved, failed := RunSweep(w, candidates, persisted, left);
      if failed {
        return persisted, false;
      }
      if !moved {
        return persisted, true;
      }
      n := n - 1;
    }
    SweepsUnfolds(w, persisted, left, n);
    ok := true;
  }

  /** A reprobe session: state is written only when some candidate changed. */
  method RunReprobe(w: World, store: Store) returns (persisted: Store, advisory: Result<seq<Advice>, string>)
    ensures persisted == Reprobe(w, store)
    ensures var all := ReprobeFrom(w, store.records, store.disk, 0);
      if all.Ok? then advisory.Ok? && advisory.value == all.value.1 else advisory == Err(all.error)
    ensures advisory.Ok? <==> AllReprobable(w, store)
    ensures advisory.Ok? ==> AdvisoryOf(w, store.disk, store.records, advisory.value)
    ensures if advisory.Ok? then SessionRejudged(w, store, persisted) else persisted == store
  {
    SessionMeans(w, store);
    hide *;
    var candidates := Load(store.records);
    var rows: seq<Advice> := [];
    ReprobeStarts(w, store);
    for i := 0 to |candidates|
      invariant Separate(candidates) && |candidates| == |store.records|
      invariant forall k :: 0 <= k < |candidates| ==> fresh(candidates[k])
      invariant ReprobedTo(w, store, rows, Views(candidates), i)
    {
      ReprobeMoves(w, store, rows, Views(candidates), i);
      var advice := ReprobeAt(w, candidates, i, Views(candidates), store.disk);
      if advice.Err? {
        return store, Err(advice.error);
      }
      rows := rows + if advice.value.Some? then [advice.value.value] else [];
    }
    ReprobeEnds(w, store, rows, Views(candidates));
    persisted := if exists row :: row in rows && row.changed then Store(Views(candidates), store.disk) else store;
    advisory := Ok(rows);
  }

  /** The loop so far and the rest of it complete the session, and without a changed row nothing changed. */
  ghost predicate ReprobedTo(w: World, store: Store, rows: seq<Advice>, now: seq<Record>, i: nat) {
    && i <= |now| == |store.records|
    && Continues(ReprobeFrom(w, store.records, store.disk, 0), rows, ReprobeFrom(w, now, store.disk, i))
    && ((forall row :: row in rows ==> !row.changed) ==> now == store.records)
  }

  lemma ReprobeStarts(w: World, store: Store)
    ensures ReprobedTo(w, store, [], store.records, 0)
  {
  }

  lemma ReprobeMoves(w: World, store: Store, rows: seq<Advice>, now: seq<Record>, i: nat)
    requires i < |now| && ReprobedTo(w, store, rows, now, i)
    ensures var step := ReprobeOne(w, now[i], store.disk);
      if step.Ok? then
        ReprobedTo(w, store, rows + (if step.value.1.Some? then [step.value.1.value] else []),
                   now[i := step.value.0], i + 1)
      else Reprobe(w, store) == store && ReprobeFrom(w, store.records, store.disk, 0) == Err(step.error)
  {
    hide ReprobeOne, ReprobeFrom;
    ReprobeUnfolds(w, now, store.disk, i);
    ReprobeOneUnchanged(w, now[i], store.disk);
    var step := ReprobeOne(w, now[i], store.disk);
    var more := if step.Ok? && step.value.1.Some? then [step.value.1.value] else [];
    ContinuesOn(ReprobeFrom(w, store.records, store.disk, 0), rows, ReprobeFrom(w, now, store.disk, i), more,
                if step.Ok? then ReprobeFrom(w, now[i := step.value.0], store.disk, i + 1) else Err(step.error));
    if step.Err? {
      StopsAtError(w, store, rows + more, step.error);
    } else {
      hide Continues;
      assert forall row :: row in rows ==> row in rows + more;
      assert more != [] ==> more[0] in rows + more;
    }
  }

  lemma ContinuesOn(all: Result<(seq<Record>, seq<Advice>), string>, rows: seq<Advice>,
                    middle: Result<(seq<Record>, seq<Advice>), string>, more: seq<Advice>,
                    rest: Result<(seq<Record>, seq<Advice>), string>)
    requires Continues(all, rows, middle) && Continues(middle, more, rest)
    ensures Continues(all, rows + more, rest)
  {
  }

  lemma StopsAtError(w: World, store: Store, rows: seq<Advice>, error: string)
    requires Continues(ReprobeFrom(w, store.records, store.disk, 0), rows, Err(error))
    ensures Reprobe(w, store) == store && ReprobeFrom(w, store.records, store.disk, 0) == Err(error)
  {
  }

  lemma ReprobeEnds(w: World, store: Store, rows: seq<Advice>, now: seq<Record>)
    requires ReprobedTo(w, store, rows, now, |now|)
    ensures Reprobe(w, store) == if exists row :: row in rows && row.changed then Store(now, store.disk) else store
    ensures var all := ReprobeFrom(w, store.records, store.disk, 0); all.Ok? && rows == all.value.1
  {
  }

  lemma ReprobeUnfolds(w: World, records: seq<Record>, disk: Disk, i: nat)
    requires i <= |records|
    ensures i == |records| ==> ReprobeFrom(w, records, disk, i) == Ok((records, []))
    ensures i < |records| ==>
      var step := ReprobeOne(w, records[i], disk);
      Continues(ReprobeFrom(w, records, disk, i),
                if step.Ok? && step.value.1.Some? then [step.value.1.value] else [],
                if step.Ok? then ReprobeFrom(w, records[i := step.value.0], disk, i + 1) else Err(step.error))
  {
  }

  /** The rest of the loop completes the whole. */
  ghost predicate Continues(all: Result<(seq<Record>, seq<Advice>), string>, rows: seq<Advice>,
                            rest: Result<(seq<Record>, seq<Advice>), string>) {
    if rest.Ok? then all.Ok? && all.value.0 == rest.value.0 && all.value.1 == rows + rest.value.1
    else all == rest
  }

  lemma ReprobeOneUnchanged(w: World, r: Record, disk: Disk)
    ensures ReprobeOne(w, r, disk).Ok? ==>
      var step := ReprobeOne(w, r, disk).value;
      (step.1.None? || !step.1.value.changed) ==> step.0 == r
  {
  }

  method ReprobeAt(w: World, candidates: seq<Candidate>, i: nat, ghost records: seq<Record>, disk: Disk)
    returns (r: Result<Option<Advice>, string>)
    requires i < |candidates| && Separate(candidates) && Views(candidates) == records
    modifies candidates
    ensures var step := ReprobeOne(w, records[i], disk);
      if step.Ok? then r == Ok(step.value.1) && Views(candidates) == records[i := step.value.0]
      else r == Err(step.error) && Views(candidates) == records
  {
    hide ReprobeOne;
    r := candidates[i].Reprobe(w, disk);
  }
}
