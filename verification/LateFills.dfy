/**
 Which late fills the funding-carry machine can bear: exactly those during which every
 funding row is quiet, whether or not the position is thought open.
 */
module LateFills {
  import opened Wrappers
  import opened FillDriven
  import opened FundingCarry

  /** What each row emits in the run without fills. */
  function Alone(p: Params, frame: seq<FundingRow>): (r: seq<Option<Signal>>)
    ensures |r| == |frame|
  {
    Run(FundingMachine(p), [], false, frame).1
  }

  function Driven(p: Params, frame: seq<FundingRow>, fills: seq<Timed<Fill>>): (r: seq<Option<Signal>>)
    ensures |r| == |frame|
  {
    Run(FundingMachine(p), fills, false, frame).1
  }

  /** The number of signals before row i. */
  function Before(p: Params, frame: seq<FundingRow>, i: nat): nat
    requires i <= |frame|
  {
    |Rows(Alone(p, frame)[..i])|
  }

  /** The position before row i in the run without fills. */
  function Position(p: Params, frame: seq<FundingRow>, i: nat): bool
    requires i <= |frame|
  {
    Run(FundingMachine(p), [], false, frame[..i]).0.state
  }

  /** Neither position lets the row signal. */
  predicate Quiet(p: Params, row: FundingRow) {
    Decide(p, true, row).None? && Decide(p, false, row).None?
  }

  ghost predicate TimeOrder(frame: seq<FundingRow>) {
    forall i, j :: 0 <= i < j < |frame| ==> frame[i].ts <= frame[j].ts
  }

  ghost predicate FillOrder(fills: seq<Timed<Fill>>) {
    forall i, j :: 0 <= i < j < |fills| ==> fills[i].ts <= fills[j].ts
  }

  /** One matching fill per signal of the run without fills, in time order, each strictly after its row. */
  ghost predicate OneFillEach(p: Params, frame: seq<FundingRow>, fills: seq<Timed<Fill>>) {
    && FillOrder(fills) && |fills| == |Rows(Alone(p, frame))|
    && forall r :: 0 <= r < |frame| && Alone(p, frame)[r].Some? ==>
      && Before(p, frame, r) < |fills|
      && frame[r].ts < fills[Before(p, frame, r)].ts
      && Matches(Alone(p, frame)[r].value, fills[Before(p, frame, r)].fill)
  }

  /** Row i comes after a signal and before its fill. */
  ghost predicate Waiting(p: Params, frame: seq<FundingRow>, fills: seq<Timed<Fill>>, i: nat)
    requires i < |frame|
  {
    exists r :: 0 <= r < i && Alone(p, frame)[r].Some?
                && Before(p, frame, r) < |fills| && frame[i].ts < fills[Before(p, frame, r)].ts
  }

  ghost predicate QuietUpTo(p: Params, frame: seq<FundingRow>, fills: seq<Timed<Fill>>, n: nat)
    requires n <= |frame|
  {
    forall i :: 0 <= i < n && Waiting(p, frame, fills, i) ==> Quiet(p, frame[i])
  }

  // ----- the run without fills

  /** One row of the run without fills. */
  lemma AloneStep(p: Params, frame: seq<FundingRow>, i: nat)
    requires i < |frame|
    ensures Alone(p, frame)[i] == Decide(p, Position(p, frame, i), frame[i])
    ensures Position(p, frame, i + 1) ==
      if Alone(p, frame)[i].Some? then !Position(p, frame, i) else Position(p, frame, i)
    ensures Before(p, frame, i + 1) == Before(p, frame, i) + if Alone(p, frame)[i].Some? then 1 else 0
  {
    ImmediateEmits(FundingMachine(p), false, frame, i);
    RunSnoc(FundingMachine(p), [], false, frame, i);
    RowsNext(Alone(p, frame), i);
  }

  /** Signals alternate with the position: an even number leaves it flat. */
  lemma {:induction false} PositionParity(p: Params, frame: seq<FundingRow>, i: nat)
    requires i <= |frame|
    ensures Position(p, frame, i) == (Before(p, frame, i) % 2 == 1)
  {
    if i > 0 {
      PositionParity(p, frame, i - 1);
      AloneStep(p, frame, i - 1);
    } else {
      assert Alone(p, frame)[..0] == [];
    }
  }

  /** The j-th signal is an entry exactly when j is even. */
  lemma SignalParity(p: Params, frame: seq<FundingRow>, j: nat)
    requires j < |Rows(Alone(p, frame))|
    ensures Rows(Alone(p, frame))[j].action == if j % 2 == 0 then Entry else Exit
  {
    hide Alone, Before, Position;
    var r := SignalEvent(Alone(p, frame), j);
    CountIs(p, frame, r);
    PositionParity(p, frame, r);
    AloneStep(p, frame, r);
  }

  lemma CountIs(p: Params, frame: seq<FundingRow>, r: nat)
    requires r <= |frame|
    ensures Before(p, frame, r) == |Rows(Alone(p, frame)[..r])|
  {
  }

  lemma BeforeGrows(p: Params, frame: seq<FundingRow>, i: nat, k: nat)
    requires i <= k <= |frame|
    ensures Before(p, frame, i) <= Before(p, frame, k) <= |Rows(Alone(p, frame))|
  {
    RowsMonotone(Alone(p, frame), i, k);
    RowsMonotone(Alone(p, frame), k, |frame|);
    assert Alone(p, frame)[..|frame|] == Alone(p, frame);
  }

  // ----- waiting is a matter of the last signal

  /** The fill of the next signal is still to come. */
  lemma NextFillAhead(p: Params, frame: seq<FundingRow>, fills: seq<Timed<Fill>>, i: nat)
    requires TimeOrder(frame) && OneFillEach(p, frame, fills) && i < |frame|
    ensures Before(p, frame, i) <= |fills|
    ensures Before(p, frame, i) < |fills| ==> frame[i].ts < fills[Before(p, frame, i)].ts
  {
    var j := Before(p, frame, i);
    BeforeGrows(p, frame, i, i);
    if j < |fills| {
      var r := SignalEvent(Alone(p, frame), j);
      CountIs(p, frame, r);
      if r < i {
        AloneStep(p, frame, r);
        BeforeGrows(p, frame, r + 1, i);
      }
    }
  }

  lemma WaitingForLast(p: Params, frame: seq<FundingRow>, fills: seq<Timed<Fill>>, i: nat)
    requires FillOrder(fills) && i < |frame| && Before(p, frame, i) <= |fills| && Waiting(p, frame, fills, i)
    ensures Before(p, frame, i) > 0 && frame[i].ts < fills[Before(p, frame, i) - 1].ts
  {
    hide Alone, Before;
    var r :| 0 <= r < i && Alone(p, frame)[r].Some?
             && Before(p, frame, r) < |fills| && frame[i].ts < fills[Before(p, frame, r)].ts;
    AloneStep(p, frame, r);
    BeforeGrows(p, frame, r + 1, i);
    assert Before(p, frame, r) < Before(p, frame, i) - 1 ==>
      fills[Before(p, frame, r)].ts <= fills[Before(p, frame, i) - 1].ts;
  }

  lemma LastIsAwaited(p: Params, frame: seq<FundingRow>, fills: seq<Timed<Fill>>, i: nat)
    requires i < |frame| && 0 < Before(p, frame, i) <= |fills| && frame[i].ts < fills[Before(p, frame, i) - 1].ts
    ensures Waiting(p, frame, fills, i)
  {
    hide Alone, Before;
    var j := Before(p, frame, i);
    BeforeGrows(p, frame, i, i);
    var r := SignalEvent(Alone(p, frame), j - 1);
    CountIs(p, frame, r);
    if r >= i {
      BeforeGrows(p, frame, i, r);
    }
  }

  lemma WaitingMeans(p: Params, frame: seq<FundingRow>, fills: seq<Timed<Fill>>, i: nat)
    requires OneFillEach(p, frame, fills) && i < |frame|
    ensures Before(p, frame, i) <= |fills|
    ensures Waiting(p, frame, fills, i) <==>
      Before(p, frame, i) > 0 && frame[i].ts < fills[Before(p, frame, i) - 1].ts
  {
    BeforeGrows(p, frame, i, i);
    hide Alone, Before, Waiting;
    if Waiting(p, frame, fills, i) {
      WaitingForLast(p, frame, fills, i);
    } else if Before(p, frame, i) > 0 && frame[i].ts < fills[Before(p, frame, i) - 1].ts {
      LastIsAwaited(p, frame, fills, i);
    }
  }

  // ----- the driven run beside it

  /** Level with the run without fills, its last fill applied; or one fill behind it. */
  ghost predicate Tracks(p: Params, frame: seq<FundingRow>, fills: seq<Timed<Fill>>, i: nat, driven: Book<bool>)
    requires i <= |frame|
  {
    var j := Before(p, frame, i);
    && j <= |fills|
    && (|| (driven == Book(Position(p, frame, i), j) && (j > 0 ==> i > 0 && fills[j - 1].ts <= frame[i - 1].ts))
        || (j > 0 && driven == Book(!Position(p, frame, i), j - 1)))
  }

  lemma FillOf(p: Params, frame: seq<FundingRow>, fills: seq<Timed<Fill>>, r: nat)
    requires OneFillEach(p, frame, fills) && r < |frame| && Alone(p, frame)[r].Some?
    ensures Before(p, frame, r) < |fills|
    ensures Matches(Alone(p, frame)[r].value, fills[Before(p, frame, r)].fill)
  {
  }

  /** The fill of the last signal restores the position, whatever it was. */
  lemma LastFillRestores(p: Params, frame: seq<FundingRow>, fills: seq<Timed<Fill>>, i: nat, position: bool)
    requires OneFillEach(p, frame, fills) && i <= |frame| && 0 < Before(p, frame, i) <= |fills|
    ensures AfterFill(position, fills[Before(p, frame, i) - 1].fill) == Position(p, frame, i)
  {
    hide Alone, Before, Position, OneFillEach;
    var j := Before(p, frame, i) - 1;
    BeforeGrows(p, frame, i, i);
    var r := SignalEvent(Alone(p, frame), j);
    CountIs(p, frame, r);
    FillOf(p, frame, fills, r);
    AloneStep(p, frame, r);
    PositionParity(p, frame, r);
    PositionParity(p, frame, i);
  }

  /** After draining before row i: one fill behind exactly while waiting. */
  lemma DrainedAt(p: Params, frame: seq<FundingRow>, fills: seq<Timed<Fill>>, i: nat, driven: Book<bool>)
    requires TimeOrder(frame) && OneFillEach(p, frame, fills) && i < |frame| && Tracks(p, frame, fills, i, driven)
    ensures driven.used <= |fills|
    ensures Waiting(p, frame, fills, i) ==> Before(p, frame, i) > 0
    ensures Drain(FundingMachine(p), fills, driven, frame[i].ts) ==
      if Waiting(p, frame, fills, i) then Book(!Position(p, frame, i), Before(p, frame, i) - 1)
      else Book(Position(p, frame, i), Before(p, frame, i))
  {
    hide Alone, Before, Position, Waiting, OneFillEach;
    WaitingMeans(p, frame, fills, i);
    NextFillAhead(p, frame, fills, i);
    if driven.used < Before(p, frame, i) {
      LastFillRestores(p, frame, fills, i, driven.state);
    }
  }

  /** One row: the runs agree on it exactly when it is quiet or no fill is awaited, and then go on side by side. */
  lemma RowAgrees(p: Params, frame: seq<FundingRow>, fills: seq<Timed<Fill>>, i: nat, driven: Book<bool>)
    requires TimeOrder(frame) && OneFillEach(p, frame, fills) && i < |frame| && Tracks(p, frame, fills, i, driven)
    requires |fills| > 0
    ensures driven.used <= |fills|
    ensures var step := Step(FundingMachine(p), fills, driven, frame[i]);
      && step.1 == Decide(p, Position(p, frame, i) != Waiting(p, frame, fills, i), frame[i])
      && (step.1 == Alone(p, frame)[i] <==> (Waiting(p, frame, fills, i) ==> Quiet(p, frame[i])))
      && (step.1 == Alone(p, frame)[i] ==> Tracks(p, frame, fills, i + 1, step.0))
  {
    DrainedAt(p, frame, fills, i, driven);
    WaitingMeans(p, frame, fills, i);
    AloneStep(p, frame, i);
    BeforeGrows(p, frame, i + 1, i + 1);
    hide Alone, Before, Position, Waiting, OneFillEach, Drain;
    assert |Rows(Alone(p, frame))| == |fills| by {
      FillCount(p, frame, fills);
    }
  }

  lemma FillCount(p: Params, frame: seq<FundingRow>, fills: seq<Timed<Fill>>)
    requires OneFillEach(p, frame, fills)
    ensures |Rows(Alone(p, frame))| == |fills|
  {
  }

  lemma StartTracks(p: Params, frame: seq<FundingRow>, fills: seq<Timed<Fill>>)
    ensures Tracks(p, frame, fills, 0, Book(false, 0))
  {
    assert Alone(p, frame)[..0] == [];
  }

  /** While every waiting row is quiet, the driven run goes beside the run without fills. */
  lemma {:induction false} SideBySide(p: Params, frame: seq<FundingRow>, fills: seq<Timed<Fill>>, n: nat)
    requires TimeOrder(frame) && OneFillEach(p, frame, fills) && n <= |frame| && |fills| > 0
    requires QuietUpTo(p, frame, fills, n)
    ensures Tracks(p, frame, fills, n, Run(FundingMachine(p), fills, false, frame[..n]).0)
    ensures Driven(p, frame, fills)[..n] == Alone(p, frame)[..n]
  {
    hide Alone, Driven, Tracks, OneFillEach, Waiting, Quiet, Run, TimeOrder, Step;
    if n == 0 {
      StartTracks(p, frame, fills);
      NothingRun(p, frame, fills);
    } else {
      SideBySide(p, frame, fills, n - 1);
      DrivenStep(p, frame, fills, n - 1);
      RowAgrees(p, frame, fills, n - 1, Run(FundingMachine(p), fills, false, frame[..n - 1]).0);
      PrefixSnoc(Driven(p, frame, fills), n - 1);
      PrefixSnoc(Alone(p, frame), n - 1);
    }
  }

  lemma NothingRun(p: Params, frame: seq<FundingRow>, fills: seq<Timed<Fill>>)
    ensures Run(FundingMachine(p), fills, false, frame[..0]).0 == Book(false, 0)
  {
  }

  lemma PrefixSnoc(s: seq<Option<Signal>>, i: nat)
    requires i < |s|
    ensures s[..i + 1] == s[..i] + [s[i]]
  {
  }

  lemma DrivenStep(p: Params, frame: seq<FundingRow>, fills: seq<Timed<Fill>>, i: nat)
    requires i < |frame|
    ensures var book := Run(FundingMachine(p), fills, false, frame[..i]).0;
      && Driven(p, frame, fills)[i] == Step(FundingMachine(p), fills, book, frame[i]).1
      && Run(FundingMachine(p), fills, false, frame[..i + 1]).0 == Step(FundingMachine(p), fills, book, frame[i]).0
  {
    RunPrefix(FundingMachine(p), fills, false, frame, i + 1);
    RunSnoc(FundingMachine(p), fills, false, frame, i);
    assert Driven(p, frame, fills)[..i + 1][i] == Driven(p, frame, fills)[i];
  }

  // ----- a loud row while waiting parts the runs for good

  lemma {:induction false} DrainAdvances(p: Params, fills: seq<Timed<Fill>>, b: Book<bool>, upTo: int)
    requires b.used <= |fills|
    ensures var d := Drain(FundingMachine(p), fills, b, upTo);
      && b.used <= d.used <= |fills| && (d.used == b.used ==> d == b)
      && forall k :: b.used <= k < d.used ==> fills[k].ts <= upTo
    decreases |fills| - b.used
  {
    if b.used < |fills| && fills[b.used].ts <= upTo {
      DrainAdvances(p, fills, Book(AfterFill(b.state, fills[b.used].fill), b.used + 1), upTo);
    }
  }

  /** After the first r rows: at least so many fills, the position is stale with exactly so many, and those used were due. */
  ghost predicate StaleOrFilled(frame: seq<FundingRow>, fills: seq<Timed<Fill>>, r: nat, b: Book<bool>, used: nat, stale: bool)
    requires r <= |frame|
  {
    && used <= b.used <= |fills| && (b.used == used ==> b.state == stale)
    && (used < b.used ==> r > 0 && fills[used].ts <= frame[r - 1].ts)
  }

  lemma StepStaysStale(p: Params, frame: seq<FundingRow>, fills: seq<Timed<Fill>>, r: nat, b: Book<bool>, used: nat, stale: bool)
    requires TimeOrder(frame) && r < |frame| && |fills| > 0 && StaleOrFilled(frame, fills, r, b, used, stale)
    ensures var step := Step(FundingMachine(p), fills, b, frame[r]);
      && StaleOrFilled(frame, fills, r + 1, step.0, used, stale)
      && (step.1 == Decide(p, stale, frame[r]) || (used < |fills| && fills[used].ts <= frame[r].ts))
  {
    DrainAdvances(p, fills, b, frame[r].ts);
    hide Drain;
  }

  lemma {:induction false} StaysStale(p: Params, frame: seq<FundingRow>, fills: seq<Timed<Fill>>, i: nat, r: nat,
                                      used: nat, stale: bool)
    requires TimeOrder(frame) && i <= r <= |frame| && |fills| > 0 && used <= |fills|
    requires Run(FundingMachine(p), fills, false, frame[..i]).0 == Book(stale, used)
    ensures StaleOrFilled(frame, fills, r, Run(FundingMachine(p), fills, false, frame[..r]).0, used, stale)
    decreases r
  {
    hide Run, Step, TimeOrder;
    if i < r {
      StaysStale(p, frame, fills, i, r - 1, used, stale);
      DrivenStep(p, frame, fills, r - 1);
      StepStaysStale(p, frame, fills, r - 1, Run(FundingMachine(p), fills, false, frame[..r - 1]).0, used, stale);
    }
  }

  lemma RowsAt<G>(emitted: seq<Option<G>>, i: nat)
    requires i < |emitted| && emitted[i].Some?
    ensures |Rows(emitted[..i])| < |Rows(emitted)| && Rows(emitted)[|Rows(emitted[..i])|] == emitted[i].value
  {
    RowsNext(emitted, i);
    RowsConcat(emitted[..i + 1], emitted[i + 1..]);
    assert emitted[..i + 1] + emitted[i + 1..] == emitted;
  }

  /** A row acted on with the stale position gives the wrong action for its place. */
  lemma StaleAction(p: Params, frame: seq<FundingRow>, i: nat, row: FundingRow)
    requires i < |frame| && Before(p, frame, i) < |Rows(Alone(p, frame))|
    ensures Decide(p, !Position(p, frame, i), row).Some? ==>
      Decide(p, !Position(p, frame, i), row).value.action != Rows(Alone(p, frame))[Before(p, frame, i)].action
  {
    PositionParity(p, frame, i);
    SignalParity(p, frame, Before(p, frame, i));
    hide Alone, Before, Position;
  }

  /** Where row i was the first to differ: the rest of the rows cannot make up for it. */
  lemma Diverges(p: Params, frame: seq<FundingRow>, fills: seq<Timed<Fill>>, i: nat)
    requires TimeOrder(frame) && OneFillEach(p, frame, fills) && i < |frame| && |fills| > 0
    requires QuietUpTo(p, frame, fills, i) && Waiting(p, frame, fills, i) && !Quiet(p, frame[i])
    ensures Rows(Driven(p, frame, fills)) != Rows(Alone(p, frame))
  {
    var alone, driven, j := Alone(p, frame), Driven(p, frame, fills), Before(p, frame, i);
    var book := Run(FundingMachine(p), fills, false, frame[..i]).0;
    SideBySide(p, frame, fills, i);
    RowAgrees(p, frame, fills, i, book);
    DrivenStep(p, frame, fills, i);
    WaitingMeans(p, frame, fills, i);
    DrainedAt(p, frame, fills, i, book);
    DrainAdvances(p, fills, book, frame[i].ts);
    AloneStep(p, frame, i);
    CountIs(p, frame, i);
    hide Alone, Before, Position, Waiting, OneFillEach, Run, Driven, Drain, Step, Rows;
    if Rows(driven) == Rows(alone) {
      if driven[i].Some? {
        RowsAt(driven, i);
        StaleAction(p, frame, i, frame[i]);
      } else {
        RowsAt(alone, i);
        LaterSignalDiffers(p, frame, fills, i, j);
      }
    }
  }

  /** Once row i was missed, the signal in its place comes later or with the wrong action. */
  lemma LaterSignalDiffers(p: Params, frame: seq<FundingRow>, fills: seq<Timed<Fill>>, i: nat, j: nat)
    requires TimeOrder(frame) && i < |frame| && 0 < j <= |fills| && j == Before(p, frame, i)
    requires Run(FundingMachine(p), fills, false, frame[..i]).0 == Book(!Position(p, frame, i), j - 1)
    requires frame[i].ts < fills[j - 1].ts
    requires |Rows(Driven(p, frame, fills)[..i])| == j && Driven(p, frame, fills)[i].None?
    requires Alone(p, frame)[i].Some? && j < |Rows(Alone(p, frame))| && Rows(Alone(p, frame))[j] == Alone(p, frame)[i].value
    ensures Rows(Driven(p, frame, fills)) != Rows(Alone(p, frame))
  {
    var driven := Driven(p, frame, fills);
    AloneStep(p, frame, i);
    hide Alone, Before, Position, Run, Driven, Step;
    if j < |Rows(driven)| {
      var r := SignalEvent(driven, j);
      if r < i {
        RowsNext(driven, r);
        RowsMonotone(driven, r + 1, i);
      }
      hide Rows;
      StaleAction(p, frame, i, frame[r]);
      StaysStale(p, frame, fills, i, r, j - 1, !Position(p, frame, i));
      DrivenStep(p, frame, fills, r);
      StepStaysStale(p, frame, fills, r, Run(FundingMachine(p), fills, false, frame[..r]).0, j - 1, !Position(p, frame, i));
      SignalTime(p, frame, fills, r);
    }
  }

  /** A signal carries its row's time. */
  lemma SignalTime(p: Params, frame: seq<FundingRow>, fills: seq<Timed<Fill>>, r: nat)
    requires r < |frame| && Driven(p, frame, fills)[r].Some?
    ensures Driven(p, frame, fills)[r].value.ts == frame[r].ts
  {
    DrivenStep(p, frame, fills, r);
    hide Drain, Run, Driven;
  }

  /**
   With one matching fill per signal, however late, the driven machine emits the rows of
   the run without fills exactly when every row between a signal and its fill is quiet.
   */
  lemma LateFillsExactly(p: Params, frame: seq<FundingRow>, fills: seq<Timed<Fill>>)
    requires TimeOrder(frame) && OneFillEach(p, frame, fills)
    ensures Rows(Driven(p, frame, fills)) == Rows(Alone(p, frame)) <==> QuietUpTo(p, frame, fills, |frame|)
  {
    var n := |frame|;
    if |fills| > 0 {
      if QuietUpTo(p, frame, fills, n) {
        SideBySide(p, frame, fills, n);
        assert Driven(p, frame, fills)[..n] == Driven(p, frame, fills) && Alone(p, frame)[..n] == Alone(p, frame);
      } else {
        hide Alone, Driven, Waiting, Quiet, OneFillEach;
        var i := FirstLoud(p, frame, fills, n);
        Diverges(p, frame, fills, i);
      }
    } else {
      NeverWaiting(p, frame);
    }
  }

  lemma NeverWaiting(p: Params, frame: seq<FundingRow>)
    ensures QuietUpTo(p, frame, [], |frame|)
  {
  }

  lemma {:induction false} FirstLoud(p: Params, frame: seq<FundingRow>, fills: seq<Timed<Fill>>, n: nat) returns (i: nat)
    requires n <= |frame| && !QuietUpTo(p, frame, fills, n)
    ensures i < n && QuietUpTo(p, frame, fills, i) && Waiting(p, frame, fills, i) && !Quiet(p, frame[i])
  {
    i := n - 1;
    if !QuietUpTo(p, frame, fills, n - 1) {
      i := FirstLoud(p, frame, fills, n - 1);
    }
  }

  /** The example of two paying rows: the second is not quiet while the first signal waits for its fill. */
  lemma LateFillExample(p: Params)
    requires p.minApr < 1095.0
    ensures var fills := [Timed(3, Fill(Sell, Entry))];
      && Rows(Driven(p, TwoPayingRows(), fills)) != Rows(Alone(p, TwoPayingRows()))
      && |Rows(Alone(p, TwoPayingRows()))| == 1 && |Rows(Driven(p, TwoPayingRows(), fills))| == 2
  {
    LateFillRepeatsEntry(p);
    var frame, fills := TwoPayingRows(), [Timed(3, Fill(Sell, Entry))];
    assert Apr(1.0, 8.0) == 1095.0;
    assert EntryAllowed(p, 1095.0, frame[0]) && EntryAllowed(p, 1095.0, frame[1]);
    NothingRun(p, frame, []);
    assert Alone(p, frame)[..0] == [];
    AloneStep(p, frame, 0);
    AloneStep(p, frame, 1);
    assert Alone(p, frame)[..2] == Alone(p, frame);
    hide Alone, Position, Run;
    assert OneFillEach(p, frame, fills);
    assert Waiting(p, frame, fills, 1);
    LateFillsExactly(p, frame, fills);
  }
}
