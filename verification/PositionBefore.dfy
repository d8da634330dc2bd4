/** The executed position just before each price row: a merge of sorted trades and sorted prices. */
module PositionBefore {
  import opened Wrappers

  /** A trade's time and the position size after it; the size is missing when it is not a number. */
  datatype Trade = Trade(ts: int, sizeAfter: Option<real>)

  ghost predicate InTimeOrder(trades: seq<Trade>) {
    forall i, j :: 0 <= i < j < |trades| ==> trades[i].ts <= trades[j].ts
  }

  ghost predicate Ascending(times: seq<int>) {
    forall i, j :: 0 <= i < j < |times| ==> times[i] <= times[j]
  }

  /** The size after the last trade before the time that reports one, and 0 without such a trade. */
  function SizeBefore(trades: seq<Trade>, ts: int): real {
    if |trades| == 0 then 0.0
    else
      var last := trades[|trades| - 1];
      if last.ts < ts && last.sizeAfter.Some? then last.sizeAfter.value
      else SizeBefore(trades[..|trades| - 1], ts)
  }

  /** The size after the first n trades. */
  function SizeAfter(trades: seq<Trade>, n: nat): real
    requires n <= |trades|
  {
    if n == 0 then 0.0
    else if trades[n - 1].sizeAfter.Some? then trades[n - 1].sizeAfter.value
    else SizeAfter(trades, n - 1)
  }

  /** The index stands after all trades before the time, and no further. */
  ghost predicate StandsAt(trades: seq<Trade>, n: nat, ts: int) {
    && n <= |trades|
    && (forall i :: 0 <= i < n ==> trades[i].ts < ts)
    && (n < |trades| ==> trades[n].ts >= ts)
  }

  lemma {:induction false} SizeAfterPrefix(trades: seq<Trade>, k: nat, n: nat)
    requires n <= k <= |trades|
    ensures SizeAfter(trades[..k], n) == SizeAfter(trades, n)
  {
    if n > 0 {
      SizeAfterPrefix(trades, k, n - 1);
    }
  }

  lemma {:induction false} SizeAtIndex(trades: seq<Trade>, n: nat, ts: int)
    requires InTimeOrder(trades) && StandsAt(trades, n, ts)
    ensures SizeBefore(trades, ts) == SizeAfter(trades, n)
    decreases |trades|
  {
    if |trades| > 0 {
      var k := |trades| - 1;
      if n <= k {
        assert trades[n].ts <= trades[k].ts;
        SizeAtIndex(trades[..k], n, ts);
        SizeAfterPrefix(trades, k, n);
      } else if trades[k].sizeAfter.None? {
        SizeAtIndex(trades[..k], k, ts);
        SizeAfterPrefix(trades, k, k);
      }
    }
  }

  /** The value is what the last trade before the time that reports a size reports, or 0 when none does. */
  ghost predicate LastReport(trades: seq<Trade>, ts: int, value: real) {
    if exists j :: 0 <= j < |trades| && trades[j].ts < ts && trades[j].sizeAfter.Some? then
      exists j :: 0 <= j < |trades| && trades[j].ts < ts && trades[j].sizeAfter == Some(value)
                  && forall k :: j < k < |trades| && trades[k].ts < ts ==> trades[k].sizeAfter.None?
    else value == 0.0
  }

  lemma {:induction false} SizeIsReported(trades: seq<Trade>, ts: int)
    ensures LastReport(trades, ts, SizeBefore(trades, ts))
  {
    if |trades| > 0 {
      var n := |trades| - 1;
      SizeIsReported(trades[..n], ts);
      if trades[n].ts < ts && trades[n].sizeAfter.Some? {
        assert trades[n].sizeAfter == Some(SizeBefore(trades, ts));
      } else if exists j :: 0 <= j < |trades| && trades[j].ts < ts && trades[j].sizeAfter.Some? {
        var j :| 0 <= j < |trades| && trades[j].ts < ts && trades[j].sizeAfter.Some?;
        assert trades[..n][j] == trades[j];
        var i :| 0 <= i < n && trades[..n][i].ts < ts && trades[..n][i].sizeAfter == Some(SizeBefore(trades[..n], ts))
          && forall k :: i < k < n && trades[..n][k].ts < ts ==> trades[..n][k].sizeAfter.None?;
        assert trades[i] == trades[..n][i];
        assert forall k :: i < k < n ==> trades[k] == trades[..n][k];
      }
    }
  }

  /** `_execution_position_before_by_datetime`, for trades and prices in time order. */
  method PositionsBefore(trades: seq<Trade>, times: seq<int>) returns (out: map<int, real>)
    requires InTimeOrder(trades) && Ascending(times)
    ensures out.Keys == set t | t in times
    ensures forall ts :: ts in out ==> LastReport(trades, ts, out[ts])
  {
    hide LastReport;
    out := map[];
    var idx: nat := 0;
    var position := 0.0;
    for i := 0 to |times|
      invariant idx <= |trades| && position == SizeAfter(trades, idx)
      invariant i < |times| ==> forall k :: 0 <= k < idx ==> trades[k].ts < times[i]
      invariant out.Keys == set t | t in times[..i]
      invariant forall ts :: ts in out ==> out[ts] == SizeBefore(trades, ts)
    {
      while idx < |trades| && trades[idx].ts < times[i]
        invariant idx <= |trades| && position == SizeAfter(trades, idx)
        invariant forall k :: 0 <= k < idx ==> trades[k].ts < times[i]
      {
        if trades[idx].sizeAfter.Some? {
          position := trades[idx].sizeAfter.value;
        }
        idx := idx + 1;
      }
      SizeAtIndex(trades, idx, times[i]);
      assert times[..i + 1] == times[..i] + [times[i]];
      out := out[times[i] := position];
    }
    assert times[..|times|] == times;
    forall ts
      ensures LastReport(trades, ts, SizeBefore(trades, ts))
    {
      SizeIsReported(trades, ts);
    }
  }
}
