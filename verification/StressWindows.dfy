/** Stress windows: the maximal runs of a daily mask.  Days stand for their dates, in order. */
module StressWindows {
  import opened Wrappers

  /** First and last day of a window. */
  datatype Window = Window(start: nat, end: nat)

  ghost predicate InWindows(windows: seq<Window>, day: nat) {
    exists k :: 0 <= k < |windows| && windows[k].start <= day <= windows[k].end
  }

  /** Windows in order, with at least one day between neighbours. */
  ghost predicate Separated(windows: seq<Window>) {
    && (forall k :: 0 <= k < |windows| ==> windows[k].start <= windows[k].end)
    && (forall j, k :: 0 <= j < k < |windows| ==> windows[j].end + 1 < windows[k].start)
  }

  /** The windows of a mask: separated, and covering exactly its days. */
  ghost predicate WindowsOf(mask: seq<bool>, windows: seq<Window>) {
    && Separated(windows)
    && (forall k :: 0 <= k < |windows| ==> windows[k].end < |mask|)
    && (forall day :: 0 <= day < |mask| ==> (mask[day] <==> InWindows(windows, day)))
  }

  /** The loop variables after i days: the closed windows, and where a run still open began. */
  ghost predicate SoFar(mask: seq<bool>, windows: seq<Window>, start: Option<nat>, i: nat)
    requires i <= |mask|
  {
    && (start.Some? <==> i > 0 && mask[i - 1])
    && match start
       case None => WindowsOf(mask[..i], windows)
       case Some(s) => s < i && WindowsOf(mask[..i], windows + [Window(s, i - 1)])
  }

  lemma InLast(windows: seq<Window>, w: Window, day: nat)
    ensures InWindows(windows + [w], day) <==> InWindows(windows, day) || w.start <= day <= w.end
  {
    assert (windows + [w])[|windows|] == w;
    if InWindows(windows, day) {
      var k :| 0 <= k < |windows| && windows[k].start <= day <= windows[k].end;
      assert (windows + [w])[k] == windows[k];
    }
  }

  /** An inactive day adds nothing. */
  lemma QuietDay(mask: seq<bool>, windows: seq<Window>, i: nat)
    requires i < |mask| && !mask[i] && WindowsOf(mask[..i], windows)
    ensures WindowsOf(mask[..i + 1], windows)
  {
    forall day | 0 <= day < i + 1
      ensures mask[..i + 1][day] <==> InWindows(windows, day)
    {
      assert day < i ==> mask[..i][day] == mask[..i + 1][day];
    }
  }

  /** An active day after an inactive one begins a window. */
  lemma FirstDay(mask: seq<bool>, windows: seq<Window>, i: nat)
    requires i < |mask| && mask[i] && WindowsOf(mask[..i], windows) && (i > 0 ==> !mask[i - 1])
    ensures WindowsOf(mask[..i + 1], windows + [Window(i, i)])
  {
    assert i > 0 ==> !InWindows(windows, i - 1);
    forall day | 0 <= day < i + 1
      ensures mask[..i + 1][day] <==> InWindows(windows + [Window(i, i)], day)
    {
      InLast(windows, Window(i, i), day);
      assert day < i ==> mask[..i][day] == mask[..i + 1][day];
    }
  }

  /** An active day after an active one extends the last window. */
  lemma NextDay(mask: seq<bool>, windows: seq<Window>, s: nat, i: nat)
    requires 0 < i < |mask| && mask[i] && s < i && WindowsOf(mask[..i], windows + [Window(s, i - 1)])
    ensures WindowsOf(mask[..i + 1], windows + [Window(s, i)])
  {
    var was := windows + [Window(s, i - 1)];
    assert was[|windows|] == Window(s, i - 1);
    assert forall k :: 0 <= k < |windows| ==> was[k] == windows[k];
    forall day | 0 <= day < i + 1
      ensures mask[..i + 1][day] <==> InWindows(windows + [Window(s, i)], day)
    {
      InLast(windows, Window(s, i - 1), day);
      InLast(windows, Window(s, i), day);
      assert day < i ==> mask[..i][day] == mask[..i + 1][day];
      assert InWindows(windows, i) ==> false;
    }
  }

  /** `_stress_windows`. */
  method StressWindows(mask: seq<bool>) returns (windows: seq<Window>)
    ensures WindowsOf(mask, windows)
  {
    windows := [];
    var start: Option<nat> := None;
    var prev: Option<nat> := None;
    for i := 0 to |mask|
      invariant prev == if i == 0 then None else Some(i - 1)
      invariant SoFar(mask, windows, start, i)
    {
      if mask[i] && start.None? {
        FirstDay(mask, windows, i);
        start := Some(i);
      } else if mask[i] {
        NextDay(mask, windows, start.value, i);
      } else if start.Some? && prev.Some? {
        QuietDay(mask, windows + [Window(start.value, i - 1)], i);
        windows := windows + [Window(start.value, prev.value)];
        start := None;
      } else {
        QuietDay(mask, windows, i);
      }
      hide WindowsOf;
      prev := Some(i);
    }
    assert mask[..|mask|] == mask;
    if start.Some? && prev.Some? {
      windows := windows + [Window(start.value, prev.value)];
    }
  }

  lemma NeighboursOutside(windows: seq<Window>, k: nat)
    requires Separated(windows) && k < |windows|
    ensures windows[k].start > 0 ==> !InWindows(windows, windows[k].start - 1)
    ensures !InWindows(windows, windows[k].end + 1)
  {
  }

  /** Windows are maximal: the day before one and the day after are inactive. */
  lemma WindowsMaximal(mask: seq<bool>, windows: seq<Window>, k: nat)
    requires WindowsOf(mask, windows) && k < |windows|
    ensures windows[k].start > 0 ==> !mask[windows[k].start - 1]
    ensures windows[k].end + 1 < |mask| ==> !mask[windows[k].end + 1]
    ensures forall day :: windows[k].start <= day <= windows[k].end ==> mask[day]
  {
    NeighboursOutside(windows, k);
    forall day | windows[k].start <= day <= windows[k].end
      ensures mask[day]
    {
      assert InWindows(windows, day);
    }
  }

  /** The last window ends at the last active day. */
  lemma LastWindow(mask: seq<bool>, windows: seq<Window>, day: nat)
    requires WindowsOf(mask, windows) && |windows| > 0 && windows[|windows| - 1].end < day < |mask|
    ensures !mask[day]
  {
  }

  /** Without its last window the list belongs to the mask before that window. */
  lemma DropLastWindow(mask: seq<bool>, windows: seq<Window>)
    requires WindowsOf(mask, windows) && |windows| > 0
    ensures WindowsOf(mask[..windows[|windows| - 1].start], windows[..|windows| - 1])
  {
    var n := |windows| - 1;
    var w := windows[n];
    forall day | 0 <= day < w.start
      ensures mask[..w.start][day] <==> InWindows(windows[..n], day)
    {
      assert windows == windows[..n] + [w];
      InLast(windows[..n], w, day);
    }
  }

  /** A mask has one list of windows, so windows and masks determine each other. */
  lemma {:induction false} WindowsUnique(mask: seq<bool>, a: seq<Window>, b: seq<Window>)
    requires WindowsOf(mask, a) && WindowsOf(mask, b)
    ensures a == b
    decreases |mask|
  {
    if |a| > 0 && |b| > 0 {
      var v, w := a[|a| - 1], b[|b| - 1];
      SameLastWindow(mask, a, b);
      DropLastWindow(mask, a);
      DropLastWindow(mask, b);
      WindowsUnique(mask[..v.start], a[..|a| - 1], b[..|b| - 1]);
      assert a == a[..|a| - 1] + [v] && b == b[..|b| - 1] + [w];
    } else {
      WindowsExist(mask, a);
      WindowsExist(mask, b);
    }
  }

  /** There are windows exactly when there is an active day. */
  lemma WindowsExist(mask: seq<bool>, windows: seq<Window>)
    requires WindowsOf(mask, windows)
    ensures |windows| > 0 <==> exists day :: 0 <= day < |mask| && mask[day]
  {
    if |windows| > 0 {
      assert InWindows(windows, windows[0].start);
    }
  }

  lemma SameLastWindow(mask: seq<bool>, a: seq<Window>, b: seq<Window>)
    requires WindowsOf(mask, a) && WindowsOf(mask, b) && |a| > 0 && |b| > 0
    ensures a[|a| - 1] == b[|b| - 1]
  {
    var v, w := a[|a| - 1], b[|b| - 1];
    WindowsMaximal(mask, a, |a| - 1);
    WindowsMaximal(mask, b, |b| - 1);
    assert mask[v.end] && mask[w.end];
    if v.end < w.end {
      LastWindow(mask, a, w.end);
    } else if w.end < v.end {
      LastWindow(mask, b, v.end);
    }
  }

  /** The daily mask that a list of windows stands for. */
  ghost function Decode(windows: seq<Window>, days: nat): (mask: seq<bool>)
    ensures |mask| == days && forall day :: 0 <= day < days ==> mask[day] == InWindows(windows, day)
  {
    if days == 0 then [] else Decode(windows, days - 1) + [InWindows(windows, days - 1)]
  }

  /** Encoding and decoding are inverse, on every mask and on every separated list of windows. */
  lemma RoundTrips(mask: seq<bool>, windows: seq<Window>)
    requires forall k :: 0 <= k < |windows| ==> windows[k].end < |mask|
    ensures WindowsOf(mask, windows) <==> Separated(windows) && Decode(windows, |mask|) == mask
    ensures Separated(windows) ==>
      forall again :: WindowsOf(Decode(windows, |mask|), again) ==> again == windows
  {
    if Separated(windows) {
      var decoded := Decode(windows, |mask|);
      forall again | WindowsOf(decoded, again)
        ensures again == windows
      {
        WindowsUnique(decoded, again, windows);
      }
    }
  }
}
