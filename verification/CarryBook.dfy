/** The delta-neutral carry book: a hysteresis per pair, and a perpetual and a spot leg for each active pair. */
module CarryBook {
  datatype Params = Params(enterApr: real, exitApr: real, basisZMax: real)

  /** One day: whether the book is rebalanced, and the basis z and the funding APR of each pair. */
  datatype Day = Day(rebalance: bool, basisZ: seq<real>, apr: seq<real>)

  /** A pair's column labels; perpetuals are the keys of a dictionary. */
  datatype Pair = Pair(perp: string, spot: string)

  ghost predicate Valid(days: seq<Day>, pairs: nat) {
    forall t :: 0 <= t < |days| ==> |days[t].basisZ| == |days[t].apr| == pairs
  }

  function Abs(x: real): real {
    if x < 0.0 then -x else x
  }

  // ----- which pairs are active

  predicate Switch(p: Params, active: bool, z: real, apr: real) {
    if active then !(apr < p.exitApr || Abs(z) > p.basisZMax) else apr > p.enterApr && !(Abs(z) > p.basisZMax)
  }

  /** Whether pair i is active after the first t days; nothing moves between rebalances. */
  predicate Active(p: Params, days: seq<Day>, pairs: nat, t: nat, i: nat)
    requires Valid(days, pairs) && t <= |days| && i < pairs
  {
    if t == 0 then false
    else if days[t - 1].rebalance then
      Switch(p, Active(p, days, pairs, t - 1, i), days[t - 1].basisZ[i], days[t - 1].apr[i])
    else Active(p, days, pairs, t - 1, i)
  }

  function ActiveSeq(p: Params, days: seq<Day>, pairs: nat, t: nat, n: nat): (r: seq<bool>)
    requires Valid(days, pairs) && t <= |days| && n <= pairs
    ensures |r| == n && forall i :: 0 <= i < n ==> r[i] == Active(p, days, pairs, t, i)
  {
    if n == 0 then [] else ActiveSeq(p, days, pairs, t, n - 1) + [Active(p, days, pairs, t, n - 1)]
  }

  function Count(active: seq<bool>): (n: nat)
    ensures n <= |active|
  {
    if |active| == 0 then 0 else Count(active[..|active| - 1]) + (if active[|active| - 1] then 1 else 0)
  }

  lemma {:induction false} CountsActive(active: seq<bool>)
    ensures Count(active) > 0 <==> exists i :: 0 <= i < |active| && active[i]
  {
    if |active| > 0 {
      var rest := active[..|active| - 1];
      CountsActive(rest);
      if i :| 0 <= i < |active| && active[i] {
        assert i < |rest| ==> rest[i];
      }
    }
  }

  // ----- a row of the weight table

  function Column(pairs: seq<Pair>, c: nat): string
    requires c < 2 * |pairs|
  {
    if c < |pairs| then pairs[c].perp else pairs[c - |pairs|].spot
  }

  ghost predicate DistinctColumns(pairs: seq<Pair>) {
    forall c, d :: 0 <= c < d < 2 * |pairs| ==> Column(pairs, c) != Column(pairs, d)
  }

  /** Assigning by label reaches every column of that label, up to column n. */
  function Assigned(pairs: seq<Pair>, row: seq<real>, name: string, value: real, n: nat): (r: seq<real>)
    requires |row| == 2 * |pairs| && n <= |row|
    ensures |r| == |row|
    ensures forall c :: 0 <= c < |row| ==> r[c] == if c < n && Column(pairs, c) == name then value else row[c]
  {
    if n == 0 then row
    else
      var before := Assigned(pairs, row, name, value, n - 1);
      if Column(pairs, n - 1) == name then before[n - 1 := value] else before
  }

  function Assign(pairs: seq<Pair>, row: seq<real>, name: string, value: real): (r: seq<real>)
    requires |row| == 2 * |pairs|
    ensures |r| == |row|
    ensures forall c :: 0 <= c < |row| ==> r[c] == if Column(pairs, c) == name then value else row[c]
  {
    Assigned(pairs, row, name, value, |row|)
  }

  function Zeros(n: nat): (r: seq<real>)
    ensures |r| == n && forall i :: 0 <= i < n ==> r[i] == 0.0
  {
    if n == 0 then [] else Zeros(n - 1) + [0.0]
  }

  /** One leg of an active pair; the active pairs share the book equally. */
  function HalfShare(k: nat): real {
    if k == 0 then 0.0 else 0.5 * (1.0 / k as real)
  }

  /** Writing both legs of pair i. */
  function PutPair(pairs: seq<Pair>, row: seq<real>, i: nat, half: real): (r: seq<real>)
    requires |row| == 2 * |pairs| && i < |pairs|
    ensures |r| == |row|
  {
    Assign(pairs, Assign(pairs, row, pairs[i].perp, -half), pairs[i].spot, half)
  }

  /** The row after the legs of the first n pairs are written. */
  function Legs(pairs: seq<Pair>, active: seq<bool>, n: nat): (r: seq<real>)
    requires |active| == |pairs| && n <= |pairs|
    ensures |r| == 2 * |pairs|
  {
    if n == 0 then Zeros(2 * |pairs|)
    else if active[n - 1] then PutPair(pairs, Legs(pairs, active, n - 1), n - 1, HalfShare(Count(active)))
    else Legs(pairs, active, n - 1)
  }

  /** The row of a set of active pairs. */
  function Book(pairs: seq<Pair>, active: seq<bool>): (r: seq<real>)
    requires |active| == |pairs|
    ensures |r| == 2 * |pairs|
  {
    Legs(pairs, active, |pairs|)
  }

  /** The target weights of day t. */
  function WeightRow(p: Params, pairs: seq<Pair>, days: seq<Day>, t: nat): (r: seq<real>)
    requires Valid(days, |pairs|) && t < |days|
    ensures |r| == 2 * |pairs|
  {
    Book(pairs, ActiveSeq(p, days, |pairs|, t + 1, |pairs|))
  }

  // ----- when a pair is held, from the days alone

  /** A rebalance day that pays more than the entry rate, with the basis within its bound. */
  ghost predicate Opens(p: Params, d: Day, i: nat)
    requires i < |d.basisZ| == |d.apr|
  {
    d.rebalance && d.apr[i] > p.enterApr && -p.basisZMax <= d.basisZ[i] <= p.basisZMax
  }

  /** A rebalance day that pays less than the exit rate, or with the basis beyond its bound. */
  ghost predicate Shuts(p: Params, d: Day, i: nat)
    requires i < |d.basisZ| == |d.apr|
  {
    d.rebalance && (d.apr[i] < p.exitApr || d.basisZ[i] > p.basisZMax || d.basisZ[i] < -p.basisZMax)
  }

  /** Day s opened the pair, and no later day up to day t shut it. */
  ghost predicate HeldSince(p: Params, days: seq<Day>, pairs: nat, s: nat, t: nat, i: nat)
    requires Valid(days, pairs) && s <= t < |days| && i < pairs
  {
    Opens(p, days[s], i) && forall r :: s < r <= t ==> !Shuts(p, days[r], i)
  }

  ghost predicate Held(p: Params, days: seq<Day>, pairs: nat, t: nat, i: nat)
    requires Valid(days, pairs) && t < |days| && i < pairs
  {
    exists s: nat :: s <= t && HeldSince(p, days, pairs, s, t, i)
  }

  /** With the exit rate at most the entry rate, the active pairs are the held ones. */
  lemma {:induction false} ActiveIsHeld(p: Params, days: seq<Day>, pairs: nat, t: nat, i: nat)
    requires Valid(days, pairs) && t < |days| && i < pairs && (p.exitApr <= p.enterApr || p.basisZMax < 0.0)
    ensures Active(p, days, pairs, t + 1, i) <==> Held(p, days, pairs, t, i)
  {
    if t > 0 {
      ActiveIsHeld(p, days, pairs, t - 1, i);
    }
    assert Opens(p, days[t], i) ==> HeldSince(p, days, pairs, t, t, i);
    if t > 0 && Held(p, days, pairs, t - 1, i) && !Shuts(p, days[t], i) {
      var s: nat :| s <= t - 1 && HeldSince(p, days, pairs, s, t - 1, i);
      assert HeldSince(p, days, pairs, s, t, i);
    }
    if Held(p, days, pairs, t, i) && !Opens(p, days[t], i) {
      var s: nat :| s <= t && HeldSince(p, days, pairs, s, t, i);
      assert HeldSince(p, days, pairs, s, t - 1, i);
    }
  }

  /** A rebalance day with one rate for every pair. */
  function FlatDay(n: nat, apr: real): (d: Day)
    ensures d.rebalance && |d.basisZ| == |d.apr| == n
    ensures forall i :: 0 <= i < n ==> d.basisZ[i] == 0.0 && d.apr[i] == apr
  {
    Day(true, Zeros(n), seq(n, _ => apr))
  }

  /**
   With the exit rate above the entry rate, a rate between them opens a pair one day and
   shuts it the next, so the pair goes in and out.
   */
  lemma FlickersBetween(p: Params, pairs: nat)
    requires p.exitApr > p.enterApr && p.basisZMax >= 0.0 && pairs > 0
    ensures var day := FlatDay(pairs, (p.exitApr + p.enterApr) / 2.0);
      && Valid([day, day], pairs) && Held(p, [day, day], pairs, 1, 0)
      && Active(p, [day, day], pairs, 1, 0) && !Active(p, [day, day], pairs, 2, 0)
  {
    var day := FlatDay(pairs, (p.exitApr + p.enterApr) / 2.0);
    assert !Active(p, [day, day], pairs, 0, 0);
    assert HeldSince(p, [day, day], pairs, 1, 1, 0);
  }

  /** Exactly when, whatever the days, a pair is active after the days that hold it. */
  lemma HeldExactly(p: Params, pairs: nat)
    requires pairs > 0
    ensures (forall days, t: nat, i: nat | Valid(days, pairs) && t < |days| && i < pairs ::
               Active(p, days, pairs, t + 1, i) <==> Held(p, days, pairs, t, i)) <==>
      p.exitApr <= p.enterApr || p.basisZMax < 0.0
  {
    if p.exitApr <= p.enterApr || p.basisZMax < 0.0 {
      forall days, t: nat, i: nat | Valid(days, pairs) && t < |days| && i < pairs
        ensures Active(p, days, pairs, t + 1, i) <==> Held(p, days, pairs, t, i)
      {
        ActiveIsHeld(p, days, pairs, t, i);
      }
    } else {
      FlickersBetween(p, pairs);
      var day := FlatDay(pairs, (p.exitApr + p.enterApr) / 2.0);
      assert !(Active(p, [day, day], pairs, 1 + 1, 0) <==> Held(p, [day, day], pairs, 1, 0));
    }
  }

  function HalfOver(k: nat): real {
    if k == 0 then 0.0 else 0.5 / k as real
  }

  ghost function HeldPairs(p: Params, days: seq<Day>, pairs: nat, t: nat): set<nat>
    requires Valid(days, pairs) && t < |days|
  {
    set i: nat | i < pairs && Held(p, days, pairs, t, i)
  }

  /** A held pair is short its perpetual and long its spot by half an equal share; any other has no weight. */
  ghost predicate LegsFit(p: Params, days: seq<Day>, pairs: nat, t: nat, row: seq<real>, i: nat)
    requires Valid(days, pairs) && t < |days| && i < pairs && |row| == 2 * pairs
  {
    if Held(p, days, pairs, t, i) then row[pairs + i] == -row[i] == HalfOver(|HeldPairs(p, days, pairs, t)|)
    else row[i] == 0.0 && row[pairs + i] == 0.0
  }

  ghost predicate HoldsExactly(p: Params, days: seq<Day>, pairs: nat, t: nat, row: seq<real>)
    requires Valid(days, pairs) && t < |days|
  {
    |row| == 2 * pairs && forall i: nat :: i < pairs ==> LegsFit(p, days, pairs, t, row, i)
  }

  lemma {:induction false} CountIsSize(active: seq<bool>, members: set<nat>)
    requires forall i: nat :: i in members <==> i < |active| && active[i]
    ensures Count(active) == |members|
  {
    if |active| > 0 {
      var n := |active| - 1;
      CountIsSize(active[..n], members - {n});
    } else {
      assert members == {};
    }
  }

  lemma ShareOf(k: nat)
    ensures HalfShare(k) == HalfOver(k)
  {
  }

  /** As many pairs are counted active as are held. */
  lemma HeldCount(p: Params, days: seq<Day>, pairs: nat, t: nat)
    requires Valid(days, pairs) && t < |days| && (p.exitApr <= p.enterApr || p.basisZMax < 0.0)
    ensures Count(ActiveSeq(p, days, pairs, t + 1, pairs)) == |HeldPairs(p, days, pairs, t)|
  {
    forall i: nat | i < pairs
      ensures Active(p, days, pairs, t + 1, i) <==> Held(p, days, pairs, t, i)
    {
      ActiveIsHeld(p, days, pairs, t, i);
    }
    hide Held, Active;
    CountIsSize(ActiveSeq(p, days, pairs, t + 1, pairs), HeldPairs(p, days, pairs, t));
  }

  lemma RowHoldsExactly(p: Params, pairs: seq<Pair>, days: seq<Day>, t: nat)
    requires Valid(days, |pairs|) && t < |days| && DistinctColumns(pairs)
    requires p.exitApr <= p.enterApr || p.basisZMax < 0.0
    ensures HoldsExactly(p, days, |pairs|, t, WeightRow(p, pairs, days, t))
  {
    hide Held, HeldPairs, Active, Legs, DistinctColumns, Count, HalfShare, HalfOver;
    var n := |pairs|;
    HeldCount(p, days, n, t);
    ShareOf(|HeldPairs(p, days, n, t)|);
    forall i: nat | i < n
      ensures LegsFit(p, days, n, t, WeightRow(p, pairs, days, t), i)
    {
      ActiveIsHeld(p, days, n, t, i);
      LegsOf(pairs, ActiveSeq(p, days, n, t + 1, n), n, i);
    }
  }

  // ----- the loops

  /** The loop over the pairs of a rebalance day; active is the dictionary it updates. */
  method Rebalance(p: Params, day: Day, active: array<bool>) returns (activePairs: seq<nat>)
    requires |day.basisZ| == |day.apr| == active.Length
    modifies active
    ensures forall i :: 0 <= i < active.Length ==>
      active[i] == Switch(p, old(active[i]), day.basisZ[i], day.apr[i])
    ensures day.rebalance ==> forall i :: 0 <= i < active.Length ==>
      (active[i] <==> if old(active[i]) then !Shuts(p, day, i) else Opens(p, day, i))
    ensures activePairs == Chosen(active[..])
  {
    activePairs := [];
    for i := 0 to active.Length
      invariant forall k :: 0 <= k < i ==> active[k] == Switch(p, old(active[k]), day.basisZ[k], day.apr[k])
      invariant forall k :: i <= k < active.Length ==> active[k] == old(active[k])
      invariant activePairs == Chosen(active[..i])
    {
      var blowout := Abs(day.basisZ[i]) > p.basisZMax;
      ghost var before := active[..i];
      ghost var was := active[i];
      if active[i] && (day.apr[i] < p.exitApr || blowout) {
        active[i] := false;
      } else if !active[i] && day.apr[i] > p.enterApr && !blowout {
        active[i] := true;
      }
      assert active[..i] == before && active[i] == Switch(p, was, day.basisZ[i], day.apr[i]);
      ChosenSnoc(active[..], i);
      assert active[..][..i + 1] == active[..i + 1] && active[..][..i] == before;
      hide Chosen, Switch;
      if active[i] {
        activePairs := activePairs + [i];
      }
    }
    assert active[..active.Length] == active[..];
    forall i | 0 <= i < active.Length && day.rebalance
      ensures active[i] <==> if old(active[i]) then !Shuts(p, day, i) else Opens(p, day, i)
    {
      SwitchMeans(p, day, old(active[i]), i);
    }
  }

  lemma SwitchMeans(p: Params, day: Day, active: bool, i: nat)
    requires i < |day.basisZ| == |day.apr| && day.rebalance
    ensures Switch(p, active, day.basisZ[i], day.apr[i]) <==> if active then !Shuts(p, day, i) else Opens(p, day, i)
  {
  }

  /** `active_perps`: the active pairs in order. */
  function Chosen(active: seq<bool>): (r: seq<nat>)
    ensures |r| == Count(active) && forall k :: 0 <= k < |r| ==> r[k] < |active|
  {
    if |active| == 0 then []
    else Chosen(active[..|active| - 1]) + (if active[|active| - 1] then [|active| - 1] else [])
  }

  /** The row after writing the legs of the first n chosen pairs. */
  function Written(pairs: seq<Pair>, chosen: seq<nat>, half: real, n: nat): (r: seq<real>)
    requires n <= |chosen| && forall k :: 0 <= k < |chosen| ==> chosen[k] < |pairs|
    ensures |r| == 2 * |pairs|
  {
    if n == 0 then Zeros(2 * |pairs|)
    else PutPair(pairs, Written(pairs, chosen, half, n - 1), chosen[n - 1], half)
  }

  lemma {:induction false} WrittenSame(pairs: seq<Pair>, a: seq<nat>, b: seq<nat>, half: real, n: nat)
    requires a <= b && n <= |a| && forall k :: 0 <= k < |b| ==> b[k] < |pairs|
    ensures Written(pairs, a, half, n) == Written(pairs, b, half, n)
  {
    hide PutPair;
    if n > 0 {
      WrittenSame(pairs, a, b, half, n - 1);
    }
  }

  lemma ChosenSnoc(active: seq<bool>, i: nat)
    requires i < |active|
    ensures Chosen(active[..i + 1]) == Chosen(active[..i]) + (if active[i] then [i] else [])
  {
    assert active[..i + 1][..i] == active[..i];
  }

  /** Writing the chosen pairs one after the other gives the book. */
  lemma {:induction false} WrittenIsLegs(pairs: seq<Pair>, active: seq<bool>, n: nat)
    requires |active| == |pairs| && n <= |active|
    ensures Written(pairs, Chosen(active[..n]), HalfShare(Count(active)), |Chosen(active[..n])|) == Legs(pairs, active, n)
  {
    hide PutPair, HalfShare, Count, Zeros;
    if n > 0 {
      WrittenIsLegs(pairs, active, n - 1);
      ChosenSnoc(active, n - 1);
      hide Chosen;
      WrittenSame(pairs, Chosen(active[..n - 1]), Chosen(active[..n]), HalfShare(Count(active)), |Chosen(active[..n - 1])|);
    }
  }

  /** `out.loc[ts, name] = value`. */
  method AssignLabel(pairs: seq<Pair>, row: array<real>, name: string, value: real)
    requires row.Length == 2 * |pairs|
    modifies row
    ensures row[..] == Assign(pairs, old(row[..]), name, value)
  {
    for c := 0 to row.Length
      invariant row[..] == Assigned(pairs, old(row[..]), name, value, c)
    {
      if Column(pairs, c) == name {
        row[c] := value;
      }
    }
  }

  method PutPairInto(pairs: seq<Pair>, row: array<real>, i: nat, half: real)
    requires row.Length == 2 * |pairs| && i < |pairs|
    modifies row
    ensures row[..] == PutPair(pairs, old(row[..]), i, half)
  {
    hide Assign;
    AssignLabel(pairs, row, pairs[i].perp, -half);
    AssignLabel(pairs, row, pairs[i].spot, half);
  }

  /** The first t rows are the books of their days. */
  ghost predicate RowsDone(p: Params, pairs: seq<Pair>, days: seq<Day>, rows: seq<seq<real>>, t: nat)
    requires Valid(days, |pairs|) && t <= |days|
  {
    |rows| == t && forall k :: 0 <= k < t ==> rows[k] == WeightRow(p, pairs, days, k)
  }

  /** A day without rebalance repeats the row before it. */
  lemma CarriedRow(p: Params, pairs: seq<Pair>, days: seq<Day>, rows: seq<seq<real>>, t: nat)
    requires Valid(days, |pairs|) && t < |days| && !days[t].rebalance && RowsDone(p, pairs, days, rows, t)
    ensures ActiveSeq(p, days, |pairs|, t + 1, |pairs|) == ActiveSeq(p, days, |pairs|, t, |pairs|)
    ensures RowsDone(p, pairs, days, rows + [if t > 0 then rows[t - 1] else Zeros(2 * |pairs|)], t + 1)
  {
    NothingActive(pairs, p, days);
    assert ActiveSeq(p, days, |pairs|, t + 1, |pairs|) == ActiveSeq(p, days, |pairs|, t, |pairs|);
    hide Book, Zeros, Switch;
  }

  lemma RebalancedRow(p: Params, pairs: seq<Pair>, days: seq<Day>, rows: seq<seq<real>>, t: nat, active: seq<bool>)
    requires Valid(days, |pairs|) && t < |days| && days[t].rebalance && RowsDone(p, pairs, days, rows, t)
    requires |active| == |pairs| && forall i :: 0 <= i < |active| ==>
      active[i] == Switch(p, ActiveSeq(p, days, |pairs|, t, |pairs|)[i], days[t].basisZ[i], days[t].apr[i])
    ensures active == ActiveSeq(p, days, |pairs|, t + 1, |pairs|)
    ensures RowsDone(p, pairs, days, rows + [Book(pairs, active)], t + 1)
  {
    hide Book, Switch;
  }

  /** `_target_weights`: every row is the book of the pairs active that day. */
  method TargetWeights(p: Params, pairs: seq<Pair>, days: seq<Day>) returns (rows: seq<seq<real>>)
    requires Valid(days, |pairs|)
    ensures |rows| == |days|
    ensures forall t :: 0 <= t < |days| ==> rows[t] == WeightRow(p, pairs, days, t)
    ensures DistinctColumns(pairs) && (p.exitApr <= p.enterApr || p.basisZMax < 0.0) ==>
      forall t :: 0 <= t < |days| ==> HoldsExactly(p, days, |pairs|, t, rows[t])
  {
    forall t: nat | t < |days| && DistinctColumns(pairs) && (p.exitApr <= p.enterApr || p.basisZMax < 0.0)
      ensures HoldsExactly(p, days, |pairs|, t, WeightRow(p, pairs, days, t))
    {
      RowHoldsExactly(p, pairs, days, t);
    }
    hide HoldsExactly, DistinctColumns;
    var active := new bool[|pairs|](i => false);
    assert active[..] == ActiveSeq(p, days, |pairs|, 0, |pairs|);
    rows := [];
    hide Book, Zeros, Switch, Active, Chosen;
    for t := 0 to |days|
      invariant active[..] == ActiveSeq(p, days, |pairs|, t, |pairs|)
      invariant RowsDone(p, pairs, days, rows, t)
    {
      if !days[t].rebalance {
        CarriedRow(p, pairs, days, rows, t);
        rows := rows + [if t > 0 then rows[t - 1] else Zeros(2 * |pairs|)];
        continue;
      }
      ghost var before := active[..];
      var chosen := Rebalance(p, days[t], active);
      assert forall i :: 0 <= i < |pairs| ==> active[..][i] == Switch(p, before[i], days[t].basisZ[i], days[t].apr[i]);
      RebalancedRow(p, pairs, days, rows, t, active[..]);
      var row := WriteLegs(pairs, active[..], chosen);
      rows := rows + [row];
    }
  }

  lemma NothingActive(pairs: seq<Pair>, p: Params, days: seq<Day>)
    requires Valid(days, |pairs|)
    ensures Book(pairs, ActiveSeq(p, days, |pairs|, 0, |pairs|)) == Zeros(2 * |pairs|)
  {
    LegsOfNone(pairs, ActiveSeq(p, days, |pairs|, 0, |pairs|), |pairs|);
  }

  lemma {:induction false} LegsOfNone(pairs: seq<Pair>, active: seq<bool>, n: nat)
    requires |active| == |pairs| && n <= |pairs| && forall i :: 0 <= i < |active| ==> !active[i]
    ensures Legs(pairs, active, n) == Zeros(2 * |pairs|)
  {
    if n > 0 {
      LegsOfNone(pairs, active, n - 1);
    }
  }

  /** The loop over `active_perps`. */
  method WriteLegs(pairs: seq<Pair>, active: seq<bool>, chosen: seq<nat>) returns (row: seq<real>)
    requires |active| == |pairs| && chosen == Chosen(active)
    ensures row == Book(pairs, active)
  {
    hide PutPair, Chosen, Count, Legs;
    var cells := new real[2 * |pairs|](i => 0.0);
    assert cells[..] == Zeros(2 * |pairs|);
    var half := HalfShare(|chosen|);
    hide HalfShare;
    for k := 0 to |chosen|
      invariant cells[..] == Written(pairs, chosen, half, k)
    {
      PutPairInto(pairs, cells, chosen[k], half);
    }
    row := cells[..];
    assert active[..|active|] == active;
    WrittenIsLegs(pairs, active, |active|);
  }

  // ----- delta neutrality

  function SumAbs(row: seq<real>): (r: real)
    ensures r >= 0.0
  {
    if |row| == 0 then 0.0 else SumAbs(row[..|row| - 1]) + Abs(row[|row| - 1])
  }

  /** Each perpetual's weight is minus its spot's, and gross exposure is all or nothing. */
  ghost predicate Neutral(pairs: seq<Pair>, row: seq<real>)
    requires |row| == 2 * |pairs|
  {
    && (forall i :: 0 <= i < |pairs| ==> row[i] == -row[|pairs| + i])
    && (SumAbs(row) == 0.0 || SumAbs(row) == 1.0)
  }

  lemma PutPairAt(pairs: seq<Pair>, row: seq<real>, k: nat, half: real, i: nat)
    requires DistinctColumns(pairs) && |row| == 2 * |pairs| && k < |pairs| && i < |pairs|
    ensures PutPair(pairs, row, k, half)[i] == if i == k then -half else row[i]
    ensures PutPair(pairs, row, k, half)[|pairs| + i] == if i == k then half else row[|pairs| + i]
  {
    assert Column(pairs, k) == pairs[k].perp && Column(pairs, |pairs| + k) == pairs[k].spot;
  }

  /** The two legs of pair i, once the first n pairs are written. */
  lemma {:induction false} LegsOf(pairs: seq<Pair>, active: seq<bool>, n: nat, i: nat)
    requires DistinctColumns(pairs) && |active| == |pairs| && n <= |pairs| && i < |pairs|
    ensures Legs(pairs, active, n)[i] == if i < n && active[i] then -HalfShare(Count(active)) else 0.0
    ensures Legs(pairs, active, n)[|pairs| + i] == if i < n && active[i] then HalfShare(Count(active)) else 0.0
  {
    hide HalfShare, Count, PutPair, DistinctColumns;
    if n > 0 {
      LegsOf(pairs, active, n - 1, i);
      PutPairAt(pairs, Legs(pairs, active, n - 1), n - 1, HalfShare(Count(active)), i);
    }
  }

  function Times(k: nat, x: real): real {
    if k == 0 then 0.0 else Times(k - 1, x) + x
  }

  lemma {:induction false} TimesIsProduct(k: nat, x: real)
    ensures Times(k, x) == k as real * x
  {
    if k > 0 {
      TimesIsProduct(k - 1, x);
    }
  }

  lemma {:induction false} SumOfBits(row: seq<real>, bits: seq<bool>, half: real)
    requires |row| == |bits|
    requires forall i :: 0 <= i < |row| ==> Abs(row[i]) == if bits[i] then half else 0.0
    ensures SumAbs(row) == Times(Count(bits), half)
  {
    if |row| > 0 {
      SumOfBits(row[..|row| - 1], bits[..|row| - 1], half);
    }
  }

  lemma {:induction false} SumAbsConcat(a: seq<real>, b: seq<real>)
    ensures SumAbs(a + b) == SumAbs(a) + SumAbs(b)
    decreases |b|
  {
    if |b| == 0 {
      assert a + b == a;
    } else {
      SumAbsConcat(a, b[..|b| - 1]);
      assert (a + b)[..|a + b| - 1] == a + b[..|b| - 1];
    }
  }

  lemma ShareTimes(k: nat)
    ensures Times(k, HalfShare(k)) == if k == 0 then 0.0 else 0.5
    ensures HalfShare(k) >= 0.0
  {
    TimesIsProduct(k, HalfShare(k));
    if k > 0 {
      assert (1.0 / k as real) * k as real == 1.0;
    }
  }

  lemma HalvesSum(pairs: seq<Pair>, active: seq<bool>)
    requires DistinctColumns(pairs) && |active| == |pairs|
    ensures var row, share := Book(pairs, active), Times(Count(active), HalfShare(Count(active)));
      SumAbs(row[..|pairs|]) == share && SumAbs(row[|pairs|..]) == share
  {
    hide DistinctColumns, Legs, Count, Times;
    var row, half, n := Book(pairs, active), HalfShare(Count(active)), |pairs|;
    ShareTimes(Count(active));
    hide HalfShare;
    forall i | 0 <= i < n
      ensures Abs(row[i]) == if active[i] then half else 0.0
      ensures Abs(row[n + i]) == if active[i] then half else 0.0
    {
      LegsOf(pairs, active, n, i);
    }
    SumOfBits(row[..n], active, half);
    SumOfBits(row[n..], active, half);
  }

  /** With distinct columns every book is delta neutral; gross exposure is 1 exactly when a pair is active. */
  lemma BookNeutral(pairs: seq<Pair>, active: seq<bool>)
    requires DistinctColumns(pairs) && |active| == |pairs|
    ensures Neutral(pairs, Book(pairs, active))
    ensures SumAbs(Book(pairs, active)) == if Count(active) > 0 then 1.0 else 0.0
    ensures Count(active) > 0 <==> exists i :: 0 <= i < |active| && active[i]
  {
    hide DistinctColumns, Legs, Count, Times, SumAbs, HalfShare;
    var row, n := Book(pairs, active), |pairs|;
    HalvesSum(pairs, active);
    SumAbsConcat(row[..n], row[n..]);
    assert row[..n] + row[n..] == row;
    ShareTimes(Count(active));
    CountsActive(active);
    forall i | 0 <= i < n
      ensures row[i] == -row[n + i]
    {
      LegsOf(pairs, active, n, i);
    }
  }

  // ----- exactly when every book is neutral

  function Only(n: nat, k: nat): (r: seq<bool>)
    ensures |r| == n && forall i :: 0 <= i < n ==> r[i] == (i == k)
  {
    if n == 0 then [] else Only(n - 1, k) + [n - 1 == k]
  }

  lemma {:induction false} OnlyCounts(n: nat, k: nat)
    ensures Count(Only(n, k)) == if k < n then 1 else 0
  {
    if n > 0 {
      OnlyCounts(n - 1, k);
      assert Only(n, k)[..n - 1] == Only(n - 1, k);
    }
  }

  lemma {:induction false} OnlyLegs(pairs: seq<Pair>, k: nat, n: nat)
    requires k < |pairs| && n <= |pairs|
    ensures Legs(pairs, Only(|pairs|, k), n) ==
      if k < n then PutPair(pairs, Zeros(2 * |pairs|), k, 0.5) else Zeros(2 * |pairs|)
  {
    hide PutPair;
    if n > 0 {
      OnlyLegs(pairs, k, n - 1);
      OnlyCounts(|pairs|, k);
    }
  }

  /** Every row of target weights is neutral, whatever the days. */
  ghost predicate AlwaysNeutral(p: Params, pairs: seq<Pair>) {
    forall days, t: nat | Valid(days, |pairs|) && t < |days| :: Neutral(pairs, WeightRow(p, pairs, days, t))
  }

  /** A rebalance day on which only pair k pays enough. */
  function OnlyDay(p: Params, n: nat, k: nat): (d: Day)
    ensures |d.basisZ| == |d.apr| == n && d.rebalance
    ensures forall i :: 0 <= i < n ==> d.basisZ[i] == 0.0 && d.apr[i] == if i == k then p.enterApr + 1.0 else p.enterApr
  {
    Day(true, Zeros(n), Aprs(p, n, k))
  }

  function Aprs(p: Params, n: nat, k: nat): (r: seq<real>)
    ensures |r| == n && forall i :: 0 <= i < n ==> r[i] == if i == k then p.enterApr + 1.0 else p.enterApr
  {
    if n == 0 then [] else Aprs(p, n - 1, k) + [if n - 1 == k then p.enterApr + 1.0 else p.enterApr]
  }

  lemma OnlyDayActivates(p: Params, n: nat, k: nat)
    requires p.basisZMax >= 0.0
    ensures Valid([OnlyDay(p, n, k)], n) && ActiveSeq(p, [OnlyDay(p, n, k)], n, 1, n) == Only(n, k)
  {
    var days := [OnlyDay(p, n, k)];
    forall i | 0 <= i < n
      ensures Active(p, days, n, 1, i) == (i == k)
    {
      assert !Active(p, days, n, 0, i);
    }
  }

  /** A negative z bound counts every day as a blowout, so no pair ever becomes active. */
  lemma {:induction false} NeverActive(p: Params, days: seq<Day>, pairs: nat, t: nat, i: nat)
    requires p.basisZMax < 0.0 && Valid(days, pairs) && t <= |days| && i < pairs
    ensures !Active(p, days, pairs, t, i)
  {
    if t > 0 {
      NeverActive(p, days, pairs, t - 1, i);
    }
  }

  lemma {:induction false} ZerosSum(n: nat)
    ensures SumAbs(Zeros(n)) == 0.0
  {
    if n > 0 {
      ZerosSum(n - 1);
      assert Zeros(n)[..n - 1] == Zeros(n - 1);
    }
  }

  lemma InactiveNeutral(p: Params, pairs: seq<Pair>, days: seq<Day>, t: nat)
    requires p.basisZMax < 0.0 && Valid(days, |pairs|) && t <= |days|
    ensures Neutral(pairs, Book(pairs, ActiveSeq(p, days, |pairs|, t, |pairs|)))
  {
    var active := ActiveSeq(p, days, |pairs|, t, |pairs|);
    forall i | 0 <= i < |pairs|
      ensures !active[i]
    {
      NeverActive(p, days, |pairs|, t, i);
    }
    LegsOfNone(pairs, active, |pairs|);
    ZerosSum(2 * |pairs|);
  }

  /** A shared column breaks the row of the day on which only its later pair is active. */
  lemma SharedColumnBreaks(p: Params, pairs: seq<Pair>, c: nat, k: nat)
    requires p.basisZMax >= 0.0 && k < |pairs| && c < |pairs| + k && Column(pairs, c) == pairs[k].spot
    ensures !AlwaysNeutral(p, pairs)
  {
    var n := |pairs|;
    var days := [OnlyDay(p, n, k)];
    OnlyDayActivates(p, n, k);
    OnlyLegs(pairs, k, n);
    SharedColumn(pairs, c, k);
    hide PutPair, Zeros, OnlyDay, Only, ActiveSeq, Neutral, Valid;
    assert !Neutral(pairs, WeightRow(p, pairs, days, 0));
  }

  /**
   Perpetuals are distinct, being dictionary keys. Every row of target weights, over all days, is
   neutral exactly when all columns are distinct, or the z bound is negative and no pair
   is ever active: a spot leg shared by two pairs, or named like a perpetual, breaks the
   row in which only one of them is active.
   */
  lemma NeutralExactly(p: Params, pairs: seq<Pair>)
    requires forall i, j :: 0 <= i < j < |pairs| ==> pairs[i].perp != pairs[j].perp
    ensures AlwaysNeutral(p, pairs) <==> DistinctColumns(pairs) || p.basisZMax < 0.0
  {
    if DistinctColumns(pairs) || p.basisZMax < 0.0 {
      forall days, t: nat | Valid(days, |pairs|) && t < |days|
        ensures Neutral(pairs, WeightRow(p, pairs, days, t))
      {
        if p.basisZMax < 0.0 {
          InactiveNeutral(p, pairs, days, t + 1);
        } else {
          BookNeutral(pairs, ActiveSeq(p, days, |pairs|, t + 1, |pairs|));
        }
      }
    } else {
      var n := |pairs|;
      var c, d :| 0 <= c < d < 2 * n && Column(pairs, c) == Column(pairs, d);
      SharedColumnBreaks(p, pairs, c, d - n);
    }
  }

  lemma {:induction false} PrefixSums(row: seq<real>, i: nat, j: nat)
    requires i <= j <= |row|
    ensures SumAbs(row[..i]) <= SumAbs(row[..j])
    ensures i < j ==> SumAbs(row[..i]) + Abs(row[j - 1]) <= SumAbs(row[..j])
  {
    if i < j {
      assert row[..j][..j - 1] == row[..j - 1];
      PrefixSums(row, i, j - 1);
    }
  }

  lemma SumAbsNothing(row: seq<real>)
    ensures SumAbs(row[..0]) == 0.0
  {
  }

  lemma ThreeCells(row: seq<real>, a: nat, b: nat, c: nat)
    requires a < b < c < |row|
    ensures SumAbs(row) >= Abs(row[a]) + Abs(row[b]) + Abs(row[c])
  {
    hide SumAbs, Abs;
    PrefixSums(row, 0, a + 1);
    SumAbsNothing(row);
    PrefixSums(row, a + 1, b + 1);
    PrefixSums(row, b + 1, c + 1);
    PrefixSums(row, c + 1, |row|);
    assert row[..|row|] == row;
  }

  /**
   With only pair k active and another column named like its spot: either its own two legs
   coincide, or three columns carry a leg and gross exposure exceeds 1.
   */
  lemma SharedColumn(pairs: seq<Pair>, c: nat, k: nat)
    requires k < |pairs| && c < |pairs| + k && Column(pairs, c) == pairs[k].spot
    ensures !Neutral(pairs, PutPair(pairs, Zeros(2 * |pairs|), k, 0.5))
  {
    SharedCells(pairs, c, k);
    hide PutPair, SumAbs, Zeros, Column;
    var n := |pairs|;
    var row := PutPair(pairs, Zeros(2 * n), k, 0.5);
    if c < k {
      ThreeCells(row, c, k, n + k);
    } else if c > k {
      ThreeCells(row, k, c, n + k);
    }
  }

  lemma SharedCells(pairs: seq<Pair>, c: nat, k: nat)
    requires k < |pairs| && c < |pairs| + k && Column(pairs, c) == pairs[k].spot
    ensures var row := PutPair(pairs, Zeros(2 * |pairs|), k, 0.5);
      row[c] == 0.5 && row[|pairs| + k] == 0.5 && Abs(row[k]) == 0.5
  {
    assert Column(pairs, k) == pairs[k].perp && Column(pairs, |pairs| + k) == pairs[k].spot;
  }
}
