/**
 CPCV splitting: the contiguous row groups, the train mask with purge and embargo, and
 the train/test pairs of all combinations.
 */
module CpcvSplit {
  import opened Wrappers
  import opened Combinations
  import opened Factorization

  datatype ConfigError = TooFewSplits | BadTestSize | TooFewRows

  /** `np.arange(a, b)`. */
  function Range(a: nat, b: nat): (r: seq<nat>)
    requires a <= b
    ensures |r| == b - a
    ensures forall i :: 0 <= i < |r| ==> r[i] == a + i
  {
    seq(b - a, i => a + i)
  }

  function Positive(x: int): nat {
    if x > 0 then x else 0
  }

  /** `np.ceil`. */
  function Ceil(x: real): int {
    -((-x).Floor)
  }

  function EmbargoSize(n: nat, pct: real): int {
    Ceil(n as real * pct)
  }

  /** The embargo is the least whole number of rows that covers the fraction asked for. */
  lemma EmbargoCovers(n: nat, pct: real)
    ensures n as real * pct <= EmbargoSize(n, pct) as real < n as real * pct + 1.0
  {
  }

  // ----- groups

  function GroupStart(n: nat, splits: nat, i: nat): nat
    requires splits > 0
  {
    i * (n / splits)
  }

  function GroupEnd(n: nat, splits: nat, i: nat): nat
    requires splits > 0
  {
    if i < splits - 1 then (i + 1) * (n / splits) else n
  }

  lemma Grow(a: nat, b: nat, size: nat)
    requires a <= b
    ensures a * size <= b * size
  {
  }

  lemma SizeFits(n: nat, splits: nat)
    requires splits > 0
    ensures (splits - 1) * (n / splits) + n / splits + n % splits == n
    ensures n >= splits ==> n / splits >= 1
  {
    var size := n / splits;
    assert n == splits * size + n % splits;
    assert (splits - 1) * size + size == splits * size;
    if n >= splits {
      QuotientPositive(n, splits);
    }
  }

  lemma QuotientPositive(n: nat, d: nat)
    requires 0 < d <= n
    ensures n / d >= 1
  {
  }

  /** Group i runs from where group i - 1 stopped; the last one takes the remainder. */
  lemma GroupBounds(n: nat, splits: nat, i: nat)
    requires 0 < splits <= n && i < splits
    ensures GroupStart(n, splits, i) < GroupEnd(n, splits, i) <= n
    ensures i + 1 < splits ==> GroupEnd(n, splits, i) == GroupStart(n, splits, i + 1)
    ensures i + 1 == splits ==> GroupEnd(n, splits, i) == n
    ensures GroupEnd(n, splits, i) - GroupStart(n, splits, i) ==
      n / splits + (if i + 1 == splits then n % splits else 0)
  {
    var size := n / splits;
    SizeFits(n, splits);
    assert (i + 1) * size == i * size + size;
    if i + 1 < splits {
      Grow(i + 1, splits - 1, size);
    } else {
      assert i == splits - 1;
    }
  }

  /** The groups as `_build_groups` lists them. */
  function GroupList(n: nat, splits: nat): (groups: seq<seq<nat>>)
    requires 0 < splits <= n
    ensures |groups| == splits
    ensures forall i :: 0 <= i < splits ==>
      GroupStart(n, splits, i) <= GroupEnd(n, splits, i) &&
      groups[i] == Range(GroupStart(n, splits, i), GroupEnd(n, splits, i))
  {
    assert forall i: nat :: i < splits ==> GroupStart(n, splits, i) <= GroupEnd(n, splits, i) by {
      forall i: nat | i < splits
        ensures GroupStart(n, splits, i) <= GroupEnd(n, splits, i)
      {
        GroupBounds(n, splits, i);
      }
    }
    seq(splits, i requires 0 <= i < splits => Range(GroupStart(n, splits, i), GroupEnd(n, splits, i)))
  }

  /** Non-empty ranges that follow on from each other and fill 0..n. */
  ghost predicate Partitions(groups: seq<seq<nat>>, n: nat) {
    if groups == [] then n == 0
    else
      var last := groups[|groups| - 1];
      && last != []
      && last[0] < n
      && last == Range(last[0], n)
      && Partitions(groups[..|groups| - 1], last[0])
  }

  lemma {:induction false} GroupPrefixPartitions(n: nat, splits: nat, m: nat)
    requires 0 < splits <= n && m <= splits
    ensures Partitions(GroupList(n, splits)[..m], if m == 0 then 0 else GroupEnd(n, splits, m - 1))
  {
    if m > 0 {
      GroupPrefixPartitions(n, splits, m - 1);
      GroupBounds(n, splits, m - 1);
      if m > 1 {
        GroupBounds(n, splits, m - 2);
      }
      var groups := GroupList(n, splits)[..m];
      assert groups[..m - 1] == GroupList(n, splits)[..m - 1];
      assert groups[m - 1][0] == GroupStart(n, splits, m - 1);
    }
  }

  lemma GroupsPartition(n: nat, splits: nat)
    requires 0 < splits <= n
    ensures Partitions(GroupList(n, splits), n)
  {
    GroupPrefixPartitions(n, splits, splits);
    GroupBounds(n, splits, splits - 1);
    assert GroupList(n, splits)[..splits] == GroupList(n, splits);
  }

  ghost predicate IsRange(group: seq<nat>, n: nat) {
    group == [] || (group[0] + |group| <= n && group == Range(group[0], group[0] + |group|))
  }

  lemma {:induction false} PartIsRange(groups: seq<seq<nat>>, n: nat, g: nat)
    requires Partitions(groups, n) && g < |groups|
    ensures groups[g] != [] && IsRange(groups[g], n)
    decreases groups
  {
    var m := |groups| - 1;
    if g < m {
      PartIsRange(groups[..m], groups[m][0], g);
    }
  }

  /** Rows of a later group come after all rows of an earlier one. */
  lemma {:induction false} PartsOrdered(groups: seq<seq<nat>>, n: nat, g: nat, h: nat)
    requires Partitions(groups, n) && g < h < |groups|
    ensures groups[g] != [] && groups[h] != []
    ensures groups[g][|groups[g]| - 1] < groups[h][0]
    decreases groups
  {
    var m := |groups| - 1;
    if h < m {
      PartsOrdered(groups[..m], groups[m][0], g, h);
    } else {
      PartIsRange(groups[..m], groups[m][0], g);
    }
  }

  // ----- train rows

  /** Every test group is one of the groups. */
  ghost predicate TestsNamed<T>(groups: seq<seq<T>>, tests: seq<nat>) {
    forall j :: 0 <= j < |tests| ==> tests[j] < |groups|
  }

  /** The rows one test group takes out of training: purge before it, embargo after it. */
  predicate InZone(group: seq<nat>, purge: int, embargo: int, row: int) {
    && group != []
    && group[0] - Positive(purge) <= row < group[|group| - 1] + 1 + Positive(embargo)
  }

  ghost predicate Excluded(groups: seq<seq<nat>>, tests: seq<nat>, purge: int, embargo: int, row: int)
    requires TestsNamed(groups, tests)
  {
    exists j :: 0 <= j < |tests| && InZone(groups[tests[j]], purge, embargo, row)
  }

  /** `np.flatnonzero`. */
  function FlatNonzero(mask: seq<bool>): seq<nat> {
    if mask == [] then []
    else
      var m := |mask| - 1;
      if mask[m] then FlatNonzero(mask[..m]) + [m] else FlatNonzero(mask[..m])
  }

  lemma {:induction false} FlatNonzeroRows(mask: seq<bool>)
    ensures StrictlyIncreasing(FlatNonzero(mask))
    ensures forall i: nat :: i in FlatNonzero(mask) <==> i < |mask| && mask[i]
  {
    if mask != [] {
      var m := |mask| - 1;
      FlatNonzeroRows(mask[..m]);
      var rest := FlatNonzero(mask[..m]);
      assert forall i :: 0 <= i < |rest| ==> rest[i] in rest;
      assert forall i :: 0 <= i < m ==> mask[..m][i] == mask[i];
    }
  }

  /** `np.concatenate` of the test groups. */
  function Concat<T>(groups: seq<seq<T>>, tests: seq<nat>): seq<T>
    requires TestsNamed(groups, tests)
  {
    if tests == [] then []
    else Concat(groups, tests[..|tests| - 1]) + groups[tests[|tests| - 1]]
  }

  ghost predicate TestsFit(groups: seq<seq<nat>>, tests: seq<nat>, n: nat) {
    TestsNamed(groups, tests) && forall j :: 0 <= j < |tests| ==> IsRange(groups[tests[j]], n)
  }

  /** Exactly the rows outside every test group's zone, in order. */
  ghost predicate IsTrain(train: seq<nat>, n: nat, groups: seq<seq<nat>>, tests: seq<nat>, purge: int, embargo: int)
    requires TestsNamed(groups, tests)
  {
    && StrictlyIncreasing(train)
    && forall i: nat :: i in train <==> i < n && !Excluded(groups, tests, purge, embargo, i)
  }

  /** `mask[a:b] = False`. */
  method ClearSpan(mask: array<bool>, a: nat, b: nat)
    requires a <= b <= mask.Length
    modifies mask
    ensures forall i :: 0 <= i < mask.Length ==> mask[i] == (old(mask[i]) && !(a <= i < b))
  {
    for i := a to b
      invariant forall j :: 0 <= j < mask.Length ==> mask[j] == (old(mask[j]) && !(a <= j < i))
    {
      mask[i] := false;
    }
  }

  class Cpcv {
    const nSplits: int
    const kTest: int
    const embargoPct: real
    const purgeSize: int

    constructor (nSplits: int, kTest: int, embargoPct: real, purgeSize: int)
      ensures this.nSplits == nSplits && this.kTest == kTest
      ensures this.embargoPct == embargoPct && this.purgeSize == purgeSize
    {
      this.nSplits, this.kTest, this.embargoPct, this.purgeSize := nSplits, kTest, embargoPct, purgeSize;
    }

    /** The checks are made in this order; a valid setting gives contiguous groups that fill the rows. */
    method BuildGroups(n: nat) returns (r: Result<seq<seq<nat>>, ConfigError>)
      ensures r.Ok? <==> 2 <= nSplits <= n && 1 <= kTest < nSplits
      ensures nSplits < 2 ==> r == Err(TooFewSplits)
      ensures nSplits >= 2 && !(1 <= kTest < nSplits) ==> r == Err(BadTestSize)
      ensures nSplits >= 2 && 1 <= kTest < nSplits && n < nSplits ==> r == Err(TooFewRows)
      ensures r.Ok? ==> r.value == GroupList(n, nSplits) && Partitions(r.value, n)
    {
      if nSplits < 2 {
        return Err(TooFewSplits);
      }
      if !(1 <= kTest < nSplits) {
        return Err(BadTestSize);
      }
      if n < nSplits {
        return Err(TooFewRows);
      }
      var size := n / nSplits;
      var groups: seq<seq<nat>> := [];
      for i := 0 to nSplits
        invariant groups == GroupList(n, nSplits)[..i]
      {
        GroupBounds(n, nSplits, i);
        var start := i * size;
        var end := if i < nSplits - 1 then (i + 1) * size else n;
        groups := groups + [Range(start, end)];
      }
      GroupsPartition(n, nSplits);
      assert GroupList(n, nSplits)[..nSplits] == GroupList(n, nSplits);
      return Ok(groups);
    }

    method ApplyPurgeAndEmbargo(n: nat, groups: seq<seq<nat>>, tests: seq<nat>)
      returns (train: seq<nat>, test: seq<nat>)
      requires TestsFit(groups, tests, n)
      ensures IsTrain(train, n, groups, tests, purgeSize, EmbargoSize(n, embargoPct))
      ensures test == Concat(groups, tests)
    {
      var embargo := EmbargoSize(n, embargoPct);
      var mask := new bool[n](i => true);
      for j := 0 to |tests|
        invariant forall i :: 0 <= i < n ==>
          mask[i] == !Excluded(groups, tests[..j], purgeSize, embargo, i)
      {
        var group := groups[tests[j]];
        ExcludedStep(groups, tests, j, purgeSize, embargo);
        if |group| != 0 {
          ClearZone(n, mask, group, embargo);
        }
      }
      assert tests[..|tests|] == tests;
      test := Concat(groups, tests);
      train := FlatNonzero(mask[..]);
      FlatNonzeroRows(mask[..]);
    }

    method ClearZone(n: nat, mask: array<bool>, group: seq<nat>, embargo: int)
      requires mask.Length == n && group != [] && IsRange(group, n)
      modifies mask
      ensures forall i :: 0 <= i < n ==>
        mask[i] == (old(mask[i]) && !InZone(group, purgeSize, embargo, i))
    {
      var start := group[0];
      var end := group[|group| - 1] + 1;
      ClearSpan(mask, start, end);
      if purgeSize > 0 {
        var purgeStart := if start - purgeSize > 0 then start - purgeSize else 0;
        ClearSpan(mask, purgeStart, start);
      }
      if embargo > 0 {
        var embargoEnd := if end + embargo < n then end + embargo else n;
        ClearSpan(mask, end, embargoEnd);
      }
    }

    /** One pair per combination, in enumeration order, leaving out those without train or test rows. */
    method Split(n: nat) returns (r: Result<seq<(seq<nat>, seq<nat>)>, ConfigError>)
      ensures r.Ok? <==> 2 <= nSplits <= n && 1 <= kTest < nSplits
      ensures r.Ok? ==> exists trains ::
        var groups, combos := GroupList(n, nSplits), Combos(0, nSplits, kTest);
        AreTrains(trains, n, groups, combos, purgeSize, EmbargoSize(n, embargoPct))
        && r.value == NonEmptyPairs(groups, combos, trains)
    {
      var built := BuildGroups(n);
      if built.Err? {
        return Err(built.error);
      }
      var groups := built.value;
      var combos := Combos(0, nSplits, kTest);
      var pairs: seq<(seq<nat>, seq<nat>)> := [];
      ghost var trains: seq<seq<nat>> := [];
      for t := 0 to |combos|
        invariant AreTrains(trains, n, groups, combos[..t], purgeSize, EmbargoSize(n, embargoPct))
        invariant pairs == NonEmptyPairs(groups, combos[..t], trains)
      {
        ComboTestsFit(n, nSplits, kTest, t);
        var train, test := ApplyPurgeAndEmbargo(n, groups, combos[t]);
        OneMoreTrain(trains, train, n, groups, combos, t, purgeSize, EmbargoSize(n, embargoPct));
        if |train| > 0 && |test| > 0 {
          pairs := pairs + [(train, test)];
        }
        trains := trains + [train];
      }
      assert combos[..|combos|] == combos;
      return Ok(pairs);
    }
  }

  /** trains lists, combination by combination, the rows left for training. */
  ghost predicate AreTrains(trains: seq<seq<nat>>, n: nat, groups: seq<seq<nat>>, combos: seq<seq<nat>>, purge: int, embargo: int) {
    && |trains| == |combos|
    && forall t :: 0 <= t < |combos| ==>
      TestsFit(groups, combos[t], n) && IsTrain(trains[t], n, groups, combos[t], purge, embargo)
  }

  lemma OneMoreTrain(trains: seq<seq<nat>>, train: seq<nat>, n: nat, groups: seq<seq<nat>>, combos: seq<seq<nat>>, t: nat, purge: int, embargo: int)
    requires t < |combos| && AreTrains(trains, n, groups, combos[..t], purge, embargo)
    requires TestsFit(groups, combos[t], n) && IsTrain(train, n, groups, combos[t], purge, embargo)
    ensures AreTrains(trains + [train], n, groups, combos[..t + 1], purge, embargo)
    ensures NonEmptyPairs(groups, combos[..t + 1], trains + [train]) ==
      NonEmptyPairs(groups, combos[..t], trains) +
      (if |train| > 0 && |Concat(groups, combos[t])| > 0 then [(train, Concat(groups, combos[t]))] else [])
  {
    var more, all := trains + [train], combos[..t + 1];
    assert all[..t] == combos[..t] && all[t] == combos[t];
    assert more[..t] == trains;
    forall u | 0 <= u < |all|
      ensures TestsFit(groups, all[u], n) && IsTrain(more[u], n, groups, all[u], purge, embargo)
    {
      if u < t {
        assert all[u] == combos[..t][u] && more[u] == trains[u];
      }
    }
  }

  ghost function NonEmptyPairs(groups: seq<seq<nat>>, combos: seq<seq<nat>>, trains: seq<seq<nat>>): seq<(seq<nat>, seq<nat>)>
    requires |combos| == |trains|
    requires forall t :: 0 <= t < |combos| ==> TestsNamed(groups, combos[t])
  {
    if combos == [] then []
    else
      var m := |combos| - 1;
      assert TestsNamed(groups, combos[m]);
      var rest := NonEmptyPairs(groups, combos[..m], trains[..m]);
      var test := Concat(groups, combos[m]);
      if |trains[m]| > 0 && |test| > 0 then rest + [(trains[m], test)] else rest
  }

  lemma ComboTestsFit(n: nat, splits: nat, k: nat, t: nat)
    requires 0 < splits <= n && t < |Combos(0, splits, k)|
    ensures TestsFit(GroupList(n, splits), Combos(0, splits, k)[t], n)
    ensures StrictlyIncreasing(Combos(0, splits, k)[t]) && |Combos(0, splits, k)[t]| == k
  {
    var c := Combos(0, splits, k)[t];
    CombosSound(0, splits, k, t, c);
    IsComboMeans(c, 0, splits, k);
    GroupsPartition(n, splits);
    forall j | 0 <= j < |c|
      ensures IsRange(GroupList(n, splits)[c[j]], n)
    {
      PartIsRange(GroupList(n, splits), n, c[j]);
    }
  }

  lemma ExcludedStep(groups: seq<seq<nat>>, tests: seq<nat>, j: nat, purge: int, embargo: int)
    requires j < |tests| && TestsNamed(groups, tests)
    ensures forall i :: Excluded(groups, tests[..j + 1], purge, embargo, i) <==>
      Excluded(groups, tests[..j], purge, embargo, i) || InZone(groups[tests[j]], purge, embargo, i)
  {
    forall i
      ensures Excluded(groups, tests[..j + 1], purge, embargo, i) <==>
        Excluded(groups, tests[..j], purge, embargo, i) || InZone(groups[tests[j]], purge, embargo, i)
    {
      if Excluded(groups, tests[..j], purge, embargo, i) {
        var u :| 0 <= u < j && InZone(groups[tests[..j][u]], purge, embargo, i);
        assert tests[..j + 1][u] == tests[..j][u];
      }
      if InZone(groups[tests[j]], purge, embargo, i) {
        assert tests[..j + 1][j] == tests[j];
      }
      if Excluded(groups, tests[..j + 1], purge, embargo, i) {
        var u :| 0 <= u < j + 1 && InZone(groups[tests[..j + 1][u]], purge, embargo, i);
        if u < j {
          assert tests[..j][u] == tests[..j + 1][u];
        }
      }
    }
  }

  // ----- what the split promises

  lemma {:induction false} ConcatMembers(groups: seq<seq<nat>>, tests: seq<nat>)
    requires TestsNamed(groups, tests)
    ensures forall x :: x in Concat(groups, tests) <==> exists j :: 0 <= j < |tests| && x in groups[tests[j]]
  {
    if tests != [] {
      var m := |tests| - 1;
      ConcatMembers(groups, tests[..m]);
      forall x
        ensures x in Concat(groups, tests) <==> exists j :: 0 <= j < |tests| && x in groups[tests[j]]
      {
        if j :| 0 <= j < |tests| && x in groups[tests[j]] {
          assert j < m ==> tests[..m][j] == tests[j];
        }
        if x in Concat(groups, tests[..m]) {
          var j :| 0 <= j < m && x in groups[tests[..m][j]];
          assert tests[j] == tests[..m][j];
        }
      }
    }
  }

  /**
   No leak: every training row is more than purge rows before, or more than embargo rows
   after, every test row it could be compared with.
   */
  lemma LeakFree(train: seq<nat>, n: nat, groups: seq<seq<nat>>, tests: seq<nat>, purge: int, embargo: int, i: nat, t: nat)
    requires TestsFit(groups, tests, n) && IsTrain(train, n, groups, tests, purge, embargo)
    requires i in train && t in Concat(groups, tests)
    ensures i != t
    ensures i < t ==> t - i > Positive(purge)
    ensures i > t ==> i - t > Positive(embargo)
  {
    ConcatMembers(groups, tests);
    var j :| 0 <= j < |tests| && t in groups[tests[j]];
    var group := groups[tests[j]];
    var r :| 0 <= r < |group| && group[r] == t;
    assert group[0] <= t <= group[|group| - 1];
    assert !InZone(group, purge, embargo, i);
  }

  /** Test rows of an increasing combination come out in increasing order, without repeats. */
  lemma {:induction false} TestIncreasing(groups: seq<seq<nat>>, n: nat, tests: seq<nat>)
    requires Partitions(groups, n) && TestsNamed(groups, tests) && StrictlyIncreasing(tests)
    ensures StrictlyIncreasing(Concat(groups, tests))
    ensures tests != [] ==>
      Concat(groups, tests) != [] && groups[tests[|tests| - 1]] != [] &&
      Concat(groups, tests)[|Concat(groups, tests)| - 1] ==
        groups[tests[|tests| - 1]][|groups[tests[|tests| - 1]]| - 1]
  {
    if tests != [] {
      var m := |tests| - 1;
      TestIncreasing(groups, n, tests[..m]);
      PartIsRange(groups, n, tests[m]);
      if m > 0 {
        PartsOrdered(groups, n, tests[m - 1], tests[m]);
        IncreasingAppend(Concat(groups, tests[..m]), groups[tests[m]]);
      } else {
        assert Concat(groups, tests[..m]) == [];
        assert Concat(groups, tests) == groups[tests[m]];
      }
    }
  }

  lemma IncreasingAppend(a: seq<nat>, b: seq<nat>)
    requires StrictlyIncreasing(a) && StrictlyIncreasing(b)
    requires a != [] && b != [] ==> a[|a| - 1] < b[0]
    ensures StrictlyIncreasing(a + b)
  {
    forall i, j | 0 <= i < j < |a + b|
      ensures (a + b)[i] < (a + b)[j]
    {
      if i < |a| <= j {
        assert a[i] <= a[|a| - 1] < b[0] <= b[j - |a|];
      }
    }
  }

  /** Rows outside all zones, as a set. */
  ghost function Kept(n: nat, groups: seq<seq<nat>>, tests: seq<nat>, purge: int, embargo: int): set<nat>
    requires TestsNamed(groups, tests)
  {
    if tests == [] then Groups(n)
    else Kept(n, groups, tests[..|tests| - 1], purge, embargo) - Zone(groups[tests[|tests| - 1]], purge, embargo)
  }

  ghost function RangeSet(lo: nat, hi: nat): (s: set<nat>)
    requires lo <= hi
    ensures forall i: nat :: i in s <==> lo <= i < hi
    ensures |s| == hi - lo
  {
    MembersSize(Range(lo, hi));
    assert forall i: nat :: i in Range(lo, hi) <==> lo <= i < hi by {
      forall i: nat | lo <= i < hi
        ensures i in Range(lo, hi)
      {
        assert Range(lo, hi)[i - lo] == i;
      }
    }
    Members(Range(lo, hi))
  }

  ghost function Zone(group: seq<nat>, purge: int, embargo: int): (z: set<nat>)
    ensures forall i: nat :: i in z <==> InZone(group, purge, embargo, i)
  {
    if group == [] then {}
    else
      var lo := Positive(group[0] - Positive(purge));
      var hi := group[|group| - 1] + 1 + Positive(embargo);
      if lo <= hi then RangeSet(lo, hi) else {}
  }

  lemma ZoneSize(group: seq<nat>, n: nat, purge: int, embargo: int)
    requires IsRange(group, n)
    ensures |Zone(group, purge, embargo)| <= |group| + Positive(purge) + Positive(embargo)
  {
  }

  lemma {:induction false} KeptSize(n: nat, groups: seq<seq<nat>>, tests: seq<nat>, purge: int, embargo: int)
    requires TestsFit(groups, tests, n)
    ensures |Kept(n, groups, tests, purge, embargo)| + |Concat(groups, tests)|
      + Lots(|tests|, Positive(purge) + Positive(embargo)) >= n
  {
    if tests != [] {
      var m := |tests| - 1;
      KeptSize(n, groups, tests[..m], purge, embargo);
      ZoneSize(groups[tests[m]], n, purge, embargo);
      LoseAtMost(Kept(n, groups, tests[..m], purge, embargo), Zone(groups[tests[m]], purge, embargo));
    }
  }

  lemma LoseAtMost(a: set<nat>, z: set<nat>)
    ensures |a - z| + |z| >= |a|
  {
    SubsetSize(a, (a - z) + z);
    DisjointSize(a - z, z);
  }

  lemma {:induction false} KeptMeans(n: nat, groups: seq<seq<nat>>, tests: seq<nat>, purge: int, embargo: int)
    requires TestsNamed(groups, tests)
    ensures forall i: nat :: i in Kept(n, groups, tests, purge, embargo) <==>
      i < n && !Excluded(groups, tests, purge, embargo, i)
  {
    if tests != [] {
      var m := |tests| - 1;
      KeptMeans(n, groups, tests[..m], purge, embargo);
      ExcludedStep(groups, tests, m, purge, embargo);
      assert tests[..m + 1] == tests;
    }
  }

  lemma TrainIsKept(train: seq<nat>, n: nat, groups: seq<seq<nat>>, tests: seq<nat>, purge: int, embargo: int)
    requires TestsNamed(groups, tests) && IsTrain(train, n, groups, tests, purge, embargo)
    ensures |train| == |Kept(n, groups, tests, purge, embargo)|
  {
    KeptMeans(n, groups, tests, purge, embargo);
    assert Members(train) == Kept(n, groups, tests, purge, embargo);
    MembersSize(train);
  }

  /** Training keeps all but the test rows and at most purge + embargo rows per test group. */
  lemma TrainSize(train: seq<nat>, n: nat, groups: seq<seq<nat>>, tests: seq<nat>, purge: int, embargo: int)
    requires TestsFit(groups, tests, n) && IsTrain(train, n, groups, tests, purge, embargo)
    ensures |train| >= n - |Concat(groups, tests)| - |tests| * (Positive(purge) + Positive(embargo))
  {
    hide IsTrain, Kept, Concat, Lots, Positive;
    TrainIsKept(train, n, groups, tests, purge, embargo);
    KeptSize(n, groups, tests, purge, embargo);
    LotsIsProduct(|tests|, Positive(purge) + Positive(embargo));
  }
}
