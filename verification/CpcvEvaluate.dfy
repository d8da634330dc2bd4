/**
 The path part of `CPCV.evaluate`: per-combination returns are regrouped, path by path,
 into out-of-sample return series.
 */
module CpcvEvaluate {
  import opened Combinations
  import opened Factorization
  import opened CpcvPaths
  import opened CpcvSplit

  /** A return and the row it belongs to. */
  datatype Sample = Sample(row: nat, ret: real)

  type Chunk = seq<Sample>

  /** `group_returns` of one combination: group id to the returns of that group's rows. */
  type GroupReturns = map<nat, Chunk>

  function RowsOf(chunk: Chunk): (rows: seq<nat>)
    ensures |rows| == |chunk|
    ensures forall i :: 0 <= i < |rows| ==> rows[i] == chunk[i].row
  {
    seq(|chunk|, i requires 0 <= i < |chunk| => chunk[i].row)
  }

  /** The chunks of one combination, group after group. */
  function ComboReturns(combo: seq<nat>, returns_: GroupReturns): Chunk {
    if combo == [] then []
    else
      var g := combo[|combo| - 1];
      ComboReturns(combo[..|combo| - 1], returns_) + (if g in returns_ then returns_[g] else [])
  }

  ghost predicate PathNamed(path: seq<nat>, combos: seq<seq<nat>>) {
    forall i :: 0 <= i < |path| ==> path[i] < |combos|
  }

  ghost predicate Complete(path: seq<nat>, combos: seq<seq<nat>>, results: map<seq<nat>, GroupReturns>)
    requires PathNamed(path, combos)
  {
    forall i :: 0 <= i < |path| ==> combos[path[i]] in results
  }

  function Joined(path: seq<nat>, combos: seq<seq<nat>>, results: map<seq<nat>, GroupReturns>): Chunk
    requires PathNamed(path, combos)
  {
    if path == [] then []
    else
      var combo := combos[path[|path| - 1]];
      Joined(path[..|path| - 1], combos, results)
        + (if combo in results then ComboReturns(combo, results[combo]) else [])
  }

  /** A path that misses a combination has no returns at all. */
  ghost function PathReturns(path: seq<nat>, combos: seq<seq<nat>>, results: map<seq<nat>, GroupReturns>): Chunk
    requires PathNamed(path, combos)
  {
    if Complete(path, combos, results) then Joined(path, combos, results) else []
  }

  ghost predicate AllNamed(paths: seq<seq<nat>>, combos: seq<seq<nat>>) {
    forall p :: 0 <= p < |paths| ==> PathNamed(paths[p], combos)
  }

  /** The non-empty path series, in path order. */
  ghost function NonEmptyReturns(paths: seq<seq<nat>>, combos: seq<seq<nat>>, results: map<seq<nat>, GroupReturns>): seq<Chunk>
    requires AllNamed(paths, combos)
  {
    if paths == [] then []
    else
      var m := |paths| - 1;
      assert PathNamed(paths[m], combos);
      var last := PathReturns(paths[m], combos, results);
      NonEmptyReturns(paths[..m], combos, results) + (if last != [] then [last] else [])
  }

  /** The innermost loop: what one combination delivered, group after group. */
  method AppendGroups(combo: seq<nat>, returns_: GroupReturns, before: Chunk) returns (chunks: Chunk)
    ensures chunks == before + ComboReturns(combo, returns_)
  {
    chunks := before;
    for j := 0 to |combo|
      invariant chunks == before + ComboReturns(combo[..j], returns_)
    {
      assert combo[..j + 1][..j] == combo[..j];
      if combo[j] in returns_ && returns_[combo[j]] != [] {
        chunks := chunks + returns_[combo[j]];
      }
    }
    assert combo[..|combo|] == combo;
  }

  /** One path's chunks, dropped altogether when a combination is missing. */
  method AssemblePath(path: seq<nat>, combos: seq<seq<nat>>, results: map<seq<nat>, GroupReturns>)
    returns (chunks: Chunk)
    requires PathNamed(path, combos)
    ensures chunks == PathReturns(path, combos, results)
    ensures chunks != [] <==> Contributes(path, combos, results)
    ensures chunks != [] ==> multiset(chunks) == PathSamples(path, combos, results)
  {
    PathReturnsSamples(path, combos, results);
    hide Contributes, PathSamples, ComboReturns;
    chunks := [];
    for i := 0 to |path|
      invariant Complete(path[..i], combos, results)
      invariant chunks == Joined(path[..i], combos, results)
    {
      assert path[..i + 1][..i] == path[..i];
      if combos[path[i]] !in results {
        chunks := [];
        break;
      }
      chunks := AppendGroups(combos[path[i]], results[combos[path[i]]], chunks);
    }
    assert path[..|path|] == path;
  }

  method AssemblePaths(paths: seq<seq<nat>>, combos: seq<seq<nat>>, results: map<seq<nat>, GroupReturns>)
    returns (pathReturns: seq<Chunk>)
    requires AllNamed(paths, combos)
    ensures pathReturns == NonEmptyReturns(paths, combos, results)
  {
    pathReturns := [];
    for p := 0 to |paths|
      invariant pathReturns == NonEmptyReturns(paths[..p], combos, results)
    {
      assert paths[..p + 1][..p] == paths[..p];
      assert PathNamed(paths[p], combos);
      var chunks := AssemblePath(paths[p], combos, results);
      if chunks != [] {
        pathReturns := pathReturns + [chunks];
      }
    }
    assert paths[..|paths|] == paths;
  }

  // ----- listing 0..m in any order without repeats permutes the concatenation

  ghost predicate NoRepeats(order: seq<nat>) {
    forall i, j :: 0 <= i < j < |order| ==> order[i] != order[j]
  }

  /** order names each of 0..m exactly once. */
  ghost predicate Lists(order: seq<nat>, m: nat) {
    NoRepeats(order) && forall x: nat :: x in order <==> x < m
  }

  lemma {:induction false} ConcatAppend<T>(items: seq<seq<T>>, a: seq<nat>, b: seq<nat>)
    requires TestsNamed(items, a) && TestsNamed(items, b)
    ensures TestsNamed(items, a + b)
    ensures Concat(items, a + b) == Concat(items, a) + Concat(items, b)
  {
    if b == [] {
      assert a + b == a;
    } else {
      var m := |b| - 1;
      ConcatAppend(items, a, b[..m]);
      assert (a + b)[..|a + b| - 1] == a + b[..m];
    }
  }

  lemma {:induction false} ConcatShorter<T>(items: seq<seq<T>>, order: seq<nat>, m: nat)
    requires m <= |items| && forall i :: 0 <= i < |order| ==> order[i] < m
    ensures TestsNamed(items, order) && TestsNamed(items[..m], order)
    ensures Concat(items, order) == Concat(items[..m], order)
  {
    if order != [] {
      ConcatShorter(items, order[..|order| - 1], m);
    }
  }

  lemma Without(order: seq<nat>, m: nat) returns (j: nat)
    requires Lists(order, m + 1)
    ensures j < |order| && order[j] == m
    ensures Lists(order[..j] + order[j + 1..], m)
  {
    assert m in order;
    j :| j < |order| && order[j] == m;
    var rest := order[..j] + order[j + 1..];
    forall x: nat
      ensures x in rest <==> x < m
    {
      if x in order {
        var i :| 0 <= i < |order| && order[i] == x;
        if i < j {
          assert rest[i] == x;
        } else if i > j {
          assert rest[i - 1] == x;
        }
      }
      if x in rest {
        var i :| 0 <= i < |rest| && rest[i] == x;
        assert x == order[if i < j then i else i + 1];
      }
    }
  }

  /** All items in their own order. */
  function FlatAll<T>(items: seq<seq<T>>): seq<T> {
    if items == [] then [] else FlatAll(items[..|items| - 1]) + items[|items| - 1]
  }

  lemma ListsBelow(order: seq<nat>, m: nat)
    requires Lists(order, m)
    ensures forall i :: 0 <= i < |order| ==> order[i] < m
  {
    assert forall i :: 0 <= i < |order| ==> order[i] in order;
  }

  lemma EmptyListing(order: seq<nat>)
    requires Lists(order, 0)
    ensures order == []
  {
    if |order| > 0 {
      ListedBelow(order, 0, 0);
    }
  }

  lemma ListedBelow(order: seq<nat>, m: nat, i: nat)
    requires Lists(order, m) && i < |order|
    ensures order[i] < m
  {
    assert order[i] in order;
  }

  lemma ConcatAround<T>(items: seq<seq<T>>, a: seq<nat>, m: nat, b: seq<nat>)
    requires m < |items| && TestsNamed(items, a) && TestsNamed(items, b)
    ensures TestsNamed(items, a + [m] + b)
    ensures multiset(Concat(items, a + [m] + b)) == multiset(Concat(items, a + b)) + multiset(items[m])
  {
    ConcatAppend(items, a, b);
    ConcatAppend(items, a, [m]);
    ConcatAppend(items, a + [m], b);
    assert Concat(items, [m]) == Concat(items, []) + items[m] == items[m];
  }

  lemma {:induction false} ConcatPermutes<T>(items: seq<seq<T>>, order: seq<nat>)
    requires Lists(order, |items|)
    ensures TestsNamed(items, order)
    ensures multiset(Concat(items, order)) == multiset(FlatAll(items))
    decreases |items|
  {
    ListsBelow(order, |items|);
    if items == [] {
      EmptyListing(order);
    } else {
      var m := |items| - 1;
      var j := Without(order, m);
      var a, b := order[..j], order[j + 1..];
      assert order == a + [m] + b;
      ConcatPermutes(items[..m], a + b);
      ListsBelow(a + b, m);
      ConcatShorter(items, a + b, m);
      SplitNamed(items, a, b);
      ConcatAround(items, a, m, b);
    }
  }

  lemma SplitNamed<T>(items: seq<seq<T>>, a: seq<nat>, b: seq<nat>)
    requires TestsNamed(items, a + b)
    ensures TestsNamed(items, a) && TestsNamed(items, b)
  {
    forall i | 0 <= i < |a|
      ensures a[i] < |items|
    {
      assert (a + b)[i] == a[i];
    }
    forall i | 0 <= i < |b|
      ensures b[i] < |items|
    {
      assert (a + b)[|a| + i] == b[i];
    }
  }

  lemma {:induction false} PartitionFlat(groups: seq<seq<nat>>, n: nat)
    requires Partitions(groups, n)
    ensures FlatAll(groups) == Upto(n)
    decreases groups
  {
    if groups != [] {
      var last := groups[|groups| - 1];
      PartitionFlat(groups[..|groups| - 1], last[0]);
      assert Upto(n) == Upto(last[0]) + Range(last[0], n);
    }
  }

  // ----- the groups of a path, in the order its chunks are joined

  function GroupOrder(path: seq<nat>, combos: seq<seq<nat>>): seq<nat>
    requires PathNamed(path, combos)
  {
    if path == [] then []
    else GroupOrder(path[..|path| - 1], combos) + combos[path[|path| - 1]]
  }

  lemma {:induction false} GroupOrderMembers(path: seq<nat>, combos: seq<seq<nat>>)
    requires PathNamed(path, combos)
    ensures forall g :: g in GroupOrder(path, combos) <==> exists i :: 0 <= i < |path| && g in combos[path[i]]
  {
    if path != [] {
      var m := |path| - 1;
      GroupOrderMembers(path[..m], combos);
      forall g
        ensures g in GroupOrder(path, combos) <==> exists i :: 0 <= i < |path| && g in combos[path[i]]
      {
        if i :| 0 <= i < |path| && g in combos[path[i]] {
          assert i < m ==> path[..m][i] == path[i];
        }
        if g in GroupOrder(path[..m], combos) {
          var i :| 0 <= i < m && g in combos[path[..m][i]];
          assert path[i] == path[..m][i];
        }
      }
    }
  }

  lemma {:induction false} GroupOrderNoRepeats(path: seq<nat>, combos: seq<seq<nat>>)
    requires NamesCombos(path, combos) && NoOverlap(path, combos)
    requires forall t :: 0 <= t < |combos| ==> StrictlyIncreasing(combos[t])
    ensures NoRepeats(GroupOrder(path, combos))
  {
    if path != [] {
      var m := |path| - 1;
      var before, combo := path[..m], combos[path[m]];
      GroupOrderNoRepeats(before, combos);
      GroupOrderMembers(before, combos);
      forall g | g in GroupOrder(before, combos)
        ensures g !in combo
      {
        var i :| 0 <= i < m && g in combos[before[i]];
        assert Members(combos[path[i]]) !! Members(combos[path[m]]);
        assert g in Members(combos[path[i]]);
      }
      AppendNoRepeats(GroupOrder(before, combos), combo);
    }
  }

  lemma AppendNoRepeats(a: seq<nat>, b: seq<nat>)
    requires NoRepeats(a) && StrictlyIncreasing(b)
    requires forall x :: x in a ==> x !in b
    ensures NoRepeats(a + b)
  {
    forall i, j | 0 <= i < j < |a + b|
      ensures (a + b)[i] != (a + b)[j]
    {
      if i < |a| <= j {
        assert a[i] in a && b[j - |a|] in b;
      }
    }
  }

  lemma PathListsGroups(path: seq<nat>, n: nat, k: nat)
    requires CoversOnce(path, Combos(0, n, k), n)
    ensures Lists(GroupOrder(path, Combos(0, n, k)), n)
  {
    var combos := Combos(0, n, k);
    forall t | 0 <= t < |combos|
      ensures StrictlyIncreasing(combos[t])
    {
      ComboSetAt(n, k, t);
    }
    GroupOrderNoRepeats(path, combos);
    GroupOrderMembers(path, combos);
    var order := GroupOrder(path, combos);
    forall g: nat
      ensures g in order <==> g < n
    {
      assert g < n <==> g in Groups(n);
      if g in order {
        var i :| 0 <= i < |path| && g in combos[path[i]];
        ComboSetAt(n, k, path[i]);
        assert g in Members(combos[path[i]]);
      }
    }
  }

  // ----- full results

  /** Every combination returned a value for every row of its test groups. */
  ghost predicate FullResults(results: map<seq<nat>, GroupReturns>, combos: seq<seq<nat>>, groups: seq<seq<nat>>) {
    forall t :: 0 <= t < |combos| ==> combos[t] in results && FullCombo(results[combos[t]], combos[t], groups)
  }

  ghost predicate FullCombo(returns_: GroupReturns, combo: seq<nat>, groups: seq<seq<nat>>) {
    forall i :: 0 <= i < |combo| ==>
      combo[i] < |groups| && combo[i] in returns_ && RowsOf(returns_[combo[i]]) == groups[combo[i]]
  }

  lemma RowsOfAppend(a: Chunk, b: Chunk)
    ensures RowsOf(a + b) == RowsOf(a) + RowsOf(b)
  {
  }

  lemma {:induction false} ComboRows(returns_: GroupReturns, combo: seq<nat>, groups: seq<seq<nat>>)
    requires FullCombo(returns_, combo, groups)
    ensures TestsNamed(groups, combo)
    ensures RowsOf(ComboReturns(combo, returns_)) == Concat(groups, combo)
  {
    if combo != [] {
      var m := |combo| - 1;
      ComboRows(returns_, combo[..m], groups);
      RowsOfAppend(ComboReturns(combo[..m], returns_), returns_[combo[m]]);
    }
  }

  lemma {:induction false} JoinedRows(path: seq<nat>, combos: seq<seq<nat>>, results: map<seq<nat>, GroupReturns>, groups: seq<seq<nat>>)
    requires PathNamed(path, combos) && FullResults(results, combos, groups)
    ensures TestsNamed(groups, GroupOrder(path, combos))
    ensures RowsOf(Joined(path, combos, results)) == Concat(groups, GroupOrder(path, combos))
  {
    if path != [] {
      var m := |path| - 1;
      var combo := combos[path[m]];
      JoinedRows(path[..m], combos, results, groups);
      ComboRows(results[combo], combo, groups);
      RowsOfAppend(Joined(path[..m], combos, results), ComboReturns(combo, results[combo]));
      ConcatAppend(groups, GroupOrder(path[..m], combos), combo);
    }
  }

  /** The returns of a full path are one return for every row, in some order. */
  lemma PathIsPermutation(path: seq<nat>, splits: nat, k: nat, n: nat, results: map<seq<nat>, GroupReturns>)
    requires 0 < splits <= n
    requires CoversOnce(path, Combos(0, splits, k), splits)
    requires FullResults(results, Combos(0, splits, k), GroupList(n, splits))
    ensures PathReturns(path, Combos(0, splits, k), results) != []
    ensures multiset(RowsOf(PathReturns(path, Combos(0, splits, k), results))) == multiset(Upto(n))
  {
    var combos, groups := Combos(0, splits, k), GroupList(n, splits);
    JoinedRows(path, combos, results, groups);
    PathListsGroups(path, splits, k);
    ConcatPermutes(groups, GroupOrder(path, combos));
    GroupsPartition(n, splits);
    PartitionFlat(groups, n);
    assert |multiset(Upto(n))| == n;
  }

  lemma {:induction false} NoneEmpty(paths: seq<seq<nat>>, combos: seq<seq<nat>>, results: map<seq<nat>, GroupReturns>)
    requires AllNamed(paths, combos)
    requires forall p :: 0 <= p < |paths| ==> PathReturns(paths[p], combos, results) != []
    ensures |NonEmptyReturns(paths, combos, results)| == |paths|
    ensures forall p :: 0 <= p < |paths| ==>
      NonEmptyReturns(paths, combos, results)[p] == PathReturns(paths[p], combos, results)
  {
    hide PathReturns;
    if paths != [] {
      var m := |paths| - 1;
      NoneEmpty(paths[..m], combos, results);
      assert forall p :: 0 <= p < m ==> paths[..m][p] == paths[p];
    }
  }

  // ----- what a path delivers, whatever is missing

  /** Everything one combination delivered for its groups. */
  ghost function ComboSamples(combo: seq<nat>, returns_: GroupReturns): multiset<Sample> {
    if combo == [] then multiset{}
    else
      var g := combo[0];
      (if g in returns_ then multiset(returns_[g]) else multiset{}) + ComboSamples(combo[1..], returns_)
  }

  /** Everything the combinations of a path delivered. */
  ghost function PathSamples(path: seq<nat>, combos: seq<seq<nat>>, results: map<seq<nat>, GroupReturns>): multiset<Sample>
    requires PathNamed(path, combos)
  {
    if path == [] then multiset{}
    else
      var combo := combos[path[0]];
      (if combo in results then ComboSamples(combo, results[combo]) else multiset{})
        + PathSamples(path[1..], combos, results)
  }

  lemma {:induction false} ComboSamplesLast(combo: seq<nat>, returns_: GroupReturns)
    requires combo != []
    ensures var m := |combo| - 1;
      ComboSamples(combo, returns_) ==
      ComboSamples(combo[..m], returns_) + (if combo[m] in returns_ then multiset(returns_[combo[m]]) else multiset{})
  {
    var m := |combo| - 1;
    if m > 0 {
      ComboSamplesLast(combo[1..], returns_);
      assert combo[1..][..m - 1] == combo[..m][1..];
    }
  }

  lemma {:induction false} PathSamplesLast(path: seq<nat>, combos: seq<seq<nat>>, results: map<seq<nat>, GroupReturns>)
    requires path != [] && PathNamed(path, combos)
    ensures var m := |path| - 1; var combo := combos[path[m]];
      PathSamples(path, combos, results) ==
      PathSamples(path[..m], combos, results) + (if combo in results then ComboSamples(combo, results[combo]) else multiset{})
  {
    hide ComboSamples;
    var m := |path| - 1;
    if m > 0 {
      PathSamplesLast(path[1..], combos, results);
      assert path[1..][..m - 1] == path[..m][1..];
    }
  }

  lemma {:induction false} ComboReturnsSamples(combo: seq<nat>, returns_: GroupReturns)
    ensures multiset(ComboReturns(combo, returns_)) == ComboSamples(combo, returns_)
  {
    if combo != [] {
      ComboReturnsSamples(combo[..|combo| - 1], returns_);
      ComboSamplesLast(combo, returns_);
    }
  }

  lemma {:induction false} JoinedSamples(path: seq<nat>, combos: seq<seq<nat>>, results: map<seq<nat>, GroupReturns>)
    requires PathNamed(path, combos)
    ensures multiset(Joined(path, combos, results)) == PathSamples(path, combos, results)
  {
    if path != [] {
      var m := |path| - 1;
      var combo := combos[path[m]];
      JoinedSamples(path[..m], combos, results);
      PathSamplesLast(path, combos, results);
      if combo in results {
        ComboReturnsSamples(combo, results[combo]);
      }
      hide ComboReturns, ComboSamples;
    }
  }

  /** Every combination of the path has results, and some group of them has a sample. */
  ghost predicate Contributes(path: seq<nat>, combos: seq<seq<nat>>, results: map<seq<nat>, GroupReturns>)
    requires PathNamed(path, combos)
  {
    && (forall i :: 0 <= i < |path| ==> combos[path[i]] in results)
    && PathSamples(path, combos, results) != multiset{}
  }

  lemma PathReturnsSamples(path: seq<nat>, combos: seq<seq<nat>>, results: map<seq<nat>, GroupReturns>)
    requires PathNamed(path, combos)
    ensures PathReturns(path, combos, results) != [] <==> Contributes(path, combos, results)
    ensures Contributes(path, combos, results) ==>
      multiset(PathReturns(path, combos, results)) == PathSamples(path, combos, results)
  {
    JoinedSamples(path, combos, results);
    hide PathSamples, Joined;
  }

  /**
   The series belong, in order, to the paths that contribute, one to each, and each holds
   exactly the samples its path's combinations delivered.
   */
  ghost predicate SeriesOf(paths: seq<seq<nat>>, combos: seq<seq<nat>>, results: map<seq<nat>, GroupReturns>,
                           series: seq<Chunk>, kept: seq<nat>)
    requires AllNamed(paths, combos)
  {
    && |kept| == |series| && StrictlyIncreasing(kept)
    && (forall s :: 0 <= s < |kept| ==> kept[s] < |paths|)
    && (forall p: nat :: p < |paths| ==> (p in kept <==> Contributes(paths[p], combos, results)))
    && (forall s :: 0 <= s < |kept| ==> multiset(series[s]) == PathSamples(paths[kept[s]], combos, results))
  }

  lemma {:induction false} KeptSeries(paths: seq<seq<nat>>, combos: seq<seq<nat>>, results: map<seq<nat>, GroupReturns>)
    returns (kept: seq<nat>)
    requires AllNamed(paths, combos)
    ensures SeriesOf(paths, combos, results, NonEmptyReturns(paths, combos, results), kept)
  {
    kept := [];
    if paths != [] {
      var m := |paths| - 1;
      assert PathNamed(paths[m], combos);
      kept := KeptSeries(paths[..m], combos, results);
      PathReturnsSamples(paths[m], combos, results);
      hide PathReturns, PathSamples, Contributes;
      kept := OneMoreSeries(paths, combos, results, NonEmptyReturns(paths[..m], combos, results), kept,
                            PathReturns(paths[m], combos, results));
    }
  }

  lemma OneMoreSeries(paths: seq<seq<nat>>, combos: seq<seq<nat>>, results: map<seq<nat>, GroupReturns>,
                      series: seq<Chunk>, kept: seq<nat>, last: Chunk) returns (more: seq<nat>)
    requires paths != [] && AllNamed(paths, combos) && PathNamed(paths[|paths| - 1], combos)
    requires SeriesOf(paths[..|paths| - 1], combos, results, series, kept)
    requires last != [] <==> Contributes(paths[|paths| - 1], combos, results)
    requires last != [] ==> multiset(last) == PathSamples(paths[|paths| - 1], combos, results)
    ensures SeriesOf(paths, combos, results, series + (if last != [] then [last] else []), more)
  {
    hide PathSamples, Contributes;
    var m := |paths| - 1;
    more := kept + (if last != [] then [m] else []);
    forall p: nat | p < |paths|
      ensures p in more <==> Contributes(paths[p], combos, results)
    {
      assert p < m ==> paths[..m][p] == paths[p];
    }
  }

  // ----- conservation: over all paths, every combination's returns are used once

  lemma {:induction false} FlatAllListing(paths: seq<seq<nat>>, m: nat)
    requires forall p :: 0 <= p < |paths| ==> StrictlyIncreasing(paths[p])
    requires forall p, r, t :: 0 <= p < |paths| && 0 <= r < |paths| && t in paths[p] && t in paths[r] ==> p == r
    ensures NoRepeats(FlatAll(paths))
    ensures forall t :: t in FlatAll(paths) <==> exists p :: 0 <= p < |paths| && t in paths[p]
  {
    if paths != [] {
      var last := |paths| - 1;
      FlatAllListing(paths[..last], m);
      forall t
        ensures t in FlatAll(paths) <==> exists p :: 0 <= p < |paths| && t in paths[p]
      {
        if p :| 0 <= p < |paths| && t in paths[p] {
          assert p < last ==> paths[..last][p] == paths[p];
        }
        if t in FlatAll(paths[..last]) {
          var p :| 0 <= p < last && t in paths[..last][p];
          assert t in paths[p];
        }
      }
      forall t | t in FlatAll(paths[..last])
        ensures t !in paths[last]
      {
        var p :| 0 <= p < last && t in paths[..last][p];
        assert t in paths[p];
      }
      AppendNoRepeats(FlatAll(paths[..last]), paths[last]);
    }
  }

  lemma UsedOnceOnly(paths: seq<seq<nat>>, t: nat, p: nat, r: nat)
    requires UsedOnce(paths, t) && p < |paths| && r < |paths| && t in paths[p] && t in paths[r]
    ensures p == r
  {
  }

  lemma PathsListCombos(paths: seq<seq<nat>>, splits: nat, k: nat)
    requires 1 <= k <= splits && IsPathSystem(paths, splits, k)
    ensures Lists(FlatAll(paths), |Combos(0, splits, k)|)
  {
    var combos := Combos(0, splits, k);
    assert forall p :: 0 <= p < |paths| ==> CoversOnce(paths[p], combos, splits);
    forall p, r, t | 0 <= p < |paths| && 0 <= r < |paths| && t in paths[p] && t in paths[r]
      ensures p == r
    {
      UsedOnceOnly(paths, t, p, r);
    }
    FlatAllListing(paths, |combos|);
    forall t: nat
      ensures t in FlatAll(paths) <==> t < |combos|
    {
      if t < |combos| {
        assert UsedOnce(paths, t);
      }
    }
  }

  /** What each combination delivered, as one series per combination. */
  ghost function ComboSeries(combos: seq<seq<nat>>, results: map<seq<nat>, GroupReturns>): (series: seq<Chunk>)
    ensures |series| == |combos|
    ensures forall t :: 0 <= t < |series| ==>
      series[t] == if combos[t] in results then ComboReturns(combos[t], results[combos[t]]) else []
  {
    seq(|combos|, t requires 0 <= t < |combos| =>
      if combos[t] in results then ComboReturns(combos[t], results[combos[t]]) else [])
  }

  lemma {:induction false} JoinedIsConcat(path: seq<nat>, combos: seq<seq<nat>>, results: map<seq<nat>, GroupReturns>)
    requires PathNamed(path, combos)
    ensures TestsNamed(ComboSeries(combos, results), path)
    ensures Joined(path, combos, results) == Concat(ComboSeries(combos, results), path)
  {
    if path != [] {
      JoinedIsConcat(path[..|path| - 1], combos, results);
    }
  }

  lemma {:induction false} AllJoined(paths: seq<seq<nat>>, combos: seq<seq<nat>>, results: map<seq<nat>, GroupReturns>)
    requires AllNamed(paths, combos)
    requires forall t :: 0 <= t < |combos| ==> combos[t] in results
    ensures TestsNamed(ComboSeries(combos, results), FlatAll(paths))
    ensures FlatAll(NonEmptyReturns(paths, combos, results)) == Concat(ComboSeries(combos, results), FlatAll(paths))
  {
    if paths != [] {
      var m := |paths| - 1;
      assert PathNamed(paths[m], combos);
      AllJoined(paths[..m], combos, results);
      JoinedIsConcat(paths[m], combos, results);
      ConcatAppend(ComboSeries(combos, results), FlatAll(paths[..m]), paths[m]);
      FlatAllLast(NonEmptyReturns(paths[..m], combos, results), PathReturns(paths[m], combos, results));
    }
  }

  lemma FlatAllLast(series: seq<Chunk>, last: Chunk)
    ensures FlatAll(series + (if last != [] then [last] else [])) == FlatAll(series) + last
  {
    if last != [] {
      assert (series + [last])[..|series|] == series;
    } else {
      assert series + [] == series;
    }
  }

  /** Whatever the returns are, the path series together hold each combination's returns once. */
  lemma ReturnsConserved(paths: seq<seq<nat>>, splits: nat, k: nat, results: map<seq<nat>, GroupReturns>)
    requires 1 <= k <= splits && IsPathSystem(paths, splits, k) && AllNamed(paths, Combos(0, splits, k))
    requires forall t :: 0 <= t < |Combos(0, splits, k)| ==> Combos(0, splits, k)[t] in results
    ensures multiset(FlatAll(NonEmptyReturns(paths, Combos(0, splits, k), results))) ==
      multiset(FlatAll(ComboSeries(Combos(0, splits, k), results)))
  {
    AllJoined(paths, Combos(0, splits, k), results);
    PathsListCombos(paths, splits, k);
    ConcatPermutes(ComboSeries(Combos(0, splits, k), results), FlatAll(paths));
  }

  ghost predicate IsRowPermutation(chunk: Chunk, n: nat) {
    multiset(RowsOf(chunk)) == multiset(Upto(n))
  }

  /** The series of some path system, whatever combinations are missing. */
  ghost predicate DrawnFrom(series: seq<Chunk>, splits: nat, k: nat, results: map<seq<nat>, GroupReturns>)
    requires 1 <= k <= splits
  {
    exists paths: seq<seq<nat>>, kept: seq<nat> ::
      && IsPathSystem(paths, splits, k) && AllNamed(paths, Combos(0, splits, k))
      && SeriesOf(paths, Combos(0, splits, k), results, series, kept)
  }

  /**
   The path loop of `evaluate` on a valid setting.  When the test size does not divide the
   number of groups there are no path series.  When it does, whatever results are missing,
   there is one series for each path of a path system whose combinations all have results
   and some sample, and it holds exactly their samples.  If every combination delivered all
   its returns there are C(N - 1, k - 1) series, each with exactly one return per row.
   */
  method EvaluatePaths(n: nat, splits: nat, k: nat, results: map<seq<nat>, GroupReturns>)
    returns (pathReturns: seq<Chunk>)
    requires 1 <= k < splits <= n
    ensures splits % k != 0 ==> pathReturns == []
    ensures splits % k == 0 ==> DrawnFrom(pathReturns, splits, k, results)
    ensures splits % k == 0 && FullResults(results, Combos(0, splits, k), GroupList(n, splits)) ==>
      |pathReturns| == Choose(splits - 1, k - 1) &&
      forall p :: 0 <= p < |pathReturns| ==> IsRowPermutation(pathReturns[p], n)
  {
    var combos := Combos(0, splits, k);
    var paths := PathComboIndices(splits, k);
    NamedPaths(paths, splits, k);
    pathReturns := AssemblePaths(paths, combos, results);
    ghost var kept := KeptSeries(paths, combos, results);
    hide SeriesOf, IsPathSystem;
    if splits % k == 0 && FullResults(results, combos, GroupList(n, splits)) {
      forall p | 0 <= p < |paths|
        ensures PathReturns(paths[p], combos, results) != []
        ensures IsRowPermutation(PathReturns(paths[p], combos, results), n)
      {
        PathIsPermutation(paths[p], splits, k, n, results);
      }
      NoneEmpty(paths, combos, results);
    }
  }

  lemma NamedPaths(paths: seq<seq<nat>>, splits: nat, k: nat)
    requires 1 <= k <= splits
    requires paths == [] || IsPathSystem(paths, splits, k)
    ensures AllNamed(paths, Combos(0, splits, k))
  {
  }
}
