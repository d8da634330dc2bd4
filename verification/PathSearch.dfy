/**
 CPCV path search: the backtracking search that distributes all test combinations
 over paths, each path to cover every group once.
 */
module PathSearch {
  import opened Factorization

  ghost predicate PrefixOf(a: seq<nat>, full: seq<nat>) {
    |a| <= |full| && full[..|a|] == a
  }

  /** full agrees with asg and sends the next combination to path j. */
  ghost predicate Continues(asg: seq<nat>, j: nat, full: seq<nat>) {
    |asg| < |full| && full[..|asg|] == asg && full[|asg|] == j
  }

  /** No factorization sends the combinations placed so far where asg sends them. */
  ghost predicate DeadEnd(combos: seq<set<nat>>, n: nat, nPaths: nat, asg: seq<nat>) {
    forall full :: PrefixOf(asg, full) ==> !IsFactorization(combos, n, nPaths, full)
  }

  ghost predicate DeadBranch(combos: seq<set<nat>>, n: nat, nPaths: nat, asg: seq<nat>, j: nat) {
    forall full :: Continues(asg, j, full) ==> !IsFactorization(combos, n, nPaths, full)
  }

  ghost predicate IsPacking(combos: seq<set<nat>>, asg: seq<nat>) {
    |asg| <= |combos| && Packing(combos, asg)
  }

  /** Exchanging the futures of two paths with one cover moves a factorization between branches. */
  lemma SwapBranch(combos: seq<set<nat>>, n: nat, nPaths: nat, asg: seq<nat>, i: nat, j: nat,
                   full: seq<nat>)
    requires |asg| < |combos| && i < nPaths && j < nPaths
    requires Cover(combos, asg, i) == Cover(combos, asg, j)
    requires Continues(asg, j, full) && IsFactorization(combos, n, nPaths, full)
    ensures Continues(asg, i, SwapFuture(full, |asg|, i, j))
    ensures IsFactorization(combos, n, nPaths, SwapFuture(full, |asg|, i, j))
  {
    SwapKeepsFactorization(combos, n, nPaths, full, |asg|, i, j);
    assert SwapFuture(full, |asg|, i, j)[..|asg|] == asg;
  }

  /**
   A path that already covers what another one covers has the same future: if the
   one is a dead branch for the next combination, so is the other.
   */
  lemma SymmetricBranch(combos: seq<set<nat>>, n: nat, nPaths: nat, asg: seq<nat>, i: nat, j: nat)
    requires |asg| < |combos| && i < nPaths && j < nPaths
    requires Cover(combos, asg, i) == Cover(combos, asg, j)
    requires DeadBranch(combos, n, nPaths, asg, i)
    ensures DeadBranch(combos, n, nPaths, asg, j)
  {
    forall full | Continues(asg, j, full) && IsFactorization(combos, n, nPaths, full)
      ensures false
    {
      SwapBranch(combos, n, nPaths, asg, i, j, full);
    }
  }

  /** A factorization only continues to a path that misses the combination. */
  lemma ContinuesWhereDisjoint(combos: seq<set<nat>>, n: nat, nPaths: nat, asg: seq<nat>, j: nat,
                               full: seq<nat>)
    requires |asg| < |combos|
    requires Continues(asg, j, full) && IsFactorization(combos, n, nPaths, full)
    ensures combos[|asg|] !! Cover(combos, asg, j)
  {
    var m := |asg|;
    CoverMembers(combos, asg, j);
    forall x | x in Cover(combos, asg, j)
      ensures x !in combos[m]
    {
      var t :| 0 <= t < m && asg[t] == j && x in combos[t];
      assert full[..m][t] == j && full[t] == full[m];
    }
  }

  /** ... and such a path still has room. */
  lemma DisjointHasRoom(combos: seq<set<nat>>, n: nat, k: nat, perPath: nat, asg: seq<nat>, j: nat)
    requires Uniform(combos, n, k) && k >= 1 && n == k * perPath
    requires |asg| < |combos| && IsPacking(combos, asg)
    requires combos[|asg|] !! Cover(combos, asg, j)
    ensures |Picks(asg, j)| < perPath
  {
    var cover, combo := Cover(combos, asg, j), combos[|asg|];
    CoverSize(combos, asg, j, n, k);
    SubsetSize(cover + combo, Groups(n));
    assert |cover + combo| == |cover| + |combo|;
    FactorLess(k, |Picks(asg, j)|, perPath);
  }

  lemma FactorLess(k: nat, a: nat, b: nat)
    requires k >= 1 && k * a + k <= k * b
    ensures a < b
  {
    if a >= b {
      FactorMonotone(k, b, a);
    }
  }

  lemma FactorMonotone(k: nat, a: nat, b: nat)
    requires a <= b
    ensures k * a <= k * b
  {
  }

  lemma AllBranchesDead(combos: seq<set<nat>>, n: nat, nPaths: nat, asg: seq<nat>)
    requires |asg| < |combos|
    requires forall j: nat :: j < nPaths ==> DeadBranch(combos, n, nPaths, asg, j)
    ensures DeadEnd(combos, n, nPaths, asg)
  {
    forall full | PrefixOf(asg, full)
      ensures !IsFactorization(combos, n, nPaths, full)
    {
      if |full| == |combos| && InRange(full, nPaths) {
        assert Continues(asg, full[|asg|], full);
        assert DeadBranch(combos, n, nPaths, asg, full[|asg|]);
      }
    }
  }

  lemma DeadEndIsDeadBranch(combos: seq<set<nat>>, n: nat, nPaths: nat, asg: seq<nat>, j: nat)
    requires DeadEnd(combos, n, nPaths, asg + [j])
    ensures DeadBranch(combos, n, nPaths, asg, j)
  {
    forall full | Continues(asg, j, full)
      ensures !IsFactorization(combos, n, nPaths, full)
    {
      assert full[..|asg| + 1] == asg + [j];
      assert PrefixOf(asg + [j], full);
    }
  }

  /** Placing one more combination changes one path, by that combination. */
  lemma PlaceOne(combos: seq<set<nat>>, asg: seq<nat>, j: nat, p: nat)
    requires |asg| < |combos|
    ensures Picks(asg + [j], p) == if p == j then Picks(asg, p) + [|asg|] else Picks(asg, p)
    ensures Cover(combos, asg + [j], p) ==
      if p == j then Cover(combos, asg, p) + combos[|asg|] else Cover(combos, asg, p)
  {
    assert (asg + [j])[..|asg|] == asg;
  }

  lemma StillPacking(combos: seq<set<nat>>, asg: seq<nat>, j: nat)
    requires |asg| < |combos| && Packing(combos, asg)
    requires combos[|asg|] !! Cover(combos, asg, j)
    ensures Packing(combos, asg + [j])
  {
    CoverMembers(combos, asg, j);
  }

  /** The lists and sets that the nested `backtrack` closes over. */
  class Search {
    const n: nat
    const k: nat
    const combos: seq<set<nat>>
    const nPaths: nat
    const perPath: nat
    var paths: seq<seq<nat>>
    var pathGroups: seq<set<nat>>
    ghost var asg: seq<nat>

    ghost predicate Setting() {
      && k >= 1 && n == k * perPath
      && Uniform(combos, n, k)
      && k * |combos| == n * nPaths
    }

    /** paths and path_groups say, path by path, which combinations were placed there. */
    ghost predicate Valid()
      reads this
    {
      && Setting()
      && IsPacking(combos, asg) && InRange(asg, nPaths)
      && |paths| == nPaths && |pathGroups| == nPaths
      && (forall p :: 0 <= p < nPaths ==> paths[p] == Picks(asg, p))
      && (forall p :: 0 <= p < nPaths ==> pathGroups[p] == Cover(combos, asg, p))
    }

    constructor (n: nat, k: nat, combos: seq<set<nat>>, nPaths: nat)
      requires k >= 1 && n % k == 0
      requires Uniform(combos, n, k) && k * |combos| == n * nPaths
      ensures Valid() && asg == []
      ensures this.n == n && this.k == k && this.combos == combos && this.nPaths == nPaths
    {
      this.n, this.k, this.combos, this.nPaths, this.perPath := n, k, combos, nPaths, n / k;
      paths := seq(nPaths, _ => []);
      pathGroups := seq(nPaths, _ => {});
      asg := [];
    }

    /**
     Soundness, undo and completeness.  Success leaves a factorization that extends
     what was placed before; failure restores both lists and proves a dead end, even
     though of several paths with one cover only the first is tried.
     */
    method Backtrack(position: nat) returns (found: bool)
      requires Valid() && |asg| == position
      modifies this
      ensures found ==> Valid() && PrefixOf(old(asg), asg) && IsFactorization(combos, n, nPaths, asg)
      ensures !found ==> paths == old(paths) && pathGroups == old(pathGroups) && asg == old(asg)
      ensures !found ==> DeadEnd(combos, n, nPaths, old(asg))
      decreases |combos| - position, 1
    {
      if position == |combos| {
        FullByCounting(combos, n, k, nPaths, asg);
        found := forall p :: 0 <= p < |pathGroups| ==> |pathGroups[p]| == n;
        return;
      }
      var seen: set<set<nat>> := {};
      var pathIdx := 0;
      while pathIdx < nPaths
        invariant pathIdx <= nPaths && Valid()
        invariant paths == old(paths) && pathGroups == old(pathGroups) && asg == old(asg)
        invariant forall s :: s in seen ==> exists i: nat :: i < pathIdx && pathGroups[i] == s
        invariant forall j: nat :: j < pathIdx ==> DeadBranch(combos, n, nPaths, asg, j)
      {
        var key := pathGroups[pathIdx];
        if key in seen {
          var i: nat :| i < pathIdx && pathGroups[i] == key;
          SymmetricBranch(combos, n, nPaths, asg, i, pathIdx);
          pathIdx := pathIdx + 1;
          continue;
        }
        seen := seen + {key};
        found := false;
        if |paths[pathIdx]| < perPath && combos[position] !! key {
          found := TryPath(position, pathIdx);
        } else {
          Blocked(position, pathIdx);
        }
        if found {
          return;
        }
        pathIdx := pathIdx + 1;
      }
      AllBranchesDead(combos, n, nPaths, asg);
      found := false;
    }

    /** The code skips exactly the paths no factorization continues to. */
    lemma Blocked(position: nat, pathIdx: nat)
      requires Valid() && |asg| == position < |combos| && pathIdx < nPaths
      requires |paths[pathIdx]| >= perPath || !(combos[position] !! pathGroups[pathIdx])
      ensures DeadBranch(combos, n, nPaths, asg, pathIdx)
    {
      forall full | Continues(asg, pathIdx, full) && IsFactorization(combos, n, nPaths, full)
        ensures false
      {
        ContinuesWhereDisjoint(combos, n, nPaths, asg, pathIdx, full);
        DisjointHasRoom(combos, n, k, perPath, asg, pathIdx);
      }
    }

    /** Append, recurse, and on failure pop and put the saved set back. */
    method TryPath(position: nat, pathIdx: nat) returns (found: bool)
      requires Valid() && |asg| == position < |combos| && pathIdx < nPaths
      requires combos[position] !! pathGroups[pathIdx]
      modifies this
      ensures found ==> Valid() && PrefixOf(old(asg), asg) && IsFactorization(combos, n, nPaths, asg)
      ensures !found ==> paths == old(paths) && pathGroups == old(pathGroups) && asg == old(asg)
      ensures !found ==> DeadBranch(combos, n, nPaths, old(asg), pathIdx)
      decreases |combos| - position, 0
    {
      var previous := pathGroups[pathIdx];
      Place(position, pathIdx);
      found := Backtrack(position + 1);
      if found {
        assert asg[..position] == asg[..position + 1][..position] == old(asg);
        return;
      }
      paths := paths[pathIdx := paths[pathIdx][..|paths[pathIdx]| - 1]];
      pathGroups := pathGroups[pathIdx := previous];
      asg := asg[..position];
      DeadEndIsDeadBranch(combos, n, nPaths, old(asg), pathIdx);
    }

    /** `paths[path_idx].append(combo_idx)` and `path_groups[path_idx].update(combo_set)`. */
    method Place(position: nat, pathIdx: nat)
      requires Valid() && |asg| == position < |combos| && pathIdx < nPaths
      requires combos[position] !! pathGroups[pathIdx]
      modifies this
      ensures Valid() && asg == old(asg) + [pathIdx]
      ensures paths == old(paths)[pathIdx := old(paths)[pathIdx] + [position]]
      ensures pathGroups == old(pathGroups)[pathIdx := old(pathGroups)[pathIdx] + combos[position]]
    {
      ghost var before := asg;
      assert pathGroups[pathIdx] == Cover(combos, before, pathIdx);
      paths := paths[pathIdx := paths[pathIdx] + [position]];
      pathGroups := pathGroups[pathIdx := pathGroups[pathIdx] + combos[position]];
      asg := asg + [pathIdx];
      forall p: nat | p < nPaths
        ensures paths[p] == Picks(asg, p) && pathGroups[p] == Cover(combos, asg, p)
      {
        PlaceOne(combos, before, pathIdx, p);
      }
      StillPacking(combos, before, pathIdx);
    }
  }
}
