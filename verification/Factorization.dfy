/**
 What the path search is looking for.  An assignment gives each combination, in
 enumeration order, the index of the path it goes to.  A factorization assigns all
 of them so that every path covers each group exactly once.
 */
module Factorization {
  import opened Combinations

  /** All group ids 0..n. */
  function Groups(n: nat): (s: set<nat>)
    ensures forall x: nat :: x in s <==> x < n
    ensures |s| == n
  {
    MembersSize(Upto(n));
    assert forall x: nat :: x in Upto(n) <==> x < n by {
      forall x: nat | x < n
        ensures x in Upto(n)
      {
        assert Upto(n)[x] == x;
      }
    }
    Members(Upto(n))
  }

  function Upto(n: nat): (c: seq<nat>)
    ensures |c| == n && forall i :: 0 <= i < n ==> c[i] == i
  {
    seq(n, i => i)
  }

  /** The combinations assigned to a path, in the order in which they were assigned. */
  function Picks(asg: seq<nat>, path: nat): seq<nat> {
    if asg == [] then []
    else
      var m := |asg| - 1;
      if asg[m] == path then Picks(asg[..m], path) + [m] else Picks(asg[..m], path)
  }

  /** The union of the combinations assigned to a path. */
  function Cover(combos: seq<set<nat>>, asg: seq<nat>, path: nat): set<nat>
    requires |asg| <= |combos|
  {
    if asg == [] then {}
    else
      var m := |asg| - 1;
      if asg[m] == path then Cover(combos, asg[..m], path) + combos[m]
      else Cover(combos, asg[..m], path)
  }

  ghost predicate InRange(asg: seq<nat>, nPaths: nat) {
    forall t :: 0 <= t < |asg| ==> asg[t] < nPaths
  }

  /** No group is covered twice by one path. */
  ghost predicate Packing(combos: seq<set<nat>>, asg: seq<nat>)
    requires |asg| <= |combos|
  {
    forall t, u :: 0 <= t < u < |asg| && asg[t] == asg[u] ==> combos[t] !! combos[u]
  }

  ghost predicate IsFactorization(combos: seq<set<nat>>, n: nat, nPaths: nat, asg: seq<nat>) {
    && |asg| == |combos|
    && InRange(asg, nPaths)
    && Packing(combos, asg)
    && forall p :: 0 <= p < nPaths ==> Cover(combos, asg, p) == Groups(n)
  }

  /** Every combination is a set of k of the n groups. */
  ghost predicate Uniform(combos: seq<set<nat>>, n: nat, k: nat) {
    forall t :: 0 <= t < |combos| ==> |combos[t]| == k && combos[t] <= Groups(n)
  }

  lemma {:induction false} CoverMembers(combos: seq<set<nat>>, asg: seq<nat>, path: nat)
    requires |asg| <= |combos|
    ensures forall x :: x in Cover(combos, asg, path) <==>
      exists t :: 0 <= t < |asg| && asg[t] == path && x in combos[t]
  {
    if asg != [] {
      var m := |asg| - 1;
      var rest := asg[..m];
      CoverMembers(combos, rest, path);
      forall x
        ensures x in Cover(combos, asg, path) <==>
          exists t :: 0 <= t < |asg| && asg[t] == path && x in combos[t]
      {
        if t :| 0 <= t < |asg| && asg[t] == path && x in combos[t] {
          if t < m {
            assert rest[t] == path;
          }
        }
        if x in Cover(combos, rest, path) {
          var t :| 0 <= t < |rest| && rest[t] == path && x in combos[t];
          assert asg[t] == path;
        }
      }
    }
  }

  lemma {:induction false} CoverSize(combos: seq<set<nat>>, asg: seq<nat>, path: nat, n: nat, k: nat)
    requires |asg| <= |combos| && Uniform(combos, n, k) && Packing(combos, asg)
    ensures |Cover(combos, asg, path)| == k * |Picks(asg, path)|
    ensures Cover(combos, asg, path) <= Groups(n)
  {
    if asg != [] {
      var m := |asg| - 1;
      CoverSize(combos, asg[..m], path, n, k);
      if asg[m] == path {
        CoverMisses(combos, asg, path);
        DisjointSize(Cover(combos, asg[..m], path), combos[m]);
        OneMore(k, |Picks(asg[..m], path)|);
      }
    }
  }

  lemma DisjointSize(a: set<nat>, b: set<nat>)
    requires a !! b
    ensures |a + b| == |a| + |b|
  {
  }

  lemma OneMore(k: nat, a: nat)
    ensures k * (a + 1) == k * a + k
  {
  }

  /** The last combination packed is disjoint from what its path covered before. */
  lemma CoverMisses(combos: seq<set<nat>>, asg: seq<nat>, path: nat)
    requires asg != [] && |asg| <= |combos| && Packing(combos, asg)
    requires asg[|asg| - 1] == path
    ensures Cover(combos, asg[..|asg| - 1], path) !! combos[|asg| - 1]
  {
    CoverMembers(combos, asg[..|asg| - 1], path);
  }

  lemma {:induction false} PicksMembers(asg: seq<nat>, path: nat)
    ensures StrictlyIncreasing(Picks(asg, path))
    ensures forall t :: t in Picks(asg, path) <==> 0 <= t < |asg| && asg[t] == path
  {
    if asg != [] {
      var m := |asg| - 1;
      var rest := Picks(asg[..m], path);
      PicksMembers(asg[..m], path);
      assert forall i :: 0 <= i < |rest| ==> rest[i] in rest;
    }
  }

  /** Groups covered so far, added up over the first m paths. */
  ghost function TotalCover(combos: seq<set<nat>>, asg: seq<nat>, m: nat): nat
    requires |asg| <= |combos|
  {
    if m == 0 then 0 else TotalCover(combos, asg, m - 1) + |Cover(combos, asg, m - 1)|
  }

  lemma {:induction false} TotalCoverStep(combos: seq<set<nat>>, asg: seq<nat>, m: nat, n: nat, k: nat)
    requires asg != [] && |asg| <= |combos| && Uniform(combos, n, k) && Packing(combos, asg)
    ensures TotalCover(combos, asg, m) ==
      TotalCover(combos, asg[..|asg| - 1], m) + (if asg[|asg| - 1] < m then k else 0)
  {
    if m > 0 {
      TotalCoverStep(combos, asg, m - 1, n, k);
      var rest := asg[..|asg| - 1];
      if asg[|asg| - 1] == m - 1 {
        CoverMisses(combos, asg, m - 1);
      }
    }
  }

  lemma {:induction false} TotalCoverIs(combos: seq<set<nat>>, asg: seq<nat>, nPaths: nat, n: nat, k: nat)
    requires |asg| <= |combos| && Uniform(combos, n, k) && Packing(combos, asg) && InRange(asg, nPaths)
    ensures TotalCover(combos, asg, nPaths) == k * |asg|
  {
    if asg == [] {
      TotalCoverEmpty(combos, nPaths);
    } else {
      TotalCoverStep(combos, asg, nPaths, n, k);
      TotalCoverIs(combos, asg[..|asg| - 1], nPaths, n, k);
    }
  }

  lemma {:induction false} TotalCoverEmpty(combos: seq<set<nat>>, m: nat)
    ensures TotalCover(combos, [], m) == 0
  {
    if m > 0 {
      TotalCoverEmpty(combos, m - 1);
    }
  }

  lemma SubsetSize(a: set<nat>, b: set<nat>)
    requires a <= b
    ensures |a| <= |b|
    ensures |a| == |b| ==> a == b
  {
    assert b == a + (b - a);
    assert |b| == |a| + |b - a|;
  }

  /** Paths hold at most n groups each, so a total of n per path leaves none short. */
  lemma {:induction false} TotalCoverTight(combos: seq<set<nat>>, asg: seq<nat>, m: nat, n: nat, k: nat)
    requires |asg| <= |combos| && Uniform(combos, n, k) && Packing(combos, asg)
    ensures TotalCover(combos, asg, m) <= n * m
    ensures TotalCover(combos, asg, m) == n * m ==>
      forall p :: 0 <= p < m ==> Cover(combos, asg, p) == Groups(n)
  {
    if m > 0 {
      TotalCoverTight(combos, asg, m - 1, n, k);
      CoverSize(combos, asg, m - 1, n, k);
      SubsetSize(Cover(combos, asg, m - 1), Groups(n));
      assert n * m == n * (m - 1) + n;
    }
  }

  /**
   Double counting: once every combination has been packed, no path can be short of a
   group, because k * C(n, k) = n * C(n - 1, k - 1).
   */
  lemma FullByCounting(combos: seq<set<nat>>, n: nat, k: nat, nPaths: nat, asg: seq<nat>)
    requires Uniform(combos, n, k) && k * |combos| == n * nPaths
    requires |asg| == |combos| && InRange(asg, nPaths) && Packing(combos, asg)
    ensures IsFactorization(combos, n, nPaths, asg)
  {
    TotalCoverIs(combos, asg, nPaths, n, k);
    TotalCoverTight(combos, asg, nPaths, n, k);
  }

  // ----- the swap that justifies trying only one of several paths with equal cover

  function SwapName(p: nat, i: nat, j: nat): nat {
    if p == i then j else if p == j then i else p
  }

  /** The assignment whose entries from position on have the names i and j exchanged. */
  function SwapFuture(asg: seq<nat>, position: nat, i: nat, j: nat): (r: seq<nat>)
    requires position <= |asg|
    ensures |r| == |asg|
  {
    seq(|asg|, t requires 0 <= t < |asg| =>
      if t < position then asg[t] else SwapName(asg[t], i, j))
  }

  /**
   If two paths cover the same groups after a prefix, exchanging what they receive
   afterwards turns a factorization into a factorization.
   */
  lemma SwapKeepsFactorization(combos: seq<set<nat>>, n: nat, nPaths: nat, full: seq<nat>,
                               position: nat, i: nat, j: nat)
    requires IsFactorization(combos, n, nPaths, full)
    requires position <= |full| && i < nPaths && j < nPaths
    requires Cover(combos, full[..position], i) == Cover(combos, full[..position], j)
    ensures IsFactorization(combos, n, nPaths, SwapFuture(full, position, i, j))
  {
    var swapped := SwapFuture(full, position, i, j);
    forall t, u | 0 <= t < u < |swapped| && swapped[t] == swapped[u]
      ensures combos[t] !! combos[u]
    {
      if t < position <= u && full[t] != full[u] {
        SwapMixed(combos, n, nPaths, full, position, i, j, t, u);
      }
    }
    forall p | 0 <= p < nPaths
      ensures Cover(combos, swapped, p) == Groups(n)
    {
      var q := SwapName(p, i, j);
      assert Cover(combos, full, q) == Groups(n);
      forall x
        ensures x in Cover(combos, swapped, p) <==> x in Cover(combos, full, q)
      {
        SwapCovers(combos, full, position, i, j, p, x);
      }
    }
  }

  lemma SwapMixed(combos: seq<set<nat>>, n: nat, nPaths: nat, full: seq<nat>,
                  position: nat, i: nat, j: nat, t: nat, u: nat)
    requires IsFactorization(combos, n, nPaths, full)
    requires t < position <= u < |full|
    requires Cover(combos, full[..position], i) == Cover(combos, full[..position], j)
    requires full[t] == SwapName(full[u], i, j) && full[t] != full[u]
    ensures combos[t] !! combos[u]
  {
    var prefix := full[..position];
    CoverMembers(combos, prefix, full[t]);
    CoverMembers(combos, prefix, full[u]);
    assert Cover(combos, prefix, full[t]) == Cover(combos, prefix, full[u]);
    forall x | x in combos[t]
      ensures x !in combos[u]
    {
      assert prefix[t] == full[t];
      assert x in Cover(combos, prefix, full[u]);
      var v :| 0 <= v < |prefix| && prefix[v] == full[u] && x in combos[v];
      assert full[v] == full[u];
    }
  }

  /** What path p covers from position on. */
  ghost predicate CoveredLater(combos: seq<set<nat>>, asg: seq<nat>, position: nat, p: nat, x: nat)
    requires |asg| <= |combos|
  {
    exists t :: position <= t < |asg| && asg[t] == p && x in combos[t]
  }

  lemma CoverSplit(combos: seq<set<nat>>, asg: seq<nat>, position: nat, p: nat, x: nat)
    requires |asg| <= |combos| && position <= |asg|
    ensures x in Cover(combos, asg, p) <==>
      x in Cover(combos, asg[..position], p) || CoveredLater(combos, asg, position, p, x)
  {
    CoverMembers(combos, asg, p);
    CoverMembers(combos, asg[..position], p);
    if x in Cover(combos, asg[..position], p) {
      var t :| 0 <= t < position && asg[..position][t] == p && x in combos[t];
      assert asg[t] == p;
    }
    if x in Cover(combos, asg, p) {
      var t :| 0 <= t < |asg| && asg[t] == p && x in combos[t];
      assert t < position ==> asg[..position][t] == p;
    }
  }

  lemma SwapCovers(combos: seq<set<nat>>, full: seq<nat>, position: nat, i: nat, j: nat, p: nat, x: nat)
    requires |full| <= |combos| && position <= |full|
    requires Cover(combos, full[..position], i) == Cover(combos, full[..position], j)
    ensures x in Cover(combos, SwapFuture(full, position, i, j), p) <==>
      x in Cover(combos, full, SwapName(p, i, j))
  {
    var swapped := SwapFuture(full, position, i, j);
    var q := SwapName(p, i, j);
    CoverSplit(combos, swapped, position, p, x);
    CoverSplit(combos, full, position, q, x);
    assert swapped[..position] == full[..position];
    if t :| position <= t < |full| && swapped[t] == p && x in combos[t] {
      assert full[t] == q;
    }
    if t :| position <= t < |full| && full[t] == q && x in combos[t] {
      assert swapped[t] == p;
    }
  }
}
