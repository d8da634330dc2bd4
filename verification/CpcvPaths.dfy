/**
 The driver of the path search, `CPCV._path_combo_indices`, and what its result means
 for every number of groups and every test size.
 */
module CpcvPaths {
  import opened Combinations
  import opened Factorization
  import opened PathSearch
  import opened Baranyai

  /** The member sets of the combinations, in enumeration order. */
  function ComboSets(combos: seq<seq<nat>>): (sets: seq<set<nat>>)
    ensures |sets| == |combos|
    ensures forall t :: 0 <= t < |sets| ==> sets[t] == Members(combos[t])
  {
    seq(|combos|, t requires 0 <= t < |combos| => Members(combos[t]))
  }

  lemma ComboSetAt(n: nat, k: nat, t: nat)
    requires t < |Combos(0, n, k)|
    ensures StrictlyIncreasing(Combos(0, n, k)[t])
    ensures |Members(Combos(0, n, k)[t])| == k && Members(Combos(0, n, k)[t]) <= Groups(n)
  {
    var c := Combos(0, n, k)[t];
    CombosSound(0, n, k, t, c);
    IsComboMeans(c, 0, n, k);
    MembersSize(c);
    assert forall x :: x in Members(c) ==> x in Groups(n);
  }

  lemma ComboSetsUniform(n: nat, k: nat)
    ensures Uniform(ComboSets(Combos(0, n, k)), n, k)
  {
    forall t | 0 <= t < |Combos(0, n, k)|
      ensures |ComboSets(Combos(0, n, k))[t]| == k && ComboSets(Combos(0, n, k))[t] <= Groups(n)
    {
      ComboSetAt(n, k, t);
    }
  }

  lemma ComboSetsDistinct(n: nat, k: nat)
    ensures Distinct(ComboSets(Combos(0, n, k)))
  {
    var combos := Combos(0, n, k);
    forall i, j | 0 <= i < j < |combos|
      ensures Members(combos[i]) != Members(combos[j])
    {
      CombosSorted(0, n, k, i, combos[i], j, combos[j]);
      LexLessIrreflexive(combos[i]);
      ComboSetAt(n, k, i);
      ComboSetAt(n, k, j);
      if Members(combos[i]) == Members(combos[j]) {
        MembersInjective(combos[i], combos[j]);
      }
    }
  }

  ghost predicate NamesCombos(path: seq<nat>, combos: seq<seq<nat>>) {
    StrictlyIncreasing(path) && forall i :: 0 <= i < |path| ==> path[i] < |combos|
  }

  ghost predicate NoOverlap(path: seq<nat>, combos: seq<seq<nat>>)
    requires NamesCombos(path, combos)
  {
    forall i, j :: 0 <= i < j < |path| ==> Members(combos[path[i]]) !! Members(combos[path[j]])
  }

  ghost predicate ReachesAll(path: seq<nat>, combos: seq<seq<nat>>, n: nat)
    requires NamesCombos(path, combos)
  {
    forall g :: g in Groups(n) ==> exists i :: 0 <= i < |path| && g in combos[path[i]]
  }

  /** The path takes each of its combinations once, and covers each group once. */
  ghost predicate CoversOnce(path: seq<nat>, combos: seq<seq<nat>>, n: nat) {
    NamesCombos(path, combos) && NoOverlap(path, combos) && ReachesAll(path, combos, n)
  }

  /** Combination t goes to exactly one path. */
  ghost predicate UsedOnce(paths: seq<seq<nat>>, t: nat) {
    exists p :: 0 <= p < |paths| && t in paths[p] && forall r :: 0 <= r < |paths| && t in paths[r] ==> r == p
  }

  /** Every combination in exactly one path, every group in exactly one place of each path. */
  ghost predicate IsPathSystem(paths: seq<seq<nat>>, n: nat, k: nat)
    requires 1 <= k <= n
  {
    var combos := Combos(0, n, k);
    && |paths| == Choose(n - 1, k - 1)
    && (forall p :: 0 <= p < |paths| ==> |paths[p]| * k == n)
    && (forall p :: 0 <= p < |paths| ==> CoversOnce(paths[p], combos, n))
    && (forall t: nat :: t < |combos| ==> UsedOnce(paths, t))
  }

  ghost predicate ReadsOff(paths: seq<seq<nat>>, asg: seq<nat>) {
    forall p :: 0 <= p < |paths| ==> paths[p] == Picks(asg, p)
  }

  lemma PathApart(combos: seq<seq<nat>>, asg: seq<nat>, p: nat, i: nat, j: nat)
    requires |asg| <= |combos| && Packing(ComboSets(combos), asg)
    requires i < j < |Picks(asg, p)|
    ensures Picks(asg, p)[i] < |combos| && Picks(asg, p)[j] < |combos|
    ensures Members(combos[Picks(asg, p)[i]]) !! Members(combos[Picks(asg, p)[j]])
  {
    PicksMembers(asg, p);
    var t, u := Picks(asg, p)[i], Picks(asg, p)[j];
    assert t in Picks(asg, p) && u in Picks(asg, p) && t < u;
    assert ComboSets(combos)[t] !! ComboSets(combos)[u];
  }

  lemma PathReaches(combos: seq<seq<nat>>, asg: seq<nat>, p: nat, g: nat) returns (i: nat)
    requires |asg| <= |combos| && g in Cover(ComboSets(combos), asg, p)
    ensures i < |Picks(asg, p)| && Picks(asg, p)[i] < |combos| && g in combos[Picks(asg, p)[i]]
  {
    PicksMembers(asg, p);
    CoverMembers(ComboSets(combos), asg, p);
    var t :| 0 <= t < |asg| && asg[t] == p && g in ComboSets(combos)[t];
    assert t in Picks(asg, p);
    i :| i < |Picks(asg, p)| && Picks(asg, p)[i] == t;
  }

  lemma PathNames(combos: seq<seq<nat>>, asg: seq<nat>, p: nat)
    requires |asg| <= |combos|
    ensures NamesCombos(Picks(asg, p), combos)
  {
    PicksMembers(asg, p);
    assert forall i :: 0 <= i < |Picks(asg, p)| ==> Picks(asg, p)[i] in Picks(asg, p);
  }

  lemma PathNoOverlap(combos: seq<seq<nat>>, asg: seq<nat>, p: nat)
    requires |asg| <= |combos| && Packing(ComboSets(combos), asg)
    requires NamesCombos(Picks(asg, p), combos)
    ensures NoOverlap(Picks(asg, p), combos)
  {
    forall i, j | 0 <= i < j < |Picks(asg, p)|
      ensures Members(combos[Picks(asg, p)[i]]) !! Members(combos[Picks(asg, p)[j]])
    {
      PathApart(combos, asg, p, i, j);
    }
  }

  lemma PathReachesAll(combos: seq<seq<nat>>, n: nat, asg: seq<nat>, p: nat)
    requires |asg| <= |combos| && Cover(ComboSets(combos), asg, p) == Groups(n)
    requires NamesCombos(Picks(asg, p), combos)
    ensures ReachesAll(Picks(asg, p), combos, n)
  {
    var groups, path := Groups(n), Picks(asg, p);
    forall g | g in groups
      ensures exists i :: 0 <= i < |path| && g in combos[path[i]]
    {
      var i := PathReaches(combos, asg, p, g);
    }
  }

  lemma FactorizationPath(combos: seq<seq<nat>>, n: nat, k: nat, nPaths: nat, asg: seq<nat>, p: nat)
    requires Uniform(ComboSets(combos), n, k)
    requires IsFactorization(ComboSets(combos), n, nPaths, asg) && p < nPaths
    ensures |Picks(asg, p)| * k == n && CoversOnce(Picks(asg, p), combos, n)
  {
    hide Picks, Cover, CoversOnce, Uniform, Packing, NamesCombos, NoOverlap, ReachesAll;
    CoverSize(ComboSets(combos), asg, p, n, k);
    PathNames(combos, asg, p);
    PathNoOverlap(combos, asg, p);
    PathReachesAll(combos, n, asg, p);
    IsCoversOnce(Picks(asg, p), combos, n);
  }

  lemma IsCoversOnce(path: seq<nat>, combos: seq<seq<nat>>, n: nat)
    requires NamesCombos(path, combos) && NoOverlap(path, combos) && ReachesAll(path, combos, n)
    ensures CoversOnce(path, combos, n)
  {
  }

  lemma FactorizationIsPathSystem(n: nat, k: nat, asg: seq<nat>, paths: seq<seq<nat>>)
    requires 1 <= k <= n
    requires IsFactorization(ComboSets(Combos(0, n, k)), n, Choose(n - 1, k - 1), asg)
    requires |paths| == Choose(n - 1, k - 1) && ReadsOff(paths, asg)
    ensures IsPathSystem(paths, n, k)
  {
    var combos := Combos(0, n, k);
    ComboSetsUniform(n, k);
    forall p: nat | p < |paths|
      ensures |paths[p]| * k == n && CoversOnce(paths[p], combos, n)
    {
      FactorizationPath(combos, n, k, |paths|, asg, p);
    }
    forall t: nat | t < |combos|
      ensures UsedOnce(paths, t)
    {
      PicksMembers(asg, asg[t]);
      assert t in paths[asg[t]];
      forall r | 0 <= r < |paths| && t in paths[r]
        ensures r == asg[t]
      {
        PicksMembers(asg, r);
      }
    }
  }

  /**
   `CPCV._path_combo_indices`.  The result is empty exactly when k does not divide n;
   otherwise it is a full path system: the search never fails when it is entered.
   */
  method PathComboIndices(n: nat, k: nat) returns (paths: seq<seq<nat>>)
    requires 1 <= k <= n
    ensures n % k != 0 ==> paths == []
    ensures n % k == 0 ==> paths != [] && IsPathSystem(paths, n, k)
  {
    if n % k != 0 {
      return [];
    }
    var combos := ComboSets(Combos(0, n, k));
    var nPaths := Choose(n - 1, k - 1);
    ComboSetsUniform(n, k);
    CombosCount(0, n, k);
    ChairIdentity(n, k);
    var search := new Search(n, k, combos, nPaths);
    AlwaysAlive(n, k);
    ChoosePositive(n - 1, k - 1);
    var found := search.Backtrack(0);
    if found {
      paths := search.paths;
      FactorizationIsPathSystem(n, k, search.asg, paths);
    } else {
      paths := [];
    }
  }

  /** Before anything is placed the search is never at a dead end. */
  lemma AlwaysAlive(n: nat, k: nat)
    requires 1 <= k <= n && n % k == 0
    ensures !DeadEnd(ComboSets(Combos(0, n, k)), n, Choose(n - 1, k - 1), [])
  {
    ComboSetsUniform(n, k);
    ComboSetsDistinct(n, k);
    CombosCount(0, n, k);
    var full := FactorizationExists(n, k, ComboSets(Combos(0, n, k)));
    assert PrefixOf([], full);
  }

  lemma {:induction false} ChoosePositive(n: nat, k: nat)
    requires k <= n
    ensures Choose(n, k) > 0
  {
    if 0 < k && 0 < n {
      ChoosePositive(n - 1, k - 1);
    }
  }

  /** A path system exists exactly when the test size divides the number of groups. */
  lemma PathSystemNeedsDivision(paths: seq<seq<nat>>, n: nat, k: nat)
    requires 1 <= k <= n && IsPathSystem(paths, n, k)
    ensures n % k == 0
  {
    ChoosePositive(n - 1, k - 1);
    MultipleMod(|paths[0]|, k);
  }

  lemma MultipleMod(a: nat, k: nat)
    requires k > 0
    ensures (a * k) % k == 0
  {
    var q := (a * k) / k;
    assert a * k == q * k + (a * k) % k;
    if a > q {
      MoreLots(q, a, k);
    } else if a < q {
      MoreLots(a, q, k);
    }
  }

  lemma MoreLots(a: nat, b: nat, k: nat)
    requires a < b
    ensures b * k >= a * k + k
  {
    assert b * k == (a + 1) * k + (b - a - 1) * k;
  }
}
