/**
 The enumeration that `itertools.combinations(range(n), k)` yields, in its
 lexicographic order, and the binomial coefficient `math.comb`.
 */
module Combinations {

  /** `math.comb(n, k)`, by Pascal's rule; zero when `k > n`. */
  function Choose(n: nat, k: nat): nat {
    if k == 0 then 1
    else if n == 0 then 0
    else Choose(n - 1, k - 1) + Choose(n - 1, k)
  }

  lemma {:induction false} ChooseTooMany(n: nat, k: nat)
    requires n < k
    ensures Choose(n, k) == 0
  {
    if n > 0 {
      ChooseTooMany(n - 1, k - 1);
      ChooseTooMany(n - 1, k);
    }
  }

  lemma ChairStep(n: nat, k: nat, a: nat, b: nat, x: nat, y: nat)
    requires (k - 1) * a == (n - 1) * x
    requires k * b == (n - 1) * y
    requires a == x + y
    ensures k * (a + b) == n * a
  {
    assert (n - 1) * a == (n - 1) * x + (n - 1) * y;
    assert k * (a + b) == (k - 1) * a + a + k * b;
  }

  /** Committee-and-chair: choosing k of n and then one of the k. */
  lemma {:induction false} ChairIdentity(n: nat, k: nat)
    requires n > 0 && k > 0
    ensures k * Choose(n, k) == n * Choose(n - 1, k - 1)
  {
    if n == 1 {
      if k > 1 {
        ChooseTooMany(0, k - 1);
      }
    } else {
      ChairIdentity(n - 1, k);
      var x := if k > 1 then Choose(n - 2, k - 2) else 0;
      if k > 1 {
        ChairIdentity(n - 1, k - 1);
      }
      ChairStep(n, k, Choose(n - 1, k - 1), Choose(n - 1, k), x, Choose(n - 2, k - 1));
    }
  }

  /** a lots of b. */
  function Lots(a: nat, b: nat): nat {
    if a == 0 then 0 else Lots(a - 1, b) + b
  }

  lemma {:induction false} LotsIsProduct(a: nat, b: nat)
    ensures Lots(a, b) == a * b
  {
    if a > 0 {
      LotsIsProduct(a - 1, b);
    }
  }

  lemma {:induction false} LotsAdd(a: nat, b: nat, sum: nat, d: nat)
    requires sum == a + b
    ensures Lots(sum, d) == Lots(a, d) + Lots(b, d)
  {
    if b > 0 {
      LotsAdd(a, b - 1, sum - 1, d);
    }
  }

  lemma LotsEqual(a: nat, b: nat, c: nat, d: nat)
    requires b * a == d * c
    ensures Lots(a, b) == Lots(c, d)
  {
    LotsIsProduct(a, b);
    LotsIsProduct(c, d);
  }

  function Prepend(x: nat, rests: seq<seq<nat>>): (r: seq<seq<nat>>)
    ensures |r| == |rests|
    ensures forall i :: 0 <= i < |r| ==> r[i] == [x] + rests[i]
  {
    seq(|rests|, i requires 0 <= i < |rests| => [x] + rests[i])
  }

  /** All k-element selections of lo..n, each increasing, in lexicographic order. */
  function Combos(lo: nat, n: nat, k: nat): seq<seq<nat>>
    requires lo <= n
    decreases n - lo
  {
    if k == 0 then [[]]
    else if lo == n then []
    else Prepend(lo, Combos(lo + 1, n, k - 1)) + Combos(lo + 1, n, k)
  }

  ghost predicate StrictlyIncreasing(c: seq<nat>) {
    forall i, j :: 0 <= i < j < |c| ==> c[i] < c[j]
  }

  /** A tuple of k members of lo..n, each larger than the one before. */
  ghost predicate IsCombo(c: seq<nat>, lo: nat, n: nat, k: nat)
    decreases k
  {
    if k == 0 then c == []
    else c != [] && lo <= c[0] < n && IsCombo(c[1..], c[0] + 1, n, k - 1)
  }

  /** Lexicographic order on tuples of one length. */
  predicate LexLess(a: seq<nat>, b: seq<nat>) {
    a != [] && b != [] && (a[0] < b[0] || (a[0] == b[0] && LexLess(a[1..], b[1..])))
  }

  /** The enumeration has comb(n - lo, k) entries. */
  lemma {:induction false} CombosCount(lo: nat, n: nat, k: nat)
    requires lo <= n
    ensures |Combos(lo, n, k)| == Choose(n - lo, k)
    decreases n - lo
  {
    if k > 0 && lo < n {
      CombosCount(lo + 1, n, k - 1);
      CombosCount(lo + 1, n, k);
    }
  }

  /** c is entry i of the enumeration. */
  ghost predicate EntryAt(lo: nat, n: nat, k: nat, i: nat, c: seq<nat>)
    requires lo <= n
  {
    i < |Combos(lo, n, k)| && Combos(lo, n, k)[i] == c
  }

  lemma EntryWithLo(lo: nat, n: nat, k: nat, i: nat, rest: seq<nat>)
    requires lo < n && k > 0 && EntryAt(lo + 1, n, k - 1, i, rest)
    ensures EntryAt(lo, n, k, i, [lo] + rest)
  {
  }

  lemma EntryWithoutLo(lo: nat, n: nat, k: nat, i: nat, c: seq<nat>)
    requires lo < n && k > 0 && EntryAt(lo + 1, n, k, i, c)
    ensures EntryAt(lo, n, k, |Combos(lo + 1, n, k - 1)| + i, c)
  {
  }

  /** An entry either starts with lo or is an entry of the enumeration without lo. */
  lemma EntrySplit(lo: nat, n: nat, k: nat, i: nat, c: seq<nat>)
    requires lo <= n && k > 0 && EntryAt(lo, n, k, i, c)
    ensures lo < n
    ensures if i < |Combos(lo + 1, n, k - 1)|
            then c != [] && c[0] == lo && EntryAt(lo + 1, n, k - 1, i, c[1..])
            else EntryAt(lo + 1, n, k, i - |Combos(lo + 1, n, k - 1)|, c)
  {
  }

  lemma {:induction false} CombosSound(lo: nat, n: nat, k: nat, i: nat, c: seq<nat>)
    requires lo <= n && EntryAt(lo, n, k, i, c)
    ensures IsCombo(c, lo, n, k)
    decreases n - lo
  {
    if k > 0 {
      EntrySplit(lo, n, k, i, c);
      var withLo := |Combos(lo + 1, n, k - 1)|;
      if i < withLo {
        CombosSound(lo + 1, n, k - 1, i, c[1..]);
      } else {
        CombosSound(lo + 1, n, k, i - withLo, c);
      }
    }
  }

  lemma {:induction false} CombosComplete(c: seq<nat>, lo: nat, n: nat, k: nat) returns (i: nat)
    requires lo <= n && IsCombo(c, lo, n, k)
    ensures EntryAt(lo, n, k, i, c)
    decreases n - lo
  {
    if k == 0 {
      i := 0;
    } else if c[0] == lo {
      i := CombosComplete(c[1..], lo + 1, n, k - 1);
      EntryWithLo(lo, n, k, i, c[1..]);
      assert [lo] + c[1..] == c;
    } else {
      i := CombosComplete(c, lo + 1, n, k);
      EntryWithoutLo(lo, n, k, i, c);
      i := |Combos(lo + 1, n, k - 1)| + i;
    }
  }

  /** The tuples enumerated are exactly the increasing ones. */
  lemma {:induction false} IsComboMeans(c: seq<nat>, lo: nat, n: nat, k: nat)
    ensures IsCombo(c, lo, n, k) <==>
      |c| == k && StrictlyIncreasing(c) && forall i :: 0 <= i < |c| ==> lo <= c[i] < n
    decreases k
  {
    if k > 0 && c != [] {
      var head, tail := c[0], c[1..];
      assert c == [head] + tail;
      IsComboMeans(tail, head + 1, n, k - 1);
      IncreasingCons(head, tail);
    }
  }

  lemma IncreasingCons(x: nat, c: seq<nat>)
    ensures StrictlyIncreasing([x] + c) <==>
      StrictlyIncreasing(c) && forall i :: 0 <= i < |c| ==> x < c[i]
  {
    var all := [x] + c;
    assert forall i :: 0 <= i < |c| ==> all[i + 1] == c[i];
    if StrictlyIncreasing(all) {
      forall i, j | 0 <= i < j < |c|
        ensures c[i] < c[j]
      {
        assert all[i + 1] < all[j + 1];
      }
      forall i | 0 <= i < |c|
        ensures x < c[i]
      {
        assert all[0] < all[i + 1];
      }
    }
  }

  /** Earlier entries are lexicographically smaller; so no entry occurs twice. */
  lemma {:induction false} CombosSorted(lo: nat, n: nat, k: nat, i: nat, a: seq<nat>, j: nat, b: seq<nat>)
    requires lo <= n && i < j && EntryAt(lo, n, k, i, a) && EntryAt(lo, n, k, j, b)
    ensures LexLess(a, b)
    decreases n - lo
  {
    if k > 0 {
      EntrySplit(lo, n, k, i, a);
      EntrySplit(lo, n, k, j, b);
      var withLo := |Combos(lo + 1, n, k - 1)|;
      if j < withLo {
        CombosSorted(lo + 1, n, k - 1, i, a[1..], j, b[1..]);
      } else if i >= withLo {
        CombosSorted(lo + 1, n, k, i - withLo, a, j - withLo, b);
      } else {
        CombosSound(lo + 1, n, k, j - withLo, b);
      }
    }
  }

  lemma {:induction false} LexLessIrreflexive(a: seq<nat>)
    ensures !LexLess(a, a)
  {
    if a != [] {
      LexLessIrreflexive(a[1..]);
    }
  }

  /** The group ids of a combination, as a set: `set(combo_groups[i])`. */
  function Members(c: seq<nat>): (s: set<nat>)
    ensures forall x :: x in s <==> x in c
  {
    set x | x in c
  }

  lemma {:induction false} MembersSize(c: seq<nat>)
    requires StrictlyIncreasing(c)
    ensures |Members(c)| == |c|
  {
    if c != [] {
      var m := |c| - 1;
      MembersSize(c[..m]);
      assert Members(c) == Members(c[..m]) + {c[m]};
      assert c[m] !in c[..m];
    }
  }

  /** Increasing tuples are determined by their members. */
  lemma {:induction false} MembersInjective(a: seq<nat>, b: seq<nat>)
    requires StrictlyIncreasing(a) && StrictlyIncreasing(b)
    requires Members(a) == Members(b)
    ensures a == b
  {
    MembersSize(a);
    MembersSize(b);
    if a != [] {
      var m := |a| - 1;
      assert a[m] in Members(b) && b[m] in Members(a);
      assert a[m] == b[m];
      assert Members(a[..m]) == Members(a) - {a[m]};
      assert Members(b[..m]) == Members(b) - {b[m]};
      MembersInjective(a[..m], b[..m]);
      assert a == a[..m] + [a[m]];
    }
  }
}
