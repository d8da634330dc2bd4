/** Sequence operations with their documented meaning: stable sort, filter, flat map, prefix. */
module Sorting {

  /** What a sort key gives: a reflexive, transitive, total comparison. */
  ghost predicate TotalPreorder<T(!new)>(le: (T, T) -> bool) {
    && (forall a, b :: le(a, b) || le(b, a))
    && (forall a, b, c :: le(a, b) && le(b, c) ==> le(a, c))
  }

  ghost predicate Antisymmetric<T(!new)>(le: (T, T) -> bool) {
    forall a, b :: le(a, b) && le(b, a) ==> a == b
  }

  ghost predicate Sorted<T>(s: seq<T>, le: (T, T) -> bool) {
    forall i, j :: 0 <= i < j < |s| ==> le(s[i], s[j])
  }

  /** x goes before everything it is not greater than: an element that came first stays first. */
  function Insert<T>(x: T, s: seq<T>, le: (T, T) -> bool): seq<T> {
    if |s| == 0 then [x]
    else if le(x, s[0]) then [x] + s
    else [s[0]] + Insert(x, s[1..], le)
  }

  /** A stable sort. */
  function Sort<T>(s: seq<T>, le: (T, T) -> bool): seq<T> {
    if |s| == 0 then [] else Insert(s[0], Sort(s[1..], le), le)
  }

  function Filter<T>(s: seq<T>, p: T -> bool): (r: seq<T>)
    ensures |r| <= |s|
  {
    if |s| == 0 then []
    else
      var n := |s| - 1;
      Filter(s[..n], p) + (if p(s[n]) then [s[n]] else [])
  }

  function FlatMap<S, T>(s: seq<S>, f: S -> seq<T>): seq<T> {
    if |s| == 0 then [] else FlatMap(s[..|s| - 1], f) + f(s[|s| - 1])
  }

  /** The first n elements, or all of them. */
  function Take<T>(s: seq<T>, n: int): seq<T> {
    if n <= 0 then [] else if n < |s| then s[..n] else s
  }

  // ----- filters

  lemma {:induction false} FilterConcat<T>(s: seq<T>, t: seq<T>, p: T -> bool)
    ensures Filter(s + t, p) == Filter(s, p) + Filter(t, p)
    decreases |t|
  {
    if |t| == 0 {
      assert s + t == s;
    } else {
      var n := |t| - 1;
      FilterConcat(s, t[..n], p);
      assert (s + t)[..|s + t| - 1] == s + t[..n];
    }
  }

  lemma FilterHead<T>(s: seq<T>, p: T -> bool)
    requires |s| > 0
    ensures Filter(s, p) == (if p(s[0]) then [s[0]] else []) + Filter(s[1..], p)
  {
    assert s == [s[0]] + s[1..];
    FilterConcat([s[0]], s[1..], p);
    assert Filter([s[0]], p) == if p(s[0]) then [s[0]] else [];
  }

  lemma FilterSnoc<T>(s: seq<T>, i: nat, p: T -> bool)
    requires i < |s|
    ensures Filter(s[..i + 1], p) == Filter(s[..i], p) + (if p(s[i]) then [s[i]] else [])
  {
    assert s[..i + 1][..i] == s[..i];
  }

  lemma {:induction false} FilterMembers<T>(s: seq<T>, p: T -> bool, x: T)
    ensures x in Filter(s, p) <==> x in s && p(x)
  {
    if |s| > 0 {
      FilterMembers(s[..|s| - 1], p, x);
      assert s == s[..|s| - 1] + [s[|s| - 1]];
    }
  }

  lemma {:induction false} FilterCount<T>(s: seq<T>, p: T -> bool, x: T)
    ensures multiset(Filter(s, p))[x] == if p(x) then multiset(s)[x] else 0
  {
    if |s| > 0 {
      FilterCount(s[..|s| - 1], p, x);
      assert s == s[..|s| - 1] + [s[|s| - 1]];
    }
  }

  lemma {:induction false} FilterSorted<T>(s: seq<T>, p: T -> bool, le: (T, T) -> bool)
    requires Sorted(s, le)
    ensures Sorted(Filter(s, p), le)
  {
    if |s| > 0 {
      var n := |s| - 1;
      FilterSorted(s[..n], p, le);
      forall i | 0 <= i < |Filter(s[..n], p)|
        ensures le(Filter(s[..n], p)[i], s[n])
      {
        FilterMembers(s[..n], p, Filter(s[..n], p)[i]);
      }
    }
  }

  // ----- flat maps and prefixes

  lemma FlatMapSnoc<S, T>(s: seq<S>, i: nat, f: S -> seq<T>)
    requires i < |s|
    ensures FlatMap(s[..i + 1], f) == FlatMap(s[..i], f) + f(s[i])
  {
    assert s[..i + 1][..i] == s[..i];
  }

  lemma FlatMapEmpty<S, T>(s: seq<S>, f: S -> seq<T>)
    ensures FlatMap(s[..0], f) == []
  {
  }

  lemma {:induction false} FlatMapPrefix<S, T>(s: seq<S>, i: nat, f: S -> seq<T>)
    requires i <= |s|
    ensures FlatMap(s[..i], f) <= FlatMap(s, f)
    decreases |s|
  {
    if i == |s| {
      assert s[..i] == s;
    } else {
      FlatMapPrefix(s[..|s| - 1], i, f);
      assert s[..|s| - 1][..i] == s[..i];
    }
  }

  lemma {:induction false} FlatMapMembers<S, T>(s: seq<S>, f: S -> seq<T>, x: T)
    requires x in FlatMap(s, f)
    ensures exists i :: 0 <= i < |s| && x in f(s[i])
  {
    var n := |s| - 1;
    if x in f(s[n]) {
    } else {
      FlatMapMembers(s[..n], f, x);
      var i :| 0 <= i < n && x in f(s[..n][i]);
      assert x in f(s[i]);
    }
  }

  lemma {:induction false} FlatMapLength<S, T>(s: seq<S>, f: S -> seq<T>)
    requires forall x :: x in s ==> |f(x)| <= 1
    ensures |FlatMap(s, f)| <= |s|
  {
    if |s| > 0 {
      FlatMapLength(s[..|s| - 1], f);
    }
  }

  // ----- one item for each row that qualifies

  /** Item k stands for row index[k]; exactly the rows that qualify are listed, in order. */
  ghost predicate Matches<S, T>(rows: seq<S>, items: seq<T>, qualifies: S -> bool, stands: (S, T) -> bool, index: seq<nat>) {
    && |index| == |items|
    && (forall k, m :: 0 <= k < m < |index| ==> index[k] < index[m])
    && (forall k :: 0 <= k < |index| ==> index[k] < |rows| && stands(rows[index[k]], items[k]))
    && (forall i: nat :: i < |rows| ==> (i in index <==> qualifies(rows[i])))
  }

  ghost predicate OneForEach<S, T>(rows: seq<S>, items: seq<T>, qualifies: S -> bool, stands: (S, T) -> bool) {
    exists index: seq<nat> :: Matches(rows, items, qualifies, stands, index)
  }

  lemma {:induction false} FlatMapMatches<S, T>(rows: seq<S>, f: S -> seq<T>, qualifies: S -> bool, stands: (S, T) -> bool)
    returns (index: seq<nat>)
    requires forall row :: row in rows ==>
      if qualifies(row) then |f(row)| == 1 && stands(row, f(row)[0]) else f(row) == []
    ensures Matches(rows, FlatMap(rows, f), qualifies, stands, index)
  {
    index := [];
    if |rows| > 0 {
      var n := |rows| - 1;
      index := FlatMapMatches(rows[..n], f, qualifies, stands);
      index := OneMoreMatch(rows, FlatMap(rows[..n], f), f(rows[n]), qualifies, stands, index);
    }
  }

  lemma OneMoreMatch<S, T>(rows: seq<S>, items: seq<T>, last: seq<T>, qualifies: S -> bool, stands: (S, T) -> bool,
                           index: seq<nat>) returns (more: seq<nat>)
    requires |rows| > 0 && Matches(rows[..|rows| - 1], items, qualifies, stands, index)
    requires var row := rows[|rows| - 1];
      if qualifies(row) then |last| == 1 && stands(row, last[0]) else last == []
    ensures Matches(rows, items + last, qualifies, stands, more)
  {
    var n := |rows| - 1;
    more := index + (if qualifies(rows[n]) then [n] else []);
    forall i: nat | i < |rows|
      ensures i in more <==> qualifies(rows[i])
    {
      assert i < n ==> rows[..n][i] == rows[i];
    }
  }

  lemma {:induction false} FlatMapInsert<S, T>(x: S, s: seq<S>, le: (S, S) -> bool, f: S -> seq<T>)
    ensures multiset(FlatMap(Insert(x, s, le), f)) == multiset(f(x)) + multiset(FlatMap(s, f))
  {
    if |s| == 0 || le(x, s[0]) {
      FlatMapConcat([x], s, f);
      assert [x] + s == Insert(x, s, le);
      assert [x][..0] == [];
    } else {
      FlatMapInsert(x, s[1..], le, f);
      FlatMapConcat([s[0]], Insert(x, s[1..], le), f);
      FlatMapConcat([s[0]], s[1..], f);
      assert [s[0]] + s[1..] == s;
    }
  }

  lemma {:induction false} FlatMapConcat<S, T>(a: seq<S>, b: seq<S>, f: S -> seq<T>)
    ensures FlatMap(a + b, f) == FlatMap(a, f) + FlatMap(b, f)
    decreases |b|
  {
    if |b| == 0 {
      assert a + b == a;
    } else {
      FlatMapConcat(a, b[..|b| - 1], f);
      assert (a + b)[..|a + b| - 1] == a + b[..|b| - 1];
    }
  }

  /** Sorting the rows first gives the same items. */
  lemma {:induction false} FlatMapSort<S, T>(s: seq<S>, le: (S, S) -> bool, f: S -> seq<T>)
    ensures multiset(FlatMap(Sort(s, le), f)) == multiset(FlatMap(s, f))
  {
    if |s| > 0 {
      FlatMapSort(s[1..], le, f);
      FlatMapInsert(s[0], Sort(s[1..], le), le, f);
      FlatMapConcat([s[0]], s[1..], f);
      assert [s[0]] + s[1..] == s && [s[0]][..0] == [];
    }
  }

  lemma {:induction false} FlatMapFilter<S, T>(s: seq<S>, p: S -> bool, f: S -> seq<T>, g: S -> seq<T>)
    requires forall x :: x in s ==> g(x) == if p(x) then f(x) else []
    ensures FlatMap(Filter(s, p), f) == FlatMap(s, g)
  {
    if |s| > 0 {
      var n := |s| - 1;
      FlatMapFilter(s[..n], p, f, g);
      FlatMapConcat(Filter(s[..n], p), if p(s[n]) then [s[n]] else [], f);
      assert [s[n]][..0] == [];
    }
  }

  // ----- the sort

  lemma {:induction false} InsertPermutes<T>(x: T, s: seq<T>, le: (T, T) -> bool)
    ensures multiset(Insert(x, s, le)) == multiset{x} + multiset(s)
  {
    if |s| > 0 {
      InsertPermutes(x, s[1..], le);
      assert s == [s[0]] + s[1..];
    }
  }

  lemma {:induction false} SortPermutes<T>(s: seq<T>, le: (T, T) -> bool)
    ensures multiset(Sort(s, le)) == multiset(s) && |Sort(s, le)| == |s|
  {
    if |s| > 0 {
      SortPermutes(s[1..], le);
      InsertPermutes(s[0], Sort(s[1..], le), le);
      assert s == [s[0]] + s[1..];
      assert |multiset(Sort(s, le))| == |multiset(s)|;
    }
  }

  lemma SortMembers<T>(s: seq<T>, le: (T, T) -> bool, x: T)
    ensures x in Sort(s, le) <==> x in s
  {
    SortPermutes(s, le);
    assert x in Sort(s, le) <==> x in multiset(Sort(s, le));
  }

  lemma {:induction false} InsertSorted<T(!new)>(x: T, s: seq<T>, le: (T, T) -> bool)
    requires TotalPreorder(le) && Sorted(s, le)
    ensures Sorted(Insert(x, s, le), le)
  {
    if |s| > 0 && !le(x, s[0]) {
      InsertSorted(x, s[1..], le);
      var rest := Insert(x, s[1..], le);
      forall k | 0 <= k < |rest|
        ensures le(s[0], rest[k])
      {
        InsertPermutes(x, s[1..], le);
        assert rest[k] in multiset(rest);
      }
    }
  }

  lemma {:induction false} SortSorts<T(!new)>(s: seq<T>, le: (T, T) -> bool)
    requires TotalPreorder(le)
    ensures Sorted(Sort(s, le), le)
  {
    if |s| > 0 {
      SortSorts(s[1..], le);
      InsertSorted(s[0], Sort(s[1..], le), le);
    }
  }

  lemma {:induction false} SortedIsFixed<T(!new)>(s: seq<T>, le: (T, T) -> bool)
    requires TotalPreorder(le) && Sorted(s, le)
    ensures Sort(s, le) == s
  {
    if |s| > 0 {
      SortedIsFixed(s[1..], le);
      assert |s| > 1 ==> le(s[0], s[1]);
    }
  }

  lemma InsertCons<T>(x: T, a: T, rest: seq<T>, le: (T, T) -> bool)
    ensures Insert(x, [a] + rest, le) == if le(x, a) then [x] + ([a] + rest) else [a] + Insert(x, rest, le)
  {
    assert ([a] + rest)[1..] == rest;
  }

  lemma FilterCons<T>(a: T, rest: seq<T>, p: T -> bool)
    ensures Filter([a] + rest, p) == if p(a) then [a] + Filter(rest, p) else Filter(rest, p)
  {
    FilterHead([a] + rest, p);
    assert ([a] + rest)[1..] == rest;
  }

  lemma InsertFirst<T>(x: T, s: seq<T>, le: (T, T) -> bool)
    requires |s| > 0 ==> le(x, s[0])
    ensures Insert(x, s, le) == [x] + s
  {
  }

  lemma FilterBound<T(!new)>(x: T, s: seq<T>, le: (T, T) -> bool, p: T -> bool)
    requires TotalPreorder(le) && Sorted(s, le) && |s| > 0 && le(x, s[0])
    ensures |Filter(s, p)| > 0 ==> le(x, Filter(s, p)[0])
  {
    if |Filter(s, p)| > 0 {
      FilterMembers(s, p, Filter(s, p)[0]);
    }
  }

  lemma {:induction false} InsertFilter<T(!new)>(x: T, s: seq<T>, le: (T, T) -> bool, p: T -> bool)
    requires TotalPreorder(le) && Sorted(s, le)
    ensures Filter(Insert(x, s, le), p) == if p(x) then Insert(x, Filter(s, p), le) else Filter(s, p)
  {
    if |s| == 0 {
      assert Filter([x], p) == if p(x) then [x] else [];
    } else {
      var a, rest := s[0], s[1..];
      assert s == [a] + rest;
      InsertCons(x, a, rest, le);
      FilterCons(a, rest, p);
      if le(x, a) {
        FilterBound(x, s, le, p);
        FilterCons(x, s, p);
        InsertFirst(x, Filter(s, p), le);
      } else {
        InsertFilter(x, rest, le, p);
        InsertCons(x, a, Filter(rest, p), le);
        FilterCons(a, Insert(x, rest, le), p);
      }
    }
  }

  lemma SortCons<T>(a: T, rest: seq<T>, le: (T, T) -> bool)
    ensures Sort([a] + rest, le) == Insert(a, Sort(rest, le), le)
  {
    assert ([a] + rest)[1..] == rest;
  }

  /** Stability in its strongest form: sorting and then selecting is selecting and then sorting. */
  lemma {:induction false} SortFilter<T(!new)>(s: seq<T>, le: (T, T) -> bool, p: T -> bool)
    requires TotalPreorder(le)
    ensures Filter(Sort(s, le), p) == Sort(Filter(s, p), le)
  {
    if |s| > 0 {
      var a, rest := s[0], s[1..];
      assert s == [a] + rest;
      SortFilter(rest, le, p);
      SortSorts(rest, le);
      InsertFilter(a, Sort(rest, le), le, p);
      FilterCons(a, rest, p);
      SortCons(a, rest, le);
      SortCons(a, Filter(rest, p), le);
    }
  }

  lemma TailMultiset<T>(s: seq<T>)
    requires |s| > 0
    ensures s == [s[0]] + s[1..] && multiset(s[1..]) == multiset(s) - multiset{s[0]}
  {
    assert s == [s[0]] + s[1..];
  }

  lemma SameSmallest<T(!new)>(s: seq<T>, t: seq<T>, le: (T, T) -> bool)
    requires TotalPreorder(le) && Antisymmetric(le) && Sorted(s, le) && Sorted(t, le)
    requires multiset(s) == multiset(t) && |s| > 0 && |t| > 0
    ensures s[0] == t[0]
  {
    assert s[0] in multiset(t) && t[0] in multiset(s);
    assert le(s[0], s[0]);
    var i :| 0 <= i < |t| && t[i] == s[0];
    var j :| 0 <= j < |s| && s[j] == t[0];
    assert le(t[0], t[i]) || i == 0;
    assert le(s[0], s[j]) || j == 0;
  }

  /** With an order that ties only equal elements, a multiset has one sorted arrangement. */
  lemma {:induction false} SortedUnique<T(!new)>(s: seq<T>, t: seq<T>, le: (T, T) -> bool)
    requires TotalPreorder(le) && Antisymmetric(le) && Sorted(s, le) && Sorted(t, le)
    requires multiset(s) == multiset(t)
    ensures s == t
  {
    assert |multiset(s)| == |multiset(t)|;
    if |s| > 0 {
      SameSmallest(s, t, le);
      TailMultiset(s);
      TailMultiset(t);
      SortedUnique(s[1..], t[1..], le);
    }
  }

  // ----- strings compare by their first difference

  predicate StringLe(a: string, b: string) {
    |a| == 0 || (|b| > 0 && (a[0] < b[0] || (a[0] == b[0] && StringLe(a[1..], b[1..]))))
  }

  lemma {:induction false} StringLeTotal(a: string, b: string)
    ensures StringLe(a, b) || StringLe(b, a)
    ensures StringLe(a, b) && StringLe(b, a) ==> a == b
  {
    if |a| > 0 && |b| > 0 {
      StringLeTotal(a[1..], b[1..]);
      assert a == [a[0]] + a[1..] && b == [b[0]] + b[1..];
    }
  }

  lemma {:induction false} StringLeTransitive(a: string, b: string, c: string)
    requires StringLe(a, b) && StringLe(b, c)
    ensures StringLe(a, c)
  {
    if |a| > 0 && a[0] == b[0] && b[0] == c[0] {
      StringLeTransitive(a[1..], b[1..], c[1..]);
    }
  }

  /** a is a beginning of b, or has the smaller character where they first differ. */
  ghost predicate ComesFirst(a: string, b: string) {
    a <= b || exists k: nat :: k < |a| && k < |b| && a[..k] == b[..k] && a[k] < b[k]
  }

  lemma FirstNotGreater(a: string, b: string, k: nat)
    requires k < |a| && k < |b| && a[..k] == b[..k] && a[k] <= b[k]
    ensures a[0] <= b[0]
  {
    if k > 0 {
      assert a[..k][0] == b[..k][0];
    }
  }

  lemma {:induction false} StringLeMeans(a: string, b: string)
    ensures StringLe(a, b) <==> ComesFirst(a, b)
  {
    if |a| > 0 && |b| > 0 {
      StringLeMeans(a[1..], b[1..]);
      if a[0] < b[0] {
        assert a[..0] == b[..0];
      } else if a[0] == b[0] {
        assert a == [a[0]] + a[1..] && b == [a[0]] + b[1..];
        if ComesFirst(a[1..], b[1..]) && !(a[1..] <= b[1..]) {
          var k: nat :| k < |a[1..]| && k < |b[1..]| && a[1..][..k] == b[1..][..k] && a[1..][k] < b[1..][k];
          assert a[..k + 1] == [a[0]] + a[1..][..k] && b[..k + 1] == [a[0]] + b[1..][..k];
        }
        if k: nat :| k < |a| && k < |b| && a[..k] == b[..k] && a[k] < b[k] {
          assert a[1..][..k - 1] == a[..k][1..] && b[1..][..k - 1] == b[..k][1..];
        }
      } else if k: nat :| k < |a| && k < |b| && a[..k] == b[..k] && a[k] < b[k] {
        FirstNotGreater(a, b, k);
      }
    }
  }

  // ----- letter case, for the letters a to z

  function Lower(s: string): string {
    if |s| == 0 then ""
    else [if 'A' <= s[0] <= 'Z' then (s[0] as int + 32) as char else s[0]] + Lower(s[1..])
  }

  function Upper(s: string): string {
    if |s| == 0 then ""
    else [if 'a' <= s[0] <= 'z' then (s[0] as int - 32) as char else s[0]] + Upper(s[1..])
  }

  /** c and d are the same letter, or the same other character. */
  predicate SameLetter(c: char, d: char) {
    || c == d
    || ('A' <= c <= 'Z' && 'a' <= d <= 'z' && c as int - 'A' as int == d as int - 'a' as int)
    || ('a' <= c <= 'z' && 'A' <= d <= 'Z' && c as int - 'a' as int == d as int - 'A' as int)
  }

  /** Lower case and upper case keep every letter and leave only one case of it. */
  lemma {:induction false} CaseKeepsLetters(s: string)
    ensures |Lower(s)| == |Upper(s)| == |s|
    ensures forall i :: 0 <= i < |s| ==> SameLetter(s[i], Lower(s)[i]) && !('A' <= Lower(s)[i] <= 'Z')
    ensures forall i :: 0 <= i < |s| ==> SameLetter(s[i], Upper(s)[i]) && !('a' <= Upper(s)[i] <= 'z')
  {
    if |s| > 0 {
      CaseKeepsLetters(s[1..]);
    }
  }

  lemma {:induction false} UpperAlready(s: string)
    requires forall i :: 0 <= i < |s| ==> !('a' <= s[i] <= 'z')
    ensures Upper(s) == s
  {
    if |s| > 0 {
      UpperAlready(s[1..]);
    }
  }

  lemma {:induction false} LowerAlready(s: string)
    requires forall i :: 0 <= i < |s| ==> !('A' <= s[i] <= 'Z')
    ensures Lower(s) == s
  {
    if |s| > 0 {
      LowerAlready(s[1..]);
    }
  }
}
