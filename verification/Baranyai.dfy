/**
 Baranyai's theorem: whenever k divides n, the k-element subsets of n groups can be
 packed into C(n - 1, k - 1) paths each of which covers every group once.

 The proof adds the groups one at a time.  Before group l there are C(n - 1, k - 1)
 rows, each splitting the groups below l into n / k parts (some of them empty), and a
 set S of groups occurs as a part C(n - l, k - |S|) times in all.  Hall's theorem picks
 the part of each row that group l joins.
 */
module Baranyai {
  import opened Combinations
  import opened Factorization
  import opened Hall

  type Table = seq<seq<set<nat>>>
  type Cell = (nat, nat)

  /** Binomial coefficient that is zero below the diagonal's left end. */
  function Bin(a: nat, b: int): nat {
    if b < 0 then 0 else Choose(a, b)
  }

  lemma BinPascal(a: nat, b: int)
    requires a > 0
    ensures Bin(a, b) == Bin(a - 1, b - 1) + Bin(a - 1, b)
  {
  }

  lemma BinChair(a: nat, b: nat)
    requires a > 0
    ensures Lots(Bin(a, b), b) == Lots(Bin(a - 1, b - 1), a)
  {
    if b > 0 {
      ChairIdentity(a, b);
      LotsEqual(Choose(a, b), b, Choose(a - 1, b - 1), a);
    } else {
      LotsEqual(1, 0, 0, a);
    }
  }

  ghost predicate Within(row: seq<set<nat>>, l: nat) {
    forall p :: 0 <= p < |row| ==> row[p] <= Groups(l)
  }

  ghost predicate Apart(row: seq<set<nat>>) {
    forall p, r :: 0 <= p < r < |row| ==> row[p] !! row[r]
  }

  ghost predicate Exhausts(row: seq<set<nat>>, l: nat) {
    forall x :: x in Groups(l) ==> exists p :: 0 <= p < |row| && x in row[p]
  }

  ghost predicate Splits(row: seq<set<nat>>, l: nat) {
    Within(row, l) && Apart(row) && Exhausts(row, l)
  }

  ghost predicate Shape(table: Table, m: nat, q: nat) {
    |table| == m && forall i :: 0 <= i < m ==> |table[i]| == q
  }

  ghost predicate IsCell(table: Table, c: Cell) {
    c.0 < |table| && c.1 < |table[c.0]|
  }

  ghost function Part(table: Table, c: Cell): set<nat>
    requires IsCell(table, c)
  {
    table[c.0][c.1]
  }

  ghost function CellsWith(table: Table, s: set<nat>): (cells: set<Cell>)
    ensures forall c :: c in cells <==> IsCell(table, c) && Part(table, c) == s
  {
    set i: nat, p: nat | i < |table| && p < |table[i]| && table[i][p] == s :: (i, p)
  }

  ghost predicate Spread(table: Table, n: nat, k: nat, l: nat)
    requires l <= n
  {
    forall s: set<nat> :: s <= Groups(l) ==> |CellsWith(table, s)| == Bin(n - l, k - |s|)
  }

  ghost predicate AllSplit(table: Table, l: nat) {
    forall i :: 0 <= i < |table| ==> Splits(table[i], l)
  }

  ghost predicate Balanced(table: Table, n: nat, k: nat, q: nat, l: nat) {
    && 1 <= k && 1 <= q && n == k * q && l <= n
    && Shape(table, Choose(n - 1, k - 1), q)
    && AllSplit(table, l)
    && Spread(table, n, k, l)
  }

  lemma BalancedParts(table: Table, n: nat, k: nat, q: nat, l: nat)
    requires Balanced(table, n, k, q, l)
    ensures 1 <= k && l <= n && Shape(table, |table|, q)
    ensures AllSplit(table, l) && Spread(table, n, k, l)
  {
  }

  /** A part that occurs has at most k groups. */
  lemma PartSmall(table: Table, n: nat, k: nat, l: nat, c: Cell)
    requires l <= n && Spread(table, n, k, l) && IsCell(table, c) && Part(table, c) <= Groups(l)
    ensures |Part(table, c)| <= k
  {
    var s := Part(table, c);
    assert c in CellsWith(table, s);
    assert |CellsWith(table, s)| > 0;
  }

  // ----- weights: how many groups a part still has room for, summed over cells

  ghost function Room(table: Table, k: nat, c: Cell): nat {
    if IsCell(table, c) && |Part(table, c)| <= k then k - |Part(table, c)| else 0
  }

  ghost function TotalRoom(table: Table, k: nat, cells: set<Cell>): nat {
    if cells == {} then 0
    else
      var c :| c in cells;
      Room(table, k, c) + TotalRoom(table, k, cells - {c})
  }

  /** The cells have room for a lots of d groups. */
  ghost predicate RoomIs(table: Table, k: nat, cells: set<Cell>, a: nat, d: nat) {
    TotalRoom(table, k, cells) == Lots(a, d)
  }

  lemma {:induction false} TotalRoomPick(table: Table, k: nat, cells: set<Cell>, c: Cell)
    requires c in cells
    ensures TotalRoom(table, k, cells) == Room(table, k, c) + TotalRoom(table, k, cells - {c})
    decreases cells
  {
    var d :| d in cells && TotalRoom(table, k, cells) == Room(table, k, d) + TotalRoom(table, k, cells - {d});
    if d != c {
      TotalRoomPick(table, k, cells - {d}, c);
      TotalRoomPick(table, k, cells - {c}, d);
      assert cells - {d} - {c} == cells - {c} - {d};
    }
  }

  lemma {:induction false} TotalRoomUnion(table: Table, k: nat, a: set<Cell>, b: set<Cell>)
    requires a !! b
    ensures TotalRoom(table, k, a + b) == TotalRoom(table, k, a) + TotalRoom(table, k, b)
    decreases a
  {
    if a == {} {
      assert a + b == b;
    } else {
      var c :| c in a;
      TotalRoomPick(table, k, a, c);
      TotalRoomPick(table, k, a + b, c);
      assert a + b - {c} == (a - {c}) + b;
      TotalRoomUnion(table, k, a - {c}, b);
    }
  }

  lemma TotalRoomSubset(table: Table, k: nat, a: set<Cell>, b: set<Cell>)
    requires a <= b
    ensures TotalRoom(table, k, a) <= TotalRoom(table, k, b)
  {
    assert b == a + (b - a);
    TotalRoomUnion(table, k, a, b - a);
  }

  lemma {:induction false} TotalRoomUniform(table: Table, k: nat, cells: set<Cell>, w: nat)
    requires forall c :: c in cells ==> Room(table, k, c) == w
    ensures TotalRoom(table, k, cells) == Lots(|cells|, w)
    decreases cells
  {
    if cells != {} {
      var c :| c in cells;
      TotalRoomPick(table, k, cells, c);
      TotalRoomUniform(table, k, cells - {c}, w);
    }
  }

  // ----- one row has room for exactly the groups that are still to come

  ghost function RowCells(i: nat, q: nat): (cells: set<Cell>)
    ensures forall c :: c in cells <==> c.0 == i && c.1 < q
  {
    set p: nat | p < q :: (i, p)
  }

  ghost function Seen(row: seq<set<nat>>, q: nat): set<nat>
    requires q <= |row|
  {
    if q == 0 then {} else Seen(row, q - 1) + row[q - 1]
  }

  lemma {:induction false} SeenMembers(row: seq<set<nat>>, q: nat)
    requires q <= |row|
    ensures forall x :: x in Seen(row, q) <==> exists p :: 0 <= p < q && x in row[p]
  {
    if q > 0 {
      SeenMembers(row, q - 1);
    }
  }

  lemma {:induction false} RowRoomUpTo(table: Table, k: nat, i: nat, q: nat)
    requires i < |table| && q <= |table[i]| && Apart(table[i])
    requires forall p :: 0 <= p < |table[i]| ==> |table[i][p]| <= k
    ensures TotalRoom(table, k, RowCells(i, q)) + |Seen(table[i], q)| == Lots(q, k)
  {
    if q > 0 {
      RowRoomUpTo(table, k, i, q - 1);
      var c: Cell := (i, q - 1);
      RowCellsLast(i, q);
      TotalRoomPick(table, k, RowCells(i, q), c);
      assert Part(table, c) == table[i][q - 1];
      SeenGrows(table[i], q);
    }
  }

  lemma RowCellsLast(i: nat, q: nat)
    requires q > 0
    ensures (i, q - 1) in RowCells(i, q)
    ensures RowCells(i, q) - {(i, q - 1)} == RowCells(i, q - 1)
  {
    forall c | c in RowCells(i, q) && c != (i, q - 1)
      ensures c in RowCells(i, q - 1)
    {
      assert c == (c.0, c.1);
    }
  }

  lemma SeenGrows(row: seq<set<nat>>, q: nat)
    requires 0 < q <= |row| && Apart(row)
    ensures |Seen(row, q)| == |Seen(row, q - 1)| + |row[q - 1]|
  {
    SeenMembers(row, q - 1);
    DisjointSize(Seen(row, q - 1), row[q - 1]);
  }

  lemma RowRoom(table: Table, n: nat, k: nat, q: nat, l: nat, i: nat)
    requires Balanced(table, n, k, q, l) && i < |table|
    ensures TotalRoom(table, k, RowCells(i, q)) == n - l
  {
    assert Splits(table[i], l);
    forall p: nat | p < q
      ensures |table[i][p]| <= k
    {
      var c: Cell := (i, p);
      assert Part(table, c) == table[i][p];
      PartSmall(table, n, k, l, c);
    }
    RowRoomUpTo(table, k, i, q);
    SplitsSeeAll(table[i], l);
    LotsIsProduct(q, k);
  }

  lemma SplitsSeeAll(row: seq<set<nat>>, l: nat)
    requires Within(row, l) && Exhausts(row, l)
    ensures Seen(row, |row|) == Groups(l)
  {
    SeenMembers(row, |row|);
    assert forall x :: x in Seen(row, |row|) ==> x in Groups(l);
    assert forall x :: x in Groups(l) ==> x in Seen(row, |row|);
  }

  ghost function RowsCells(rows: set<nat>, q: nat): (cells: set<Cell>)
    ensures forall c :: c in cells <==> c.0 in rows && c.1 < q
  {
    set i, p: nat | i in rows && p < q :: (i, p)
  }

  lemma RoomIsSum(table: Table, k: nat, x: set<Cell>, y: set<Cell>, a: nat, b: nat, sum: nat, d: nat)
    requires x !! y && RoomIs(table, k, x, a, d) && RoomIs(table, k, y, b, d) && sum == a + b
    ensures RoomIs(table, k, x + y, sum, d)
  {
    TotalRoomUnion(table, k, x, y);
    LotsAdd(a, b, sum, d);
  }

  lemma RoomIsOne(table: Table, k: nat, cells: set<Cell>, d: nat)
    requires TotalRoom(table, k, cells) == d
    ensures RoomIs(table, k, cells, 1, d)
  {
  }

  lemma {:induction false} RowsRoomSum(table: Table, k: nat, q: nat, d: nat, rows: set<nat>)
    requires forall i :: i in rows ==> TotalRoom(table, k, RowCells(i, q)) == d
    ensures RoomIs(table, k, RowsCells(rows, q), |rows|, d)
    decreases rows
  {
    if rows == {} {
      assert RowsCells(rows, q) == {};
    } else {
      hide *;
      var i :| i in rows;
      RowsRoomSum(table, k, q, d, rows - {i});
      RowsCellsPick(rows, q, i);
      RoomIsOne(table, k, RowCells(i, q), d);
      RoomIsSum(table, k, RowsCells(rows - {i}, q), RowCells(i, q), |rows - {i}|, 1, |rows|, d);
    }
  }

  lemma RowsCellsPick(rows: set<nat>, q: nat, i: nat)
    requires i in rows
    ensures RowsCells(rows, q) == RowsCells(rows - {i}, q) + RowCells(i, q)
    ensures RowsCells(rows - {i}, q) !! RowCells(i, q)
  {
  }

  lemma RowsRoom(table: Table, n: nat, k: nat, q: nat, l: nat, rows: set<nat>)
    requires Balanced(table, n, k, q, l) && rows <= Groups(|table|)
    ensures RoomIs(table, k, RowsCells(rows, q), |rows|, n - l)
  {
    hide *;
    BalancedParts(table, n, k, q, l);
    forall i | i in rows
      ensures TotalRoom(table, k, RowCells(i, q)) == n - l
    {
      RowRoom(table, n, k, q, l, i);
    }
    RowsRoomSum(table, k, q, n - l, rows);
  }

  // ----- the parts a row offers to group l, each as often as it may be chosen

  ghost function Copies(n: nat, k: nat, l: nat, s: set<nat>): (copies: set<(set<nat>, nat)>)
    requires l < n
    ensures forall y :: y in copies <==> y.0 == s && y.1 < Bin(n - l - 1, k - |s| - 1)
    ensures |copies| == Bin(n - l - 1, k - |s| - 1)
  {
    CountingIsBijective(s, Bin(n - l - 1, k - |s| - 1));
    set c: nat | c < Bin(n - l - 1, k - |s| - 1) :: (s, c)
  }

  lemma {:induction false} CountingIsBijective(s: set<nat>, b: nat)
    ensures |set c: nat | c < b :: (s, c)| == b
  {
    if b > 0 {
      CountingIsBijective(s, b - 1);
      assert (set c: nat | c < b :: (s, c)) == (set c: nat | c < b - 1 :: (s, c)) + {(s, b - 1)};
    }
  }

  ghost function AllCopies(n: nat, k: nat, l: nat, labels: set<set<nat>>): (copies: set<(set<nat>, nat)>)
    requires l < n
    ensures forall y :: y in copies <==> y.0 in labels && y in Copies(n, k, l, y.0)
  {
    set s, y | s in labels && y in Copies(n, k, l, s) :: y
  }

  ghost function LabelCells(table: Table, labels: set<set<nat>>): (cells: set<Cell>)
    ensures forall c :: c in cells <==> IsCell(table, c) && Part(table, c) in labels
  {
    set i: nat, p: nat | i < |table| && p < |table[i]| && table[i][p] in labels :: (i, p)
  }

  lemma {:induction false} LabelsRoom(table: Table, n: nat, k: nat, l: nat, labels: set<set<nat>>)
    requires l < n && Spread(table, n, k, l)
    requires forall s :: s in labels ==> s <= Groups(l) && |s| <= k
    ensures RoomIs(table, k, LabelCells(table, labels), |AllCopies(n, k, l, labels)|, n - l)
    decreases labels
  {
    if labels == {} {
      assert LabelCells(table, labels) == {};
      assert AllCopies(n, k, l, labels) == {};
    } else {
      hide *;
      var s :| s in labels;
      LabelsRoom(table, n, k, l, labels - {s});
      OneLabelRoom(table, n, k, l, s);
      LabelCellsPick(table, labels, s);
      AllCopiesPick(n, k, l, labels, s);
      RoomIsSum(table, k, LabelCells(table, labels - {s}), CellsWith(table, s),
                |AllCopies(n, k, l, labels - {s})|, |Copies(n, k, l, s)|, |AllCopies(n, k, l, labels)|, n - l);
    }
  }

  lemma LabelCellsPick(table: Table, labels: set<set<nat>>, s: set<nat>)
    requires s in labels
    ensures LabelCells(table, labels) == LabelCells(table, labels - {s}) + CellsWith(table, s)
    ensures LabelCells(table, labels - {s}) !! CellsWith(table, s)
  {
    forall c | c in LabelCells(table, labels)
      ensures c in LabelCells(table, labels - {s}) + CellsWith(table, s)
    {
      assert Part(table, c) in labels - {s} || Part(table, c) == s;
    }
  }

  lemma AllCopiesPick(n: nat, k: nat, l: nat, labels: set<set<nat>>, s: set<nat>)
    requires l < n && s in labels
    ensures |AllCopies(n, k, l, labels)| == |AllCopies(n, k, l, labels - {s})| + |Copies(n, k, l, s)|
  {
    var rest, one := AllCopies(n, k, l, labels - {s}), Copies(n, k, l, s);
    forall y | y in AllCopies(n, k, l, labels)
      ensures y in rest + one
    {
      if y.0 == s {
        assert y in one;
      } else {
        assert y.0 in labels - {s};
      }
    }
    assert AllCopies(n, k, l, labels) == rest + one;
    assert rest !! one;
  }

  lemma OneLabelRoom(table: Table, n: nat, k: nat, l: nat, s: set<nat>)
    requires l < n && Spread(table, n, k, l)
    requires s <= Groups(l) && |s| <= k
    ensures RoomIs(table, k, CellsWith(table, s), |Copies(n, k, l, s)|, n - l)
  {
    var cells := CellsWith(table, s);
    forall c | c in cells
      ensures Room(table, k, c) == k - |s|
    {
      assert Part(table, c) == s;
    }
    TotalRoomUniform(table, k, cells, k - |s|);
    BinChair(n - l, k - |s|);
  }

  // ----- Hall's condition for the step from l groups to l + 1

  ghost function Labels(table: Table, rows: set<nat>): (labels: set<set<nat>>)
    ensures forall s :: s in labels <==>
      exists i, p :: i in rows && i < |table| && 0 <= p < |table[i]| && table[i][p] == s
  {
    set i, p | i in rows && i < |table| && 0 <= p < |table[i]| :: table[i][p]
  }

  /** What each row offers: the copies of its parts. */
  ghost function Offers(table: Table, n: nat, k: nat, l: nat): map<nat, set<(set<nat>, nat)>>
    requires l < n
  {
    map i: nat | i < |table| :: AllCopies(n, k, l, Labels(table, {i}))
  }

  lemma LabelsSmall(table: Table, n: nat, k: nat, q: nat, l: nat, rows: set<nat>)
    requires Balanced(table, n, k, q, l)
    ensures forall s :: s in Labels(table, rows) ==> s <= Groups(l) && |s| <= k
  {
    forall s | s in Labels(table, rows)
      ensures s <= Groups(l) && |s| <= k
    {
      var i, p :| i in rows && i < |table| && 0 <= p < |table[i]| && table[i][p] == s;
      assert Splits(table[i], l);
      var c: Cell := (i, p);
      PartSmall(table, n, k, l, c);
    }
  }

  /** Rows never outnumber the copies of the parts in them; all rows together match them. */
  lemma RowsAgainstCopies(table: Table, n: nat, k: nat, q: nat, l: nat, rows: set<nat>)
    requires Balanced(table, n, k, q, l) && l < n && rows <= Groups(|table|)
    ensures |rows| <= |AllCopies(n, k, l, Labels(table, rows))|
    ensures rows == Groups(|table|) ==> |rows| == |AllCopies(n, k, l, Labels(table, rows))|
  {
    hide *;
    BalancedParts(table, n, k, q, l);
    RowsRoom(table, n, k, q, l, rows);
    LabelsRoomOf(table, n, k, q, l, rows);
    CompareRooms(table, k, q, n - l, rows, |AllCopies(n, k, l, Labels(table, rows))|);
  }

  lemma LabelsRoomOf(table: Table, n: nat, k: nat, q: nat, l: nat, rows: set<nat>)
    requires Balanced(table, n, k, q, l) && l < n
    ensures RoomIs(table, k, LabelCells(table, Labels(table, rows)), |AllCopies(n, k, l, Labels(table, rows))|, n - l)
  {
    hide *;
    BalancedParts(table, n, k, q, l);
    LabelsSmall(table, n, k, q, l, rows);
    LabelsRoom(table, n, k, l, Labels(table, rows));
  }

  lemma CompareRooms(table: Table, k: nat, q: nat, d: nat, rows: set<nat>, copies: nat)
    requires Shape(table, |table|, q) && rows <= Groups(|table|) && d > 0
    requires RoomIs(table, k, RowsCells(rows, q), |rows|, d)
    requires RoomIs(table, k, LabelCells(table, Labels(table, rows)), copies, d)
    ensures |rows| <= copies
    ensures rows == Groups(|table|) ==> |rows| == copies
  {
    CellsOfRows(table, q, rows);
    TotalRoomSubset(table, k, RowsCells(rows, q), LabelCells(table, Labels(table, rows)));
    LotsOrder(|rows|, copies, d);
  }

  lemma CellsOfRows(table: Table, q: nat, rows: set<nat>)
    requires Shape(table, |table|, q) && rows <= Groups(|table|)
    ensures RowsCells(rows, q) <= LabelCells(table, Labels(table, rows))
    ensures rows == Groups(|table|) ==> RowsCells(rows, q) == LabelCells(table, Labels(table, rows))
  {
    forall c | c in RowsCells(rows, q)
      ensures c in LabelCells(table, Labels(table, rows))
    {
      assert table[c.0][c.1] in Labels(table, rows);
    }
  }

  lemma LotsOrder(a: nat, b: nat, d: nat)
    requires d > 0 && Lots(a, d) <= Lots(b, d)
    ensures a <= b
    ensures Lots(a, d) == Lots(b, d) ==> a == b
  {
    LotsIsProduct(a, d);
    LotsIsProduct(b, d);
    if a >= b {
      assert (a - b) * d == a * d - b * d;
    }
  }

  lemma CopiesAreOffered(table: Table, n: nat, k: nat, l: nat, rows: set<nat>)
    requires l < n && rows <= Offers(table, n, k, l).Keys
    ensures AllCopies(n, k, l, Labels(table, rows)) <= Neighbours(Offers(table, n, k, l), rows)
  {
    var adj := Offers(table, n, k, l);
    forall y | y in AllCopies(n, k, l, Labels(table, rows))
      ensures y in Neighbours(adj, rows)
    {
      var i, p :| i in rows && i < |table| && 0 <= p < |table[i]| && table[i][p] == y.0;
      assert y.0 in Labels(table, {i});
      assert y in adj[i];
    }
  }

  lemma OffersEnough(table: Table, n: nat, k: nat, q: nat, l: nat)
    requires Balanced(table, n, k, q, l) && l < n
    ensures EnoughNeighbours(Offers(table, n, k, l))
  {
    hide Balanced, Offers, AllCopies, Labels, Neighbours;
    var adj := Offers(table, n, k, l);
    OffersKeys(table, n, k, l);
    forall rows | rows <= adj.Keys
      ensures |Neighbours(adj, rows)| >= |rows|
    {
      RowsAgainstCopies(table, n, k, q, l, rows);
      CopiesAreOffered(table, n, k, l, rows);
      SubsetCount(AllCopies(n, k, l, Labels(table, rows)), Neighbours(adj, rows));
    }
  }

  lemma SubsetCount<T>(a: set<T>, b: set<T>)
    requires a <= b
    ensures |a| <= |b|
    ensures |a| == |b| ==> a == b
  {
    assert b == a + (b - a);
  }

  ghost function Image<X(!new), Y(!new)>(f: map<X, Y>, xs: set<X>): (ys: set<Y>)
    requires xs <= f.Keys
    ensures forall y :: y in ys <==> exists x :: x in xs && f[x] == y
  {
    set x | x in xs :: f[x]
  }

  ghost predicate Injective<X(!new), Y>(f: map<X, Y>) {
    forall x, y :: x in f && y in f && x != y ==> f[x] != f[y]
  }

  lemma {:induction false} ImageSize<X(!new), Y(!new)>(f: map<X, Y>, xs: set<X>)
    requires xs <= f.Keys && Injective(f)
    ensures |Image(f, xs)| == |xs|
    decreases xs
  {
    if xs != {} {
      var x :| x in xs;
      ImageSize(f, xs - {x});
      assert Image(f, xs) == Image(f, xs - {x}) + {f[x]};
    } else {
      assert Image(f, xs) == {};
    }
  }

  /** The rows whose part s is the one chosen. */
  ghost function Chosen(f: map<nat, (set<nat>, nat)>, s: set<nat>): (rows: set<nat>)
    ensures forall i :: i in rows <==> i in f && f[i].0 == s
  {
    set i | i in f && f[i].0 == s
  }

  ghost predicate OntoExactly<X(!new), Y(!new)>(f: map<X, Y>, ys: set<Y>) {
    forall y :: y in ys <==> exists x :: x in f && f[x] == y
  }

  /** An injection into a set of its own size is onto. */
  lemma OntoBySize<X(!new), Y(!new)>(f: map<X, Y>, ys: set<Y>)
    requires Injective(f) && |f| == |ys|
    requires forall x :: x in f ==> f[x] in ys
    ensures OntoExactly(f, ys)
  {
    var image := Image(f, f.Keys);
    ImageSize(f, f.Keys);
    assert image <= ys;
    SubsetCount(image, ys);
    forall y | y in ys
      ensures exists x :: x in f && f[x] == y
    {
      assert y in image;
    }
  }

  ghost predicate AllWithin<Y(!new)>(adj: map<nat, set<Y>>, all: set<Y>) {
    forall i :: i in adj ==> adj[i] <= all
  }

  /** A matching into a set as large as its domain uses every element of it. */
  lemma MatchingIsOnto<Y(!new)>(adj: map<nat, set<Y>>, f: map<nat, Y>, all: set<Y>)
    requires IsMatching(adj, f) && |adj.Keys| == |all|
    requires AllWithin(adj, all)
    ensures Injective(f) && OntoExactly(f, all)
  {
    assert |f| == |f.Keys|;
    OntoBySize(f, all);
  }

  /** Then s is chosen as often as there are elements labelled s. */
  lemma ChosenFibre(f: map<nat, (set<nat>, nat)>, all: set<(set<nat>, nat)>, s: set<nat>, fibre: set<(set<nat>, nat)>)
    requires Injective(f) && OntoExactly(f, all)
    requires forall y :: y in fibre <==> y in all && y.0 == s
    ensures |Chosen(f, s)| == |fibre|
  {
    var chosen := Chosen(f, s);
    ImageSize(f, chosen);
    forall y
      ensures y in Image(f, chosen) <==> y in fibre
    {
      if y in fibre {
        var i :| i in f && f[i] == y;
        assert i in chosen;
      }
      if y in Image(f, chosen) {
        var i :| i in chosen && f[i] == y;
        assert f[i] in all;
      }
    }
    assert Image(f, chosen) == fibre;
  }

  lemma OffersKeys(table: Table, n: nat, k: nat, l: nat)
    requires l < n
    ensures Offers(table, n, k, l).Keys == Groups(|table|)
  {
    var keys := Offers(table, n, k, l).Keys;
    assert forall i :: i in keys ==> i in Groups(|table|);
    assert forall i :: i in Groups(|table|) ==> i in keys;
  }

  lemma MatchingKeys(table: Table, n: nat, k: nat, l: nat, f: map<nat, (set<nat>, nat)>)
    requires l < n && IsMatching(Offers(table, n, k, l), f)
    ensures f.Keys == Groups(|table|)
  {
    OffersKeys(table, n, k, l);
  }

  lemma LabelsGrow(table: Table, i: nat)
    requires i < |table|
    ensures Labels(table, {i}) <= Labels(table, Groups(|table|))
  {
    forall s | s in Labels(table, {i})
      ensures s in Labels(table, Groups(|table|))
    {
      var j, p :| j in {i} && j < |table| && 0 <= p < |table[j]| && table[j][p] == s;
      assert j in Groups(|table|);
    }
  }

  lemma CopiesGrow(n: nat, k: nat, l: nat, some: set<set<nat>>, all: set<set<nat>>)
    requires l < n && some <= all
    ensures AllCopies(n, k, l, some) <= AllCopies(n, k, l, all)
  {
  }

  lemma OffersWithin(table: Table, n: nat, k: nat, l: nat, i: nat)
    requires l < n && i < |table|
    ensures Offers(table, n, k, l)[i] <= AllCopies(n, k, l, Labels(table, Groups(|table|)))
  {
    LabelsGrow(table, i);
    CopiesGrow(n, k, l, Labels(table, {i}), Labels(table, Groups(|table|)));
  }

  lemma MatchingUsesAll(table: Table, n: nat, k: nat, l: nat, f: map<nat, (set<nat>, nat)>)
    requires l < n && IsMatching(Offers(table, n, k, l), f)
    requires |table| == |AllCopies(n, k, l, Labels(table, Groups(|table|)))|
    ensures Injective(f) && OntoExactly(f, AllCopies(n, k, l, Labels(table, Groups(|table|))))
  {
    hide *;
    OffersKeys(table, n, k, l);
    OffersAllWithin(table, n, k, l);
    MatchingIsOnto(Offers(table, n, k, l), f, AllCopies(n, k, l, Labels(table, Groups(|table|))));
  }

  lemma OffersAllWithin(table: Table, n: nat, k: nat, l: nat)
    requires l < n
    ensures AllWithin(Offers(table, n, k, l), AllCopies(n, k, l, Labels(table, Groups(|table|))))
  {
    hide AllCopies, Labels;
    forall i | i in Offers(table, n, k, l)
      ensures Offers(table, n, k, l)[i] <= AllCopies(n, k, l, Labels(table, Groups(|table|)))
    {
      OffersWithin(table, n, k, l, i);
    }
  }

  lemma OccursIsLabel(table: Table, c: Cell)
    requires IsCell(table, c)
    ensures Part(table, c) in Labels(table, Groups(|table|))
  {
    assert c.0 in Groups(|table|);
  }

  /** A set that is no part has no copies. */
  lemma UnusedLabel(table: Table, n: nat, k: nat, l: nat, s: set<nat>)
    requires l < n && Spread(table, n, k, l) && s <= Groups(l)
    requires s !in Labels(table, Groups(|table|))
    ensures |Copies(n, k, l, s)| == 0
  {
    if c :| c in CellsWith(table, s) {
      OccursIsLabel(table, c);
    }
    SpreadAt(table, n, k, l, s);
    BinPascal(n - l, k - |s|);
  }

  lemma SpreadAt(table: Table, n: nat, k: nat, l: nat, s: set<nat>)
    requires l <= n && Spread(table, n, k, l) && s <= Groups(l)
    ensures |CellsWith(table, s)| == Bin(n - l, k - |s|)
  {
  }

  lemma CopiesAreFibre(n: nat, k: nat, l: nat, labels: set<set<nat>>, s: set<nat>)
    requires l < n && (s !in labels ==> |Copies(n, k, l, s)| == 0)
    ensures forall y :: y in Copies(n, k, l, s) <==> y in AllCopies(n, k, l, labels) && y.0 == s
  {
  }

  /** In a matching every copy is used, so s is chosen as often as it has copies. */
  lemma ChosenCount(table: Table, n: nat, k: nat, q: nat, l: nat, f: map<nat, (set<nat>, nat)>, s: set<nat>)
    requires Balanced(table, n, k, q, l) && l < n && s <= Groups(l)
    requires IsMatching(Offers(table, n, k, l), f)
    ensures |Chosen(f, s)| == |Copies(n, k, l, s)|
  {
    hide *;
    BalancedParts(table, n, k, q, l);
    AllRowsMatchCopies(table, n, k, q, l);
    if s !in Labels(table, Groups(|table|)) {
      UnusedLabel(table, n, k, l, s);
    }
    ChosenCopies(table, n, k, l, f, s);
  }

  lemma AllRowsMatchCopies(table: Table, n: nat, k: nat, q: nat, l: nat)
    requires Balanced(table, n, k, q, l) && l < n
    ensures |table| == |AllCopies(n, k, l, Labels(table, Groups(|table|)))|
  {
    RowsAgainstCopies(table, n, k, q, l, Groups(|table|));
  }

  lemma ChosenCopies(table: Table, n: nat, k: nat, l: nat, f: map<nat, (set<nat>, nat)>, s: set<nat>)
    requires l < n && IsMatching(Offers(table, n, k, l), f)
    requires |table| == |AllCopies(n, k, l, Labels(table, Groups(|table|)))|
    requires s !in Labels(table, Groups(|table|)) ==> |Copies(n, k, l, s)| == 0
    ensures |Chosen(f, s)| == |Copies(n, k, l, s)|
  {
    hide *;
    var labels := Labels(table, Groups(|table|));
    MatchingUsesAll(table, n, k, l, f);
    CopiesAreFibre(n, k, l, labels, s);
    ChosenFibre(f, AllCopies(n, k, l, labels), s, Copies(n, k, l, s));
  }

  // ----- adding group l to the chosen part of every row

  /** A position of s in the row. */
  ghost function IndexOf(row: seq<set<nat>>, s: set<nat>): (p: nat)
    requires s in row
    ensures p < |row| && row[p] == s
  {
    var p: nat :| p < |row| && row[p] == s;
    p
  }

  ghost predicate Chooses(table: Table, f: map<nat, (set<nat>, nat)>) {
    forall i: nat :: i < |table| ==> i in f && f[i].0 in table[i]
  }

  ghost function Pick(table: Table, f: map<nat, (set<nat>, nat)>, i: nat): (p: nat)
    requires Chooses(table, f) && i < |table|
    ensures p < |table[i]| && table[i][p] == f[i].0
  {
    IndexOf(table[i], f[i].0)
  }

  ghost function Joined(table: Table, f: map<nat, (set<nat>, nat)>, l: nat): (t: Table)
    requires Chooses(table, f)
    ensures |t| == |table|
    ensures forall i :: 0 <= i < |t| ==>
      t[i] == table[i][Pick(table, f, i) := table[i][Pick(table, f, i)] + {l}]
  {
    seq(|table|, i requires 0 <= i < |table| =>
      table[i][Pick(table, f, i) := table[i][Pick(table, f, i)] + {l}])
  }

  lemma JoinedRowSplits(row: seq<set<nat>>, p: nat, l: nat)
    requires p < |row| && Splits(row, l)
    ensures Splits(row[p := row[p] + {l}], l + 1)
  {
    var joined := row[p := row[p] + {l}];
    var groups := Groups(l + 1);
    forall x | x in groups
      ensures exists r :: 0 <= r < |joined| && x in joined[r]
    {
      if x == l {
        assert x in joined[p];
      } else if x in Groups(l) {
        var r :| 0 <= r < |row| && x in row[r];
        assert x in joined[r];
      }
    }
    assert l !in Groups(l);
    forall r, r' | 0 <= r < r' < |joined|
      ensures joined[r] !! joined[r']
    {
      assert row[r] !! row[r'] && row[r] <= Groups(l) && row[r'] <= Groups(l);
    }
  }

  /** The cells whose part is s and is the one chosen in its row. */
  ghost function PickedCells(table: Table, f: map<nat, (set<nat>, nat)>, s: set<nat>): (cells: set<Cell>)
    requires Chooses(table, f)
    ensures forall c :: c in cells <==>
      IsCell(table, c) && f[c.0].0 == s && c.1 == Pick(table, f, c.0)
  {
    set i: nat | i < |table| && f[i].0 == s :: (i, Pick(table, f, i))
  }

  lemma PickedCount(table: Table, f: map<nat, (set<nat>, nat)>, s: set<nat>)
    requires Chooses(table, f) && f.Keys == Groups(|table|)
    ensures |PickedCells(table, f, s)| == |Chosen(f, s)|
  {
    var at: map<nat, Cell> := map i | i in Chosen(f, s) :: (i, Pick(table, f, i));
    ImageSize(at, at.Keys);
    forall c
      ensures c in Image(at, at.Keys) <==> c in PickedCells(table, f, s)
    {
      if c in PickedCells(table, f, s) {
        assert c.0 in at && at[c.0] == c;
      }
    }
    assert Image(at, at.Keys) == PickedCells(table, f, s);
    assert at.Keys == Chosen(f, s);
  }

  /** Parts without l are those that were not picked; parts with l are those that were. */
  lemma JoinedCells(table: Table, f: map<nat, (set<nat>, nat)>, l: nat, s: set<nat>)
    requires Chooses(table, f) && AllSplit(table, l)
    ensures l !in s ==> CellsWith(Joined(table, f, l), s) == CellsWith(table, s) - PickedCells(table, f, s)
    ensures l in s ==> CellsWith(Joined(table, f, l), s) == PickedCells(table, f, s - {l})
  {
    var joined := Joined(table, f, l);
    forall c
      ensures c in CellsWith(joined, s) <==>
        if l in s then c in PickedCells(table, f, s - {l})
        else c in CellsWith(table, s) && c !in PickedCells(table, f, s)
    {
      if IsCell(table, c) {
        JoinedPart(table, f, l, s, c);
      }
    }
  }

  lemma JoinedPart(table: Table, f: map<nat, (set<nat>, nat)>, l: nat, s: set<nat>, c: Cell)
    requires Chooses(table, f) && AllSplit(table, l) && IsCell(table, c)
    ensures Part(Joined(table, f, l), c) == s <==>
      if c.1 == Pick(table, f, c.0) then l in s && Part(table, c) == s - {l}
      else l !in s && Part(table, c) == s
  {
    assert Splits(table[c.0], l);
    var part := Part(table, c);
    assert part <= Groups(l) && l !in part;
    if c.1 == Pick(table, f, c.0) {
      assert Part(Joined(table, f, l), c) == part + {l};
      if part + {l} == s {
        assert part == s - {l};
      }
      if l in s && part == s - {l} {
        assert part + {l} == s;
      }
    } else {
      assert Part(Joined(table, f, l), c) == part;
    }
  }

  lemma JoinedSpread(table: Table, n: nat, k: nat, q: nat, l: nat, f: map<nat, (set<nat>, nat)>, s: set<nat>)
    requires Balanced(table, n, k, q, l) && l < n && s <= Groups(l + 1)
    requires IsMatching(Offers(table, n, k, l), f) && Chooses(table, f)
    ensures |CellsWith(Joined(table, f, l), s)| == Bin(n - l - 1, k - |s|)
  {
    hide *;
    BalancedParts(table, n, k, q, l);
    var base := s - {l};
    assert base <= Groups(l) by {
      assert forall x :: x in base ==> x in Groups(l);
    }
    MatchingKeys(table, n, k, l, f);
    ChosenCount(table, n, k, q, l, f, base);
    JoinedSpreadFrom(table, n, k, l, f, s);
  }

  lemma JoinedSpreadFrom(table: Table, n: nat, k: nat, l: nat, f: map<nat, (set<nat>, nat)>, s: set<nat>)
    requires l < n && Spread(table, n, k, l) && AllSplit(table, l)
    requires Chooses(table, f) && f.Keys == Groups(|table|)
    requires s - {l} <= Groups(l)
    requires |Chosen(f, s - {l})| == |Copies(n, k, l, s - {l})|
    ensures |CellsWith(Joined(table, f, l), s)| == Bin(n - l - 1, k - |s|)
  {
    hide *;
    JoinedCells(table, f, l, s);
    PickedCount(table, f, s - {l});
    if l in s {
      assert |s| == |s - {l}| + 1;
    } else {
      assert s - {l} == s;
      UnpickedCount(table, n, k, l, f, s);
    }
  }

  lemma UnpickedCount(table: Table, n: nat, k: nat, l: nat, f: map<nat, (set<nat>, nat)>, s: set<nat>)
    requires l < n && Spread(table, n, k, l) && s <= Groups(l)
    requires Chooses(table, f) && |PickedCells(table, f, s)| == |Copies(n, k, l, s)|
    ensures |CellsWith(table, s) - PickedCells(table, f, s)| == Bin(n - l - 1, k - |s|)
  {
    hide *;
    SpreadAt(table, n, k, l, s);
    PickedAreCells(table, f, s);
    BinPascal(n - l, k - |s|);
  }

  lemma PickedAreCells(table: Table, f: map<nat, (set<nat>, nat)>, s: set<nat>)
    requires Chooses(table, f)
    ensures |CellsWith(table, s) - PickedCells(table, f, s)| == |CellsWith(table, s)| - |PickedCells(table, f, s)|
  {
    assert PickedCells(table, f, s) <= CellsWith(table, s);
    DifferenceSize(CellsWith(table, s), PickedCells(table, f, s));
  }

  lemma OfferedIsPart(table: Table, n: nat, k: nat, l: nat, i: nat, y: (set<nat>, nat))
    requires l < n && i < |table| && y in Offers(table, n, k, l)[i]
    ensures y.0 in table[i]
  {
    assert y.0 in Labels(table, {i});
    var j, p :| j in {i} && j < |table| && 0 <= p < |table[j]| && table[j][p] == y.0;
  }

  lemma MatchingChooses(table: Table, n: nat, k: nat, l: nat, f: map<nat, (set<nat>, nat)>)
    requires l < n && IsMatching(Offers(table, n, k, l), f)
    ensures Chooses(table, f)
  {
    hide Offers;
    OffersKeys(table, n, k, l);
    forall i: nat | i < |table|
      ensures i in f && f[i].0 in table[i]
    {
      assert i in Groups(|table|);
      OfferedIsPart(table, n, k, l, i, f[i]);
    }
  }

  lemma AddGroup(table: Table, n: nat, k: nat, q: nat, l: nat) returns (t: Table)
    requires Balanced(table, n, k, q, l) && l < n
    ensures Balanced(t, n, k, q, l + 1)
  {
    OffersEnough(table, n, k, q, l);
    var f := Marriage(Offers(table, n, k, l));
    MatchingChooses(table, n, k, l, f);
    t := Joined(table, f, l);
    forall i | 0 <= i < |t|
      ensures Splits(t[i], l + 1)
    {
      assert Splits(table[i], l);
      JoinedRowSplits(table[i], Pick(table, f, i), l);
    }
    forall s: set<nat> | s <= Groups(l + 1)
      ensures |CellsWith(t, s)| == Bin(n - l - 1, k - |s|)
    {
      JoinedSpread(table, n, k, q, l, f, s);
    }
  }

  // ----- before the first group: every part is empty

  ghost function EmptyTable(m: nat, q: nat): (t: Table)
    ensures Shape(t, m, q)
    ensures forall i, p :: 0 <= i < m && 0 <= p < q ==> t[i][p] == {}
  {
    seq(m, i => seq(q, p => {}))
  }

  lemma {:induction false} RowsCellsCount(rows: set<nat>, q: nat)
    ensures |RowsCells(rows, q)| == Lots(|rows|, q)
    decreases rows
  {
    if rows == {} {
      assert RowsCells(rows, q) == {};
    } else {
      var i :| i in rows;
      RowsCellsCount(rows - {i}, q);
      RowsCellsPick(rows, q, i);
      RowCellsCount(i, q);
    }
  }

  lemma {:induction false} RowCellsCount(i: nat, q: nat)
    ensures |RowCells(i, q)| == q
  {
    if q == 0 {
      assert RowCells(i, q) == {};
    } else {
      RowCellsCount(i, q - 1);
      RowCellsLast(i, q);
    }
  }

  lemma FactorEqual(k: nat, a: nat, b: nat)
    requires k > 0 && k * a == k * b
    ensures a == b
  {
    if a < b {
      FactorLarger(k, a, b);
    } else if b < a {
      FactorLarger(k, b, a);
    }
  }

  lemma FactorLarger(k: nat, a: nat, b: nat)
    requires k > 0 && a < b
    ensures k * a < k * b
  {
  }

  /** C(n, k) combinations make C(n - 1, k - 1) paths of n / k. */
  lemma PathsTimesLength(n: nat, k: nat, q: nat)
    requires 1 <= k && 1 <= q && n == k * q
    ensures Lots(Choose(n - 1, k - 1), q) == Choose(n, k)
  {
    var m := Choose(n - 1, k - 1);
    LotsIsProduct(m, q);
    ChairIdentity(n, k);
    Regroup(k, q, m);
    FactorEqual(k, Choose(n, k), m * q);
  }

  lemma Regroup(k: nat, q: nat, m: nat)
    ensures (k * q) * m == k * (m * q)
  {
  }

  lemma EmptyTableBalanced(n: nat, k: nat, q: nat)
    requires 1 <= k && 1 <= q && n == k * q
    ensures Balanced(EmptyTable(Choose(n - 1, k - 1), q), n, k, q, 0)
  {
    var m := Choose(n - 1, k - 1);
    var t := EmptyTable(m, q);
    forall i | 0 <= i < m
      ensures Splits(t[i], 0)
    {
      EmptyRowSplits(t[i]);
    }
    forall s: set<nat> | s <= Groups(0)
      ensures |CellsWith(t, s)| == Bin(n, k - |s|)
    {
      assert s == {};
      EmptyTableCells(m, q);
      RowsCellsCount(Groups(m), q);
      PathsTimesLength(n, k, q);
    }
  }

  lemma EmptyRowSplits(row: seq<set<nat>>)
    requires forall p :: 0 <= p < |row| ==> row[p] == {}
    ensures Splits(row, 0)
  {
  }

  lemma EmptyTableCells(m: nat, q: nat)
    ensures CellsWith(EmptyTable(m, q), {}) == RowsCells(Groups(m), q)
  {
    var t := EmptyTable(m, q);
    forall c: Cell
      ensures c in CellsWith(t, {}) <==> c in RowsCells(Groups(m), q)
    {
      if IsCell(t, c) {
        assert t[c.0][c.1] == {};
      }
    }
  }

  lemma {:induction false} Build(n: nat, k: nat, q: nat, l: nat) returns (t: Table)
    requires 1 <= k && 1 <= q && n == k * q && l <= n
    ensures Balanced(t, n, k, q, l)
  {
    hide *;
    if l == 0 {
      EmptyTableBalanced(n, k, q);
      t := EmptyTable(Choose(n - 1, k - 1), q);
    } else {
      t := Build(n, k, q, l - 1);
      t := AddGroup(t, n, k, q, l - 1);
    }
  }

  // ----- after the last group: every part is a combination, each occurring once

  /** The cell that holds a combination. */
  lemma HomeCell(t: Table, n: nat, k: nat, s: set<nat>) returns (c: Cell)
    requires Spread(t, n, k, n) && s <= Groups(n) && |s| == k
    ensures IsCell(t, c) && Part(t, c) == s
  {
    SpreadAt(t, n, k, n, s);
    assert |CellsWith(t, s)| == 1;
    c :| c in CellsWith(t, s);
  }

  ghost predicate AtHome(t: Table, combos: seq<set<nat>>, asg: seq<nat>) {
    && |asg| == |combos|
    && forall i :: 0 <= i < |asg| ==> asg[i] < |t| && combos[i] in t[asg[i]]
  }

  lemma {:induction false} Housing(t: Table, n: nat, k: nat, combos: seq<set<nat>>) returns (asg: seq<nat>)
    requires Spread(t, n, k, n) && Uniform(combos, n, k)
    ensures AtHome(t, combos, asg)
  {
    if combos == [] {
      asg := [];
    } else {
      var last := |combos| - 1;
      var rest := Housing(t, n, k, combos[..last]);
      var c := HomeCell(t, n, k, combos[last]);
      assert combos[last] == t[c.0][c.1];
      asg := rest + [c.0];
    }
  }

  ghost predicate Distinct(combos: seq<set<nat>>) {
    forall i, j :: 0 <= i < j < |combos| ==> combos[i] != combos[j]
  }

  lemma HousedApart(t: Table, n: nat, combos: seq<set<nat>>, asg: seq<nat>, i: nat, j: nat)
    requires AllSplit(t, n) && AtHome(t, combos, asg) && Distinct(combos)
    requires i < j < |asg| && asg[i] == asg[j]
    ensures combos[i] !! combos[j]
  {
    var row := t[asg[i]];
    assert Splits(row, n);
    var p: nat :| p < |row| && row[p] == combos[i];
    var r: nat :| r < |row| && row[r] == combos[j];
    assert p < r || r < p;
  }

  lemma HousingPacks(t: Table, n: nat, combos: seq<set<nat>>, asg: seq<nat>)
    requires AllSplit(t, n) && AtHome(t, combos, asg) && Distinct(combos)
    ensures InRange(asg, |t|) && Packing(combos, asg)
  {
    forall i, j | 0 <= i < j < |asg| && asg[i] == asg[j]
      ensures combos[i] !! combos[j]
    {
      HousedApart(t, n, combos, asg, i, j);
    }
  }

  /** Baranyai's theorem, for any enumeration of all the k-subsets of n groups. */
  lemma FactorizationExists(n: nat, k: nat, combos: seq<set<nat>>) returns (asg: seq<nat>)
    requires 1 <= k <= n && n % k == 0
    requires Uniform(combos, n, k) && Distinct(combos) && |combos| == Choose(n, k)
    ensures IsFactorization(combos, n, Choose(n - 1, k - 1), asg)
  {
    hide *;
    var t := Build(n, k, n / k, n);
    BalancedSize(t, n, k, n / k, n);
    BalancedParts(t, n, k, n / k, n);
    asg := Housing(t, n, k, combos);
    AtHomeSize(t, combos, asg);
    HousingPacks(t, n, combos, asg);
    ChairIdentity(n, k);
    FullByCounting(combos, n, k, Choose(n - 1, k - 1), asg);
  }

  lemma BalancedSize(t: Table, n: nat, k: nat, q: nat, l: nat)
    requires Balanced(t, n, k, q, l)
    ensures |t| == Choose(n - 1, k - 1)
  {
  }

  lemma AtHomeSize(t: Table, combos: seq<set<nat>>, asg: seq<nat>)
    requires AtHome(t, combos, asg)
    ensures |asg| == |combos|
  {
  }
}
