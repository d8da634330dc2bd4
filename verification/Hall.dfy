/** Hall's marriage theorem for finite relations. */
module Hall {

  ghost function Neighbours<X(!new), Y(!new)>(adj: map<X, set<Y>>, rows: set<X>): (s: set<Y>)
    requires rows <= adj.Keys
    ensures forall y :: y in s <==> exists x :: x in rows && y in adj[x]
  {
    set x, y | x in rows && y in adj[x] :: y
  }

  ghost predicate EnoughNeighbours<X(!new), Y(!new)>(adj: map<X, set<Y>>) {
    forall rows :: rows <= adj.Keys ==> |Neighbours(adj, rows)| >= |rows|
  }

  ghost predicate IsMatching<X(!new), Y(!new)>(adj: map<X, set<Y>>, f: map<X, Y>) {
    && f.Keys == adj.Keys
    && (forall x :: x in adj ==> f[x] in adj[x])
    && (forall x, x' :: x in adj && x' in adj && x != x' ==> f[x] != f[x'])
  }

  ghost predicate Tight<X(!new), Y(!new)>(adj: map<X, set<Y>>, rows: set<X>) {
    {} < rows < adj.Keys && |Neighbours(adj, rows)| == |rows|
  }

  ghost function Inside<X(!new), Y(!new)>(adj: map<X, set<Y>>, rows: set<X>): map<X, set<Y>>
    requires rows <= adj.Keys
  {
    map x | x in rows :: adj[x]
  }

  ghost function Outside<X(!new), Y(!new)>(adj: map<X, set<Y>>, rows: set<X>, taken: set<Y>): map<X, set<Y>> {
    map x | x in adj.Keys - rows :: adj[x] - taken
  }

  lemma InsideEnough<X(!new), Y(!new)>(adj: map<X, set<Y>>, rows: set<X>)
    requires EnoughNeighbours(adj) && rows <= adj.Keys
    ensures EnoughNeighbours(Inside(adj, rows))
  {
    forall some | some <= rows
      ensures |Neighbours(Inside(adj, rows), some)| >= |some|
    {
      var inside := Inside(adj, rows);
      assert forall x :: x in some ==> inside[x] == adj[x];
      assert Neighbours(inside, some) == Neighbours(adj, some);
    }
  }

  lemma DifferenceSize<Y>(a: set<Y>, b: set<Y>)
    requires b <= a
    ensures |a - b| == |a| - |b|
  {
    assert a == (a - b) + b;
  }

  lemma OutsideNeighbours<X(!new), Y(!new)>(adj: map<X, set<Y>>, rows: set<X>, taken: set<Y>, some: set<X>)
    requires some <= adj.Keys - rows
    ensures Neighbours(Outside(adj, rows, taken), some) == Neighbours(adj, some) - taken
  {
    var outside := Outside(adj, rows, taken);
    assert forall x :: x in some ==> outside[x] == adj[x] - taken;
    forall y
      ensures y in Neighbours(outside, some) <==> y in Neighbours(adj, some) && y !in taken
    {
      if x :| x in some && y in outside[x] {
        assert y in adj[x];
      }
      if y !in taken {
        if x :| x in some && y in adj[x] {
          assert y in outside[x];
        }
      }
    }
  }

  lemma OutsideTightEnough<X(!new), Y(!new)>(adj: map<X, set<Y>>, rows: set<X>)
    requires EnoughNeighbours(adj) && Tight(adj, rows)
    ensures EnoughNeighbours(Outside(adj, rows, Neighbours(adj, rows)))
  {
    var taken := Neighbours(adj, rows);
    forall some | some <= adj.Keys - rows
      ensures |Neighbours(Outside(adj, rows, taken), some)| >= |some|
    {
      var both := some + rows;
      assert |both| == |some| + |rows|;
      OutsideNeighbours(adj, rows, taken, some);
      assert Neighbours(adj, both) == Neighbours(adj, some) + taken by {
        forall y
          ensures y in Neighbours(adj, both) <==> y in Neighbours(adj, some) || y in taken
        {
          if x :| x in both && y in adj[x] {
            assert x in some || x in rows;
          }
          if x :| x in some && y in adj[x] {
            assert x in both;
          }
          if x :| x in rows && y in adj[x] {
            assert x in both;
          }
        }
      }
      assert Neighbours(adj, both) - taken == Neighbours(adj, some) - taken;
      DifferenceSize(Neighbours(adj, both), taken);
    }
  }

  lemma OutsideOneEnough<X(!new), Y(!new)>(adj: map<X, set<Y>>, x: X, y: Y)
    requires EnoughNeighbours(adj) && x in adj
    requires forall rows :: !Tight(adj, rows)
    ensures EnoughNeighbours(Outside(adj, {x}, {y}))
  {
    forall some | some <= adj.Keys - {x}
      ensures |Neighbours(Outside(adj, {x}, {y}), some)| >= |some|
    {
      var all := Neighbours(adj, some);
      OutsideNeighbours(adj, {x}, {y}, some);
      if some != {} {
        assert x !in some && !Tight(adj, some);
        assert |all| >= |some| + 1;
        if y in all {
          DifferenceSize(all, {y});
        } else {
          assert all - {y} == all;
        }
      }
    }
  }

  lemma JoinMatchings<X(!new), Y(!new)>(adj: map<X, set<Y>>, rows: set<X>, taken: set<Y>,
                            f: map<X, Y>, g: map<X, Y>)
    requires rows <= adj.Keys && Neighbours(adj, rows) >= f.Values && f.Values <= taken
    requires IsMatching(Inside(adj, rows), f)
    requires IsMatching(Outside(adj, rows, taken), g)
    ensures IsMatching(adj, f + g)
  {
    forall x, x' | x in adj && x' in adj && x != x'
      ensures (f + g)[x] != (f + g)[x']
    {
      if x in rows && x' !in rows {
        assert f[x] in f.Values;
      } else if x !in rows && x' in rows {
        assert f[x'] in f.Values;
      }
    }
  }

  lemma {:induction false} Marriage<X(!new), Y(!new)>(adj: map<X, set<Y>>) returns (f: map<X, Y>)
    requires EnoughNeighbours(adj)
    ensures IsMatching(adj, f)
    decreases |adj|
  {
    if adj == map[] {
      f := map[];
    } else if rows :| Tight(adj, rows) {
      var taken := Neighbours(adj, rows);
      InsideEnough(adj, rows);
      OutsideTightEnough(adj, rows);
      Shrinks(adj, rows);
      f := Marriage(Inside(adj, rows));
      var g := Marriage(Outside(adj, rows, taken));
      JoinMatchings(adj, rows, taken, f, g);
      f := f + g;
    } else {
      var x :| x in adj;
      assert |Neighbours(adj, {x})| >= |{x}|;
      var y :| y in Neighbours(adj, {x});
      OutsideOneEnough(adj, x, y);
      Shrinks(adj, {x});
      var g := Marriage(Outside(adj, {x}, {y}));
      JoinMatchings(adj, {x}, {y}, map[x := y], g);
      f := map[x := y] + g;
    }
  }

  lemma Shrinks<X(!new), Y(!new)>(adj: map<X, set<Y>>, rows: set<X>)
    requires {} < rows <= adj.Keys
    ensures |adj.Keys - rows| < |adj|
    ensures forall taken :: |Outside(adj, rows, taken)| < |adj|
    ensures rows < adj.Keys ==> |Inside(adj, rows)| < |adj|
  {
    DifferenceSize(adj.Keys, rows);
    assert |rows| > 0;
    forall taken: set<Y>
      ensures |Outside(adj, rows, taken)| < |adj|
    {
      assert Outside(adj, rows, taken).Keys == adj.Keys - rows;
    }
    if rows < adj.Keys {
      assert |adj.Keys - rows| > 0;
      assert Inside(adj, rows).Keys == rows;
    }
  }
}
