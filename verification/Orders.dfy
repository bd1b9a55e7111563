/** Ascending listings of finite sets of binding powers. */
module Orders {

  ghost predicate Ascending(xs: seq<int>) {
    forall i, j :: 0 <= i < j < |xs| ==> xs[i] < xs[j]
  }

  datatype Wrapped = Wrapped(x: int)

  lemma Inhabited(s: set<int>)
    ensures s == {} || exists x :: x in s
  {
    var wrapped := set x | x in s :: Wrapped(x);
    if w :| w in wrapped {
      assert w.x in s;
    } else {
      forall x: int ensures x !in s {
        assert x in s ==> Wrapped(x) in wrapped;
      }
      assert s <= {};
    }
  }

  method SmallestOf(s: set<int>) returns (m: int)
    requires s != {}
    ensures m in s && forall x :: x in s ==> m <= x
  {
    Inhabited(s);
    m :| m in s;
    var rest := s - {m};
    while rest != {}
      invariant m in s && rest <= s && forall x :: x in s && x !in rest ==> m <= x
    {
      Inhabited(rest);
      var x :| x in rest;
      if x < m { m := x; }
      rest := rest - {x};
    }
  }

  /** The elements of a set, each once, in ascending order. */
  method SortedAscending(s: set<int>) returns (xs: seq<int>)
    ensures Ascending(xs) && forall x :: x in xs <==> x in s
  {
    xs := [];
    var rest := s;
    while rest != {}
      invariant rest <= s && Ascending(xs)
      invariant forall x :: x in xs <==> x in s && x !in rest
      invariant forall x, y :: x in xs && y in rest ==> x < y
    {
      var m := SmallestOf(rest);
      forall i | 0 <= i < |xs| ensures xs[i] < m { assert xs[i] in xs; }
      xs := xs + [m];
      rest := rest - {m};
    }
  }
}
