/** Facts about finite collections that the other modules instantiate explicitly. */
module Collections {

  predicate NoDup<T(==)>(s: seq<T>) {
    forall i, j :: 0 <= i < j < |s| ==> s[i] != s[j]
  }

  lemma Inhabited(s: set<int>)
    ensures s != {} ==> exists x :: x in s
  {
    if forall x :: x !in s {
      assert s == {};
    }
  }

  lemma Singleton(s: set<int>, x: int)
    requires x in s
    ensures |s| == 1 <==> s == {x}
  {
    assert s == {x} + (s - {x});
    if |s - {x}| == 0 {
      assert s - {x} == {};
    }
  }

  /** A set of at least two elements has one besides x. */
  lemma Another(s: set<int>, x: int)
    requires x in s
    ensures |s| == 1 || exists y :: y in s && y != x
  {
    assert s == {x} + (s - {x});
    Inhabited(s - {x});
    if y :| y in s - {x} {
      assert y in s && y != x;
    }
  }

  lemma SameSet(s: set<int>, t: set<int>)
    requires forall x :: x in s <==> x in t
    ensures s == t
  {
    Inhabited(s - t);
    Inhabited(t - s);
    assert s == (s * t) + (s - t) && t == (s * t) + (t - s);
  }

  lemma Subset(s: set<int>, t: set<int>)
    requires forall x :: x in s ==> x in t
    ensures s <= t
  {
    Inhabited(s - t);
    assert s == (s * t) + (s - t);
  }

  /** Bookkeeping of a loop over `all` that has `todo` still before it: x is next. */
  lemma DoneNext(all: set<int>, todo: set<int>, x: int)
    requires x in todo && todo <= all
    ensures all - todo + {x} == all - (todo - {x}) && x !in all - todo
  {
  }

  lemma Disjoint(s: set<int>, t: set<int>)
    requires forall x :: x in s ==> x !in t
    ensures s !! t
  {
    SameSet(s, s - t);
  }

  lemma MapInhabited<T>(m: map<int, T>)
    ensures m != map[] ==> exists x :: x in m
  {
    if forall x :: x !in m {
      assert m == map[];
    }
  }

  lemma UpdatedKeys<T>(m: map<int, T>, k: int, v: T)
    ensures m[k := v].Keys == m.Keys + {k} && (k in m ==> m[k := v].Keys == m.Keys)
  {
    SameSet(m[k := v].Keys, m.Keys + {k});
    if k in m {
      SameSet(m[k := v].Keys, m.Keys);
    }
  }

  lemma RemainingKeys<T>(m: map<int, T>, k: int)
    ensures (m - {k}).Keys == m.Keys - {k}
  {
    SameSet((m - {k}).Keys, m.Keys - {k});
  }

  // ----- sums over finite sets

  ghost function SumOver(f: int -> nat, s: set<int>): nat {
    if s == {} then 0 else
      Inhabited(s);
      var x :| x in s;
      f(x) + SumOver(f, s - {x})
  }

  /** The sum does not depend on the order of the elements. */
  lemma {:induction false} SumPick(f: int -> nat, s: set<int>, x: int)
    requires x in s
    ensures SumOver(f, s) == f(x) + SumOver(f, s - {x})
    decreases |s|
  {
    Inhabited(s);
    var y :| y in s && SumOver(f, s) == f(y) + SumOver(f, s - {y});
    if y != x {
      SumPick(f, s - {y}, x);
      SumPick(f, s - {x}, y);
      SameSet(s - {y} - {x}, s - {x} - {y});
    }
  }

  lemma {:induction false} SumAtMost(f: int -> nat, g: int -> nat, s: set<int>, t: set<int>)
    requires forall x :: x in s ==> x in t && f(x) <= g(x)
    ensures SumOver(f, s) <= SumOver(g, t)
    decreases |s|
  {
    if s != {} {
      Inhabited(s);
      var x :| x in s;
      SumPick(f, s, x);
      SumPick(g, t, x);
      SumAtMost(f, g, s - {x}, t - {x});
    }
  }
}
