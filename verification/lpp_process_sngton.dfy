/** Empty columns and row singletons. */
module LpProcessSngton {
  import opened Sums
  import opened Collections
  import opened LpModel
  import opened LpRecover
  import opened LpReduce
  import opened LpKktRows
  import opened LpKktCols
  import opened LpKktForce
  import opened LpEquiv
  import opened LpEquivCols
  import opened LpDual
  import opened LpLocal
  import opened LpBox
  import opened LpCompose
  import opened LpQueue
  import opened LpWorkspace
  import opened LpProcessPlain

  lemma SettledSetCol(v: View, w: View, q: int, r: Range)
    requires q in v.P.col && w.P == SetColRange(v.P, q, r) && w.rq == v.rq && w.cq == v.cq && q in v.cq
    ensures Settled(v, w, {}, {})
  {
  }

  lemma SetRowWellFormed(P: LP, p: int, r: Range)
    requires WellFormed(P) && p in P.row && r.Ordered()
    ensures WellFormed(SetRowRange(P, p, r))
  {
  }

  lemma SingleRowFacts(P: LP, p: int, q: int)
    requires WellFormed(P) && |RowCols(P.row, P.col, P.a, p)| == 1 && q in RowCols(P.row, P.col, P.a, p)
    ensures SingleInRow(P, p, q) && (p, q) in P.a
  {
    var E := RowCols(P.row, P.col, P.a, p);
    forall k | k in P.a && k.0 == p ensures k.1 == q {
      var (i, j) := k;
      RowColsFacts(P, p);
      Singleton(E, q);
    }
  }

  lemma SingleColFacts(P: LP, q: int, p: int)
    requires WellFormed(P) && |ColRows(P.row, P.col, P.a, q)| == 1 && p in ColRows(P.row, P.col, P.a, q)
    ensures SingleInCol(P, p, q) && (p, q) in P.a
  {
    var E := ColRows(P.row, P.col, P.a, q);
    forall k | k in P.a && k.1 == q ensures k.0 == p {
      var (i, j) := k;
      ColRowsFacts(P, q);
      Singleton(E, p);
    }
  }

  // ----- empty columns

  lemma EmptyColReduces(P: LP, q: int, v: real, st: Stat, T: seq<Entry>)
    requires WellFormed(P) && q in P.col && 0 <= q < P.n && EmptyColAt(P, q)
    requires StatusOk(P.col[q].rng, st, v, P.col[q].c) && st != BS
    ensures Reduces(P, T, SubstCol(P, q, v), [EmptyCol(q, st, v, P.col[q].c)] + T)
  {
    hide WellFormed, Restores, Equivalent, EmptyColAt, StatusOk, KeepsDual;
    EmptyColEquiv(P, q, v, st);
    SubstDual(P, q, v);
    EmptyColRestores(P, q, v, st);
    ReducesIntro(P, T, SubstCol(P, q, v), [EmptyCol(q, st, v, P.col[q].c)]);
  }

  lemma SubstEmptyCol(P: LP, q: int, v: real, c0: real)
    requires WellFormed(P) && q in P.col && EmptyColAt(P, q) && c0 == P.c0 + P.col[q].c * v
    ensures RemoveCol(P.(c0 := c0), q) == SubstCol(P, q, v)
  {
    forall i ensures (i, q) !in P.a {
      assert (i, q).1 == q;
    }
    ShiftPartEnds(P, q, v, {});
  }

  /** Where an empty column is fixed; the caller has excluded that the objective pulls it to infinity. */
  /** Value v is one of the two, and no farther from zero than the other. */
  predicate Nearest(lb: real, ub: real, v: real) {
    (v == lb || v == ub) && v * v <= lb * lb && v * v <= ub * ub
  }

  lemma SquareOrder(x: real, y: real)
    ensures Abs(x) <= Abs(y) ==> x * x <= y * y
  {
    var s, t := Abs(x), Abs(y);
    assert x * x == s * s && y * y == t * t;
    if s <= t {
      MulMono(s, s, t);
      MulMono(t, s, t);
    }
  }

  method ChooseEmptyCol(r: Range, c: real) returns (st: Stat, prim: real)
    requires r.Ordered() && !(c > 0.0 && r.lb.Inf?) && !(c < 0.0 && r.ub.Inf?)
    ensures StatusOk(r, st, prim, c) && st != BS
    ensures c == 0.0 && r.lb.Fin? && r.ub.Fin? ==> Nearest(r.lb.v, r.ub.v, prim)
  {
    var low := false;
    if r.lb.Fin? && r.ub.Fin? {
      SquareOrder(r.lb.v, r.ub.v);
      SquareOrder(r.ub.v, r.lb.v);
    }
    if r.lb.Inf? && r.ub.Inf? {
      return NF, 0.0;
    } else if r.ub.Inf? {
      low := true;
    } else if r.lb.Inf? {
      low := false;
    } else if r.lb.v != r.ub.v {
      low := if c > 0.0 then true else if c < 0.0 then false else Abs(r.lb.v) <= Abs(r.ub.v);
    } else {
      return NS, r.lb.v;
    }
    if low {
      st, prim := NL, r.lb.v;
    } else {
      st, prim := NU, r.ub.v;
    }
  }

  method ProcessEmptyCol(w: Workspace, q: int) returns (code: int)
    requires w.Valid() && q in w.col && EmptyColAt(w.Problem(), q)
    modifies w
    ensures code == 0 || code == 2
    ensures code == 2 <==> (old(w.col[q].c) > 0.0 && old(w.col[q].rng.lb.Inf?)) || (old(w.col[q].c) < 0.0 && old(w.col[q].rng.ub.Inf?))
    ensures code == 2 ==> NoOptimum(old(w.Problem())) && !DualFeasible(old(w.Problem()))
    ensures code == 0 ==> w.Valid() && w.tqe != [] && w.tqe[1..] == old(w.tqe)
    ensures code == 0 ==> w.tqe[0].EmptyCol? && w.tqe[0].q == q && w.tqe[0].dual == old(w.col[q].c)
    ensures code == 0 ==> w.Problem() == SubstCol(old(w.Problem()), q, w.tqe[0].prim)
    ensures code == 0 && old(w.col[q].c) == 0.0 && old(w.col[q].rng.lb.Fin?) && old(w.col[q].rng.ub.Fin?) ==>
              Nearest(old(w.col[q].rng.lb.v), old(w.col[q].rng.ub.v), w.tqe[0].prim)
    ensures code == 0 ==> Reduces(old(w.Problem()), old(w.tqe), w.Problem(), w.tqe)
    ensures code == 0 ==> Settled(old(w.Now()), w.Now(), {}, {})
  {
    hide WellFormed, EmptyColAt, QueuesOk, Settled, Reduces, NoOptimum, RemoveCol, SubstCol, Pop, StatusOk;
    ghost var u, P, T := w.Now(), w.Problem(), w.tqe;
    WellFormedCol(P, q);
    var r, c := w.col[q].rng, w.col[q].c;
    if (c > 0.0 && r.lb.Inf?) || (c < 0.0 && r.ub.Inf?) {
      EmptyColUnbounded(P, q);
      EmptyColDual(P, q);
      return 2;
    }
    var st, prim := ChooseEmptyCol(r, c);
    EmptyColReduces(P, q, prim, st, T);
    w.tqe := [EmptyCol(q, st, prim, c)] + w.tqe;
    w.c0 := w.c0 + c * prim;
    SubstEmptyCol(P, q, prim, w.c0);
    ConstTermOk(u, w.c0);
    w.RemoveColAt(q);
    SettledConst(u, w.Now(), P.c0 + c * prim);
    code := 0;
  }

  lemma ConstTermOk(v: View, c0: real)
    requires WellFormed(v.P) && QueuesOk(v)
    ensures WellFormed(v.P.(c0 := c0)) && QueuesOk(v.(P := v.P.(c0 := c0)))
  {
  }

  lemma SettledConst(v: View, w: View, c0: real)
    requires Settled(v.(P := v.P.(c0 := c0)), w, {}, {})
    ensures Settled(v, w, {}, {})
  {
  }

  // ----- equality row singletons

  lemma OnlyJoins(own: Range, row: Range, apq: real, v: real)
    requires row.Fixed() && apq != 0.0 && v == row.lb.v / apq && own.Holds(v)
    ensures Joins(FixAt(v), own, row, apq)
  {
    forall x ensures FixAt(v).Holds(x) <==> own.Holds(x) && row.Holds(apq * x) {
      Sngton1Only(row.lb.v, apq, v, x);
    }
  }

  lemma RowSngton1Reduces(P: LP, p: int, q: int, v: real, T: seq<Entry>)
    requires WellFormed(P) && p in P.row && SingleInRow(P, p, q) && (p, q) in P.a && P.row[p].Fixed()
    requires q in P.col && 0 <= q < P.n && P.a[(p, q)] != 0.0 && v == P.row[p].lb.v / P.a[(p, q)]
    requires P.col[q].rng.Holds(v)
    ensures var Q := SngtonProblem(P, p, q, FixAt(v));
            Reduces(P, T, SubstCol(Q, q, v), [FixedColEntry(Q, q, v), RowSngton1(p, q, P.a[(p, q)])] + T)
  {
    hide WellFormed, Restores, Simulates, SingleInRow, FixedColEntry, KeepsDual, Joins;
    var Q := SngtonProblem(P, p, q, FixAt(v));
    var R := SubstCol(Q, q, v);
    SngtonDual(P, p, q, FixAt(v));
    SngtonFacts(P, p, q, FixAt(v));
    SubstDual(Q, q, v);
    KeepsDualTrans(P, Q, R);
    OnlyJoins(P.col[q].rng, P.row[p], P.a[(p, q)], v);
    SngtonEquiv(P, p, q, FixAt(v));
    FixedColEquiv(Q, q);
    SimulatesTrans(P, Q, R);
    SimulatesTrans(R, Q, P);
    RowSngton1Restores(P, p, q, v);
    ReducesIntro(P, T, R, [FixedColEntry(Q, q, v), RowSngton1(p, q, P.a[(p, q)])]);
  }

  /** x = b / a is the only value the row admits. */
  lemma Sngton1Only(b: real, apq: real, v: real, x: real)
    requires apq != 0.0 && v == b / apq
    ensures x == v <==> apq * x == b
  {
    DivMul(b, apq);
    if apq * x == b {
      assert apq * (x - v) == 0.0;
    }
  }

  lemma Sngton1Infeasible(P: LP, p: int, q: int, v: real)
    requires WellFormed(P) && p in P.row && SingleInRow(P, p, q) && (p, q) in P.a && P.row[p].Fixed()
    requires q in P.col && P.a[(p, q)] != 0.0 && v == P.row[p].lb.v / P.a[(p, q)] && !P.col[q].rng.Holds(v)
    ensures Infeasible(P)
  {
    hide WellFormed, SingleInRow, Infeasible;
    forall x ensures !(P.col[q].rng.Holds(x) && P.row[p].Holds(P.a[(p, q)] * x)) {
      Sngton1Only(P.row[p].lb.v, P.a[(p, q)], v, x);
    }
    SngtonInfeasible(P, p, q);
  }

  lemma OneAdmitted(own: Range, row: Range, apq: real, v: real)
    requires row.Fixed() && apq != 0.0 && v == row.lb.v / apq
    ensures (exists x :: Admits(own, row, apq, x)) <==> own.Holds(v)
  {
    if own.Holds(v) {
      Sngton1Only(row.lb.v, apq, v, v);
      assert Admits(own, row, apq, v);
    }
    if x :| Admits(own, row, apq, x) {
      Sngton1Only(row.lb.v, apq, v, x);
    }
  }

  lemma Sngton1Meets(P: LP, p: int, q: int, v: real)
    requires WellFormed(P) && p in P.row && SingleInRow(P, p, q) && (p, q) in P.a && P.row[p].Fixed()
    requires q in P.col && P.a[(p, q)] != 0.0 && v == P.row[p].lb.v / P.a[(p, q)]
    ensures RowMeets(P, p) <==> P.col[q].rng.Holds(v)
  {
    hide WellFormed, SingleInRow, RowMeets, Admits;
    SngtonMeets(P, p, q);
    OneAdmitted(P.col[q].rng, P.row[p], P.a[(p, q)], v);
  }

  method ProcessRowSngton1(w: Workspace, p: int) returns (code: int)
    requires w.Valid() && p in w.row && w.row[p].Fixed() && |RowCols(w.row, w.col, w.a, p)| == 1
    modifies w
    ensures code == 0 || code == 1
    ensures code == 1 ==> Infeasible(old(w.Problem()))
    ensures code == 1 <==> !RowMeets(old(w.Problem()), p)
    ensures code == 0 ==> w.Valid() && p !in w.row && Size(w.Problem()) == Size(old(w.Problem())) - 2
    ensures code == 0 ==> Reduces(old(w.Problem()), old(w.tqe), w.Problem(), w.tqe)
    ensures code == 0 ==> Settled(old(w.Now()), w.Now(), {}, {})
  {
    hide WellFormed, QueuesOk, Settled, Reduces, Infeasible, SubstCol, Pop, SingleInRow, FixedColEntry, Size, DropRow,
      RowCols, NoDup, RowMeets;
    ghost var u, P, T := w.Now(), w.Problem(), w.tqe;
    Inhabited(RowCols(w.row, w.col, w.a, p));
    var q :| q in RowCols(w.row, w.col, w.a, p);
    SingleRowFacts(P, p, q);
    WellFormedElem(P, p, q);
    WellFormedCol(P, q);
    var apq, own := w.a[(p, q)], w.col[q].rng;
    var val := w.row[p].lb.v / apq;
    Sngton1Meets(P, p, q, val);
    if (own.lb.Fin? && val < own.lb.v) || (own.ub.Fin? && val > own.ub.v) {
      Sngton1Infeasible(P, p, q, val);
      return 1;
    }
    w.tqe := [RowSngton1(p, q, apq)] + w.tqe;
    w.RemoveRowAt(p);
    ghost var v1 := w.Now();
    w.col := w.col[q := w.col[q].(rng := FixAt(val))];
    ghost var v2 := w.Now();
    SngtonChain(u, v1, v2, p, q, FixAt(val));
    ProcessFixedCol(w, q);
    SettledTrans(u, v2, w.Now(), {}, {});
    RowSngton1Reduces(P, p, q, val, T);
    assert [FixedColEntry(v2.P, q, val)] + ([RowSngton1(p, q, apq)] + T) ==
           [FixedColEntry(v2.P, q, val), RowSngton1(p, q, apq)] + T;
    SubstColSize(v2.P, q, val);
    SubstKeys(v2.P, q, val);
    code := 0;
  }

  /** After the row is removed and its column, now active, has got a new range. */
  lemma SngtonChain(u: View, v: View, w: View, p: int, q: int, r: Range)
    requires WellFormed(u.P) && p in u.P.row && q in u.P.col && r.Ordered()
    requires QueuesOk(v) && v.P == RemoveRow(u.P, p) && q in v.cq && Settled(u, v, {}, {})
    requires w.P == SngtonProblem(u.P, p, q, r) && w.rq == v.rq && w.cq == v.cq
    ensures WellFormed(w.P) && QueuesOk(w) && Settled(u, w, {}, {})
    ensures Size(w.P) == Size(u.P) - 1 && p !in w.P.row
  {
    hide NoDup, WellFormed, Settled;
    SngtonFacts(u.P, p, q, r);
    SettledSetCol(v, w, q, r);
    SettledTrans(u, v, w, {}, {});
  }

  // ----- inequality row singletons

  lemma Sngton2Infeasible(P: LP, p: int, q: int)
    requires WellFormed(P) && p in P.row && SingleInRow(P, p, q) && (p, q) in P.a && q in P.col && P.a[(p, q)] != 0.0
    requires !Consistent(P.col[q].rng, ImpliedRange(P.row[p], P.a[(p, q)]))
    ensures Infeasible(P)
  {
    hide WellFormed, SingleInRow, Infeasible;
    var imp := ImpliedRange(P.row[p], P.a[(p, q)]);
    forall x ensures !(P.col[q].rng.Holds(x) && P.row[p].Holds(P.a[(p, q)] * x)) {
      ImpliedHolds(P.row[p], P.a[(p, q)], x);
      ConsistentMeet(P.col[q].rng, imp, x);
    }
    SngtonInfeasible(P, p, q);
  }

  lemma ConsistentMeet(own: Range, imp: Range, x: real)
    ensures own.Holds(x) && imp.Holds(x) ==> Consistent(own, imp)
  {
  }

  lemma TightenFinite(own: Range, imp: Range)
    ensures var t := Tighten(own, imp); (own.lb.Fin? || imp.lb.Fin? ==> t.lb.Fin?) && (own.ub.Fin? || imp.ub.Fin? ==> t.ub.Fin?)
  {
  }

  /** The tightened bounds say what the column's own bounds and the row say together. */
  lemma TightImplied(own: Range, r: Range, apq: real)
    requires apq != 0.0
    ensures Joins(Tighten(own, ImpliedRange(r, apq)), own, r, apq)
  {
    hide Tighten, ImpliedRange;
    forall x ensures Tighten(own, ImpliedRange(r, apq)).Holds(x) <==> own.Holds(x) && r.Holds(apq * x) {
      TightenHolds(own, ImpliedRange(r, apq), x);
      ImpliedHolds(r, apq, x);
    }
  }

  lemma RowSngton2Reduces(P: LP, p: int, q: int, T: seq<Entry>)
    requires WellFormed(P) && p in P.row && SingleInRow(P, p, q) && (p, q) in P.a && !P.row[p].Fixed() && !P.row[p].Free()
    requires q in P.col && !P.col[q].rng.Fixed() && P.a[(p, q)] != 0.0
    requires P.row[p].Ordered() && P.col[q].rng.Ordered()
    requires Consistent(P.col[q].rng, ImpliedRange(P.row[p], P.a[(p, q)]))
    ensures var own, imp := P.col[q].rng, ImpliedRange(P.row[p], P.a[(p, q)]);
            Reduces(P, T, SngtonProblem(P, p, q, Tighten(own, imp)),
                    [RowSngton2(p, q, P.a[(p, q)], LbTightens(own, imp), UbTightens(own, imp))] + T)
  {
    hide WellFormed, Restores, Equivalent, SingleInRow, ImpliedRange, Tighten, Consistent, LbTightens, UbTightens, Joins, KeepsDual;
    var own, imp := P.col[q].rng, ImpliedRange(P.row[p], P.a[(p, q)]);
    var t := Tighten(own, imp);
    TightenFinite(own, imp);
    SngtonDual(P, p, q, t);
    TightImplied(own, P.row[p], P.a[(p, q)]);
    SngtonEquiv(P, p, q, t);
    RowSngton2Restores(P, p, q);
    ReducesIntro(P, T, SngtonProblem(P, p, q, t),
                 [RowSngton2(p, q, P.a[(p, q)], LbTightens(own, imp), UbTightens(own, imp))]);
  }

  /** A fixed column that satisfies the singleton row leaves it empty and satisfied. */
  lemma FixedInRow(P: LP, p: int, q: int, v: real)
    requires WellFormed(P) && p in P.row && SingleInRow(P, p, q) && (p, q) in P.a && q in P.col && P.a[(p, q)] != 0.0
    requires P.col[q].rng.Fixed() && v == P.col[q].rng.lb.v
    requires Consistent(P.col[q].rng, ImpliedRange(P.row[p], P.a[(p, q)]))
    ensures var R := SubstCol(P, q, v); p in R.row && EmptyRowAt(R, p) && R.row[p].Holds(0.0)
  {
    hide WellFormed, Consistent, ImpliedRange, ShiftedRow;
    var R, apq := SubstCol(P, q, v), P.a[(p, q)];
    FixedMeets(P.col[q].rng, ImpliedRange(P.row[p], apq), v);
    ImpliedHolds(P.row[p], apq, v);
    assert At(P.a, p, q) == apq;
    ShiftedHolds(P, q, v, p, 0.0);
    assert R.row[p] == ShiftedRow(P, q, v, p);
  }

  lemma FixedMeets(own: Range, imp: Range, v: real)
    requires own.Fixed() && v == own.lb.v && Consistent(own, imp)
    ensures imp.Holds(v)
  {
  }

  /** Giving up the bounds of a row that is about to be removed. */
  lemma FreeingIgnored(P: LP, p: int, r: Range)
    requires p in P.row
    ensures RemoveRow(SetRowRange(P, p, r), p) == RemoveRow(P, p)
  {
    assert SetRowRange(P, p, r).row - {p} == P.row - {p};
  }

  /** The row is empty and satisfied: drop its bounds, then the row. */
  method DropSatisfied(w: Workspace, p: int)
    requires w.Valid() && p in w.row && EmptyRowAt(w.Problem(), p) && w.row[p].Holds(0.0)
    modifies w
    ensures w.Valid() && w.Problem() == RemoveRow(old(w.Problem()), p)
    ensures Reduces(old(w.Problem()), old(w.tqe), w.Problem(), w.tqe)
    ensures Settled(old(w.Now()), w.Now(), {}, {})
  {
    hide WellFormed, QueuesOk, Settled, Reduces, RemoveRow, EmptyRowAt;
    ghost var u, P, T := w.Now(), w.Problem(), w.tqe;
    EmptyRowReduces(P, p, T);
    FreeingIgnored(P, p, FREE_RANGE);
    SetRowWellFormed(P, p, FREE_RANGE);
    w.row := w.row[p := FREE_RANGE];
    ghost var v := w.Now();
    QueuesSameRows(u, v);
    EmptyRowSame(P, v.P, p);
    var code := ProcessEmptyRow(w, p);
    SettledFreed(u, v, w.Now(), p);
  }

  lemma EmptyRowSame(P: LP, R: LP, p: int)
    requires EmptyRowAt(P, p) && R.a == P.a
    ensures EmptyRowAt(R, p)
  {
  }

  lemma SettledFreed(u: View, v: View, w: View, p: int)
    requires v == u.(P := SetRowRange(u.P, p, FREE_RANGE)) && w.P == RemoveRow(u.P, p) && Settled(v, w, {}, {})
    ensures Settled(u, w, {}, {})
  {
  }

  lemma SomeAdmitted(own: Range, row: Range, apq: real)
    requires apq != 0.0 && own.Ordered() && row.Ordered()
    ensures (exists x :: Admits(own, row, apq, x)) <==> Consistent(own, ImpliedRange(row, apq))
  {
    hide ImpliedRange, Consistent, Tighten;
    var imp := ImpliedRange(row, apq);
    if Consistent(own, imp) {
      TightenOrdered(own, row, apq);
      var v := SomeValue(Tighten(own, imp));
      TightenHolds(own, imp, v);
      ImpliedHolds(row, apq, v);
      assert Admits(own, row, apq, v);
    }
    if v :| Admits(own, row, apq, v) {
      ImpliedHolds(row, apq, v);
      ConsistentMeet(own, imp, v);
    }
  }

  lemma Sngton2Meets(P: LP, p: int, q: int)
    requires WellFormed(P) && p in P.row && SingleInRow(P, p, q) && (p, q) in P.a && q in P.col && P.a[(p, q)] != 0.0
    requires P.row[p].Ordered() && P.col[q].rng.Ordered()
    ensures RowMeets(P, p) <==> Consistent(P.col[q].rng, ImpliedRange(P.row[p], P.a[(p, q)]))
  {
    hide WellFormed, SingleInRow, RowMeets, ImpliedRange, Consistent, Admits;
    SngtonMeets(P, p, q);
    SomeAdmitted(P.col[q].rng, P.row[p], P.a[(p, q)]);
  }

  method ProcessRowSngton2(w: Workspace, p: int) returns (code: int)
    requires w.Valid() && p in w.row && !w.row[p].Fixed() && |RowCols(w.row, w.col, w.a, p)| == 1
    modifies w
    ensures code == 0 || code == 1
    ensures code == 1 ==> Infeasible(old(w.Problem()))
    ensures code == 1 <==> !RowMeets(old(w.Problem()), p)
    ensures code == 0 ==> w.Valid() && p !in w.row && Size(w.Problem()) < Size(old(w.Problem()))
    ensures code == 0 ==> Reduces(old(w.Problem()), old(w.tqe), w.Problem(), w.tqe)
    ensures code == 0 ==> Settled(old(w.Now()), w.Now(), {}, {})
  {
    hide WellFormed, QueuesOk, Settled, Reduces, Infeasible, SubstCol, Pop, SingleInRow, FixedColEntry, Size, DropRow,
      RowCols, NoDup, ImpliedRange, Consistent, LbTightens, UbTightens, EmptyRowAt, RowVec, RowMeets;
    ghost var u, P, T := w.Now(), w.Problem(), w.tqe;
    if w.row[p].Free() {
      RemoveRowSize(P, p);
      FreeMeets(P, p);
      ProcessFreeRow(w, p);
      return 0;
    }
    Inhabited(RowCols(w.row, w.col, w.a, p));
    var q :| q in RowCols(w.row, w.col, w.a, p);
    SingleRowFacts(P, p, q);
    WellFormedElem(P, p, q);
    WellFormedRow(P, p);
    WellFormedCol(P, q);
    var apq, own := w.a[(p, q)], w.col[q].rng;
    var imp := ImpliedRange(w.row[p], apq);
    Sngton2Meets(P, p, q);
    if !Consistent(own, imp) {
      Sngton2Infeasible(P, p, q);
      return 1;
    }
    code := 0;
    if own.Fixed() {
      FixedInRow(P, p, q, own.lb.v);
      SubstColSize(P, q, own.lb.v);
      ProcessFixedCol(w, q);
      ghost var v1, T1 := w.Now(), w.tqe;
      RemoveRowSize(v1.P, p);
      DropSatisfied(w, p);
      SettledTrans(u, v1, w.Now(), {}, {});
      ReducesTrans(P, T, v1.P, T1, w.Problem(), w.tqe);
    } else {
      TightenColumn(w, p, q);
      ghost var v1, T1 := w.Now(), w.tqe;
      var r := w.col[q].rng;
      if r.lb.Fin? && r.ub.Fin? && r.lb.v == r.ub.v {
        SubstColSize(v1.P, q, r.lb.v);
        SubstKeys(v1.P, q, r.lb.v);
        ProcessFixedCol(w, q);
        SettledTrans(u, v1, w.Now(), {}, {});
        ReducesTrans(P, T, v1.P, T1, w.Problem(), w.tqe);
      }
    }
  }

  /** The middle of process_row_sngton2: tighten the bounds of the column and remove the row. */
  method TightenColumn(w: Workspace, p: int, q: int)
    requires w.Valid() && p in w.row && SingleInRow(w.Problem(), p, q) && (p, q) in w.a && q in w.col
    requires !w.row[p].Fixed() && !w.row[p].Free() && !w.col[q].rng.Fixed() && w.a[(p, q)] != 0.0
    requires w.row[p].Ordered() && w.col[q].rng.Ordered()
    requires Consistent(w.col[q].rng, ImpliedRange(w.row[p], w.a[(p, q)]))
    modifies w
    ensures w.Valid() && p !in w.row && q in w.col && Size(w.Problem()) < Size(old(w.Problem()))
    ensures w.Problem() == SngtonProblem(old(w.Problem()), p, q,
                             Tighten(old(w.col[q].rng), ImpliedRange(old(w.row[p]), old(w.a[(p, q)]))))
    ensures Reduces(old(w.Problem()), old(w.tqe), w.Problem(), w.tqe)
    ensures Settled(old(w.Now()), w.Now(), {}, {})
  {
    hide WellFormed, QueuesOk, Settled, Reduces, Pop, SingleInRow, Size, DropRow, NoDup, ImpliedRange, Consistent,
      LbTightens, UbTightens;
    ghost var u, P, T := w.Now(), w.Problem(), w.tqe;
    var apq, own := w.a[(p, q)], w.col[q].rng;
    var imp := ImpliedRange(w.row[p], apq);
    RowSngton2Reduces(P, p, q, T);
    TightenOrdered(own, P.row[p], apq);
    var lbc, ubc := LbTightens(own, imp), UbTightens(own, imp);
    w.tqe := [RowSngton2(p, q, apq, lbc, ubc)] + w.tqe;
    var t := own;
    if lbc {
      t := t.(lb := imp.lb);
    }
    if ubc {
      t := t.(ub := imp.ub);
    }
    w.RemoveRowAt(p);
    ghost var v1 := w.Now();
    w.col := w.col[q := w.col[q].(rng := t)];
    SngtonChain(u, v1, w.Now(), p, q, t);
  }
}
