/** Implied free columns. */
module LpProcessImplied {
  import opened Sums
  import opened Collections
  import opened LpModel
  import opened LpRecover
  import opened LpReduce
  import opened LpKktRows
  import opened LpKktCols
  import opened LpKktForce
  import opened LpEquiv
  import opened LpEquivCols
  import opened LpDual
  import opened LpLocal
  import opened LpBox
  import opened LpCompose
  import opened LpQueue
  import opened LpWorkspace
  import opened LpProcessPlain
  import opened LpProcessSngton
  import opened LpProcessSlack

  // ----- bounds of x[q] implied by row p and the other columns; the formulae (3)-(5)

  function EndVal(t: real, r: Range, up: bool): real {
    var b := EndFor(t, r, up);
    if b.Fin? then t * b.v else 0.0
  }

  function ImpliedF(P: LP, p: int, apq: real, up: bool): int -> real
    requires apq != 0.0
  {
    (j: int) => if (p, j) in P.a && j in P.col then EndVal(Coef(P.a[(p, j)], apq), P.col[j].rng, up) else 0.0
  }

  /** Sum of the contributions of the row and of its columns other than q. */
  function ImpliedVal(P: LP, p: int, q: int, apq: real, up: bool): real
    requires apq != 0.0 && p in P.row
  {
    EndVal(1.0 / apq, P.row[p], up) + SumPart(ImpliedF(P, p, apq, up), P.n, RowCols(P.row, P.col, P.a, p) - {q})
  }

  /** The implied lower (upper, when `up`) bound of x[q]. */
  function ImpliedBound(P: LP, p: int, q: int, apq: real, up: bool): Bound
    requires apq != 0.0 && p in P.row
  {
    if ImpliedFin(P, p, q, apq, up) then Fin(ImpliedVal(P, p, q, apq, up)) else Inf
  }

  lemma EndBounds(t: real, r: Range, up: bool, x: real)
    requires r.Holds(x) && EndFor(t, r, up).Fin?
    ensures up ==> t * x <= EndVal(t, r, up)
    ensures !up ==> t * x >= EndVal(t, r, up)
  {
    var b := EndFor(t, r, up).v;
    if t > 0.0 {
      MulSign(t, x, b);
      MulSign(t, b, x);
    } else if t < 0.0 {
      MulSign(t, x, b);
      MulSign(t, b, x);
    } else {
      assert t * x == 0.0 && t * b == 0.0;
    }
  }

  /** x[q] solved from row p; the formula (3). */
  function SolvedF(P: LP, p: int, q: int, apq: real, x: seq<real>): int -> real
    requires apq != 0.0
  {
    (j: int) => if j == q then 0.0 else Coef(At(P.a, p, j), apq) * Val(x, j)
  }

  lemma CoefTerm(apj: real, apq: real, x: real)
    requires apq != 0.0
    ensures Coef(apj, apq) * x == (-(1.0 / apq)) * (apj * x)
  {
    var t, u := Coef(apj, apq), 1.0 / apq;
    DivMul(-apj, apq);
    DivMul(1.0, apq);
    assert apq * t == -apj && apq * u == 1.0;
    assert t == u * (apq * t);
    assert t * x == (u * (-apj)) * x;
  }

  function ScaledRowF(P: LP, p: int, x: seq<real>, c: real): int -> real {
    (j: int) => c * RowF(P.a, p, x)(j)
  }

  lemma SolvedTerm(P: LP, p: int, q: int, apq: real, x: seq<real>, j: int)
    requires apq != 0.0 && j != q
    ensures SolvedF(P, p, q, apq, x)(j) == ScaledRowF(P, p, x, -(1.0 / apq))(j)
  {
    hide Coef, At, Val;
    var c, y, z := -(1.0 / apq), At(P.a, p, j), Val(x, j);
    CoefTerm(y, apq, z);
    assert ScaledRowF(P, p, x, c)(j) == c * RowF(P.a, p, x)(j);
    assert RowF(P.a, p, x)(j) == y * z;
  }

  lemma SolvedAt(P: LP, p: int, q: int, apq: real, x: seq<real>)
    requires (p, q) in P.a && P.a[(p, q)] == apq && apq != 0.0
    ensures SolvedF(P, p, q, apq, x)(q) == 0.0
    ensures ScaledRowF(P, p, x, -(1.0 / apq))(q) == -Val(x, q)
  {
    UnitQuotient(apq, Val(x, q));
    assert RowF(P.a, p, x)(q) == apq * Val(x, q);
  }

  lemma SolveForColumn(P: LP, p: int, q: int, apq: real, x: seq<real>)
    requires (p, q) in P.a && P.a[(p, q)] == apq && apq != 0.0 && 0 <= q < P.n
    ensures Val(x, q) == (1.0 / apq) * RowAct(P, p, x) + Sum(SolvedF(P, p, q, apq, x), P.n)
  {
    hide SolvedF, RowF;
    var f, g := SolvedF(P, p, q, apq, x), ScaledRowF(P, p, x, -(1.0 / apq));
    ScaleSum(g, RowF(P.a, p, x), -(1.0 / apq), P.n);
    hide ScaledRowF;
    forall j | 0 <= j < P.n && j != q ensures f(j) == g(j) {
      SolvedTerm(P, p, q, apq, x, j);
    }
    SumOne(f, g, P.n, q);
    SolvedAt(P, p, q, apq, x);
  }

  lemma UnitQuotient(apq: real, x: real)
    requires apq != 0.0
    ensures (-(1.0 / apq)) * (apq * x) == -x
  {
    DivMul(1.0, apq);
    var u := 1.0 / apq;
    assert u * (apq * x) == (apq * u) * x;
  }

  lemma ImpliedTerm(P: LP, p: int, q: int, apq: real, up: bool, x: seq<real>, j: int)
    requires WellFormed(P) && apq != 0.0 && ImpliedFin(P, p, q, apq, up) && OthersHold(P, q, x)
    ensures var E := RowCols(P.row, P.col, P.a, p) - {q};
            var f, g := SolvedF(P, p, q, apq, x), Masked(ImpliedF(P, p, apq, up), E);
            (up ==> f(j) <= g(j)) && (!up ==> f(j) >= g(j))
  {
    hide Coef, EndVal, EndFor, WellFormed;
    RowColsFacts(P, p);
    if j != q {
      if (p, j) in P.a {
        WellFormedElem(P, p, j);
        assert (p, j).0 == p;
        EndBounds(Coef(P.a[(p, j)], apq), P.col[j].rng, up, Val(x, j));
      } else {
        CoefTerm(0.0, apq, Val(x, j));
      }
    }
  }

  /** Whatever satisfies row p and the bounds of its other columns keeps x[q] on the right side of the implied bound. */
  lemma ImpliedBoundHolds(P: LP, p: int, q: int, apq: real, up: bool, x: seq<real>)
    requires WellFormed(P) && (p, q) in P.a && P.a[(p, q)] == apq && apq != 0.0 && 0 <= q < P.n && p in P.row
    requires ImpliedFin(P, p, q, apq, up) && OthersHold(P, q, x) && P.row[p].Holds(RowAct(P, p, x))
    ensures up ==> Val(x, q) <= ImpliedVal(P, p, q, apq, up)
    ensures !up ==> Val(x, q) >= ImpliedVal(P, p, q, apq, up)
  {
    hide Coef, EndVal, EndFor, WellFormed, RowAct, OthersHold, SolvedF, ImpliedF, Masked;
    var E := RowCols(P.row, P.col, P.a, p) - {q};
    var f, g := SolvedF(P, p, q, apq, x), Masked(ImpliedF(P, p, apq, up), E);
    SolveForColumn(P, p, q, apq, x);
    forall j ensures (up ==> f(j) <= g(j)) && (!up ==> f(j) >= g(j)) {
      ImpliedTerm(P, p, q, apq, up, x, j);
    }
    if up {
      SumLe(f, g, P.n);
    } else {
      SumLe(g, f, P.n);
    }
    EndBounds(1.0 / apq, P.row[p], up, RowAct(P, p, x));
  }

  /** The test of process_col_sngton2: own bounds cannot be crossed. */
  predicate NeverReached(own: Range, lo: Bound, hi: Bound) {
    && (own.lb.Fin? ==> lo.Fin? && lo.v >= own.lb.v)
    && (own.ub.Fin? ==> hi.Fin? && hi.v <= own.ub.v)
  }

  /** The dual value c[q]/a[p,q] of the row pushes towards a bound that the row does not have. */
  predicate Missing(P: LP, p: int, q: int)
    requires p in P.row && q in P.col && (p, q) in P.a && P.a[(p, q)] != 0.0
  {
    var pi := P.col[q].c / P.a[(p, q)];
    (pi > 0.0 && P.row[p].lb.Inf?) || (pi < 0.0 && P.row[p].ub.Inf?)
  }

  lemma NeverReachedFree(P: LP, p: int, q: int, apq: real)
    requires WellFormed(P) && (p, q) in P.a && P.a[(p, q)] == apq && apq != 0.0 && 0 <= q < P.n && p in P.row && q in P.col
    requires NeverReached(P.col[q].rng, ImpliedBound(P, p, q, apq, false), ImpliedBound(P, p, q, apq, true))
    ensures ImpliedFree(P, p, q) && Shielded(P, p, q)
  {
    hide WellFormed, RowAct, OthersHold, ImpliedFin, ImpliedVal;
    forall x: seq<real> | |x| == P.n && OthersHold(P, q, x) && P.row[p].Holds(RowAct(P, p, x))
      ensures P.col[q].rng.Holds(Val(x, q))
    {
      if P.col[q].rng.lb.Fin? {
        ImpliedBoundHolds(P, p, q, apq, false, x);
      }
      if P.col[q].rng.ub.Fin? {
        ImpliedBoundHolds(P, p, q, apq, true, x);
      }
    }
  }

  // ----- the test is exact

  /** x[q] as a linear function of the activity of the row, at place q, and of the other columns. */
  function SolveCoefs(P: LP, p: int, q: int, apq: real): Coefs
    requires apq != 0.0
  {
    (j: int) => if j == q then 1.0 / apq else Coef(At(P.a, p, j), apq)
  }

  function SolveRanges(P: LP, p: int, q: int): Ranges
    requires p in P.row
  {
    (j: int) => if j == q then P.row[p] else if j in P.col then P.col[j].rng else FREE_RANGE
  }

  lemma SolveAt(P: LP, p: int, q: int, apq: real, j: int)
    requires apq != 0.0 && p in P.row
    ensures SolveCoefs(P, p, q, apq)(j) == if j == q then 1.0 / apq else Coef(At(P.a, p, j), apq)
    ensures SolveRanges(P, p, q)(j) == if j == q then P.row[p] else if j in P.col then P.col[j].rng else FREE_RANGE
  {
  }

  lemma CoefZero(b: real, apq: real)
    requires apq != 0.0
    ensures Coef(b, apq) == 0.0 <==> b == 0.0
    ensures 1.0 / apq != 0.0
  {
    DivMul(-b, apq);
    DivMul(1.0, apq);
  }

  lemma SolvedSum(P: LP, p: int, q: int, apq: real, y: seq<real>, x: seq<real>)
    requires apq != 0.0 && p in P.row && 0 <= q < P.n == |y| == |x| && forall j :: 0 <= j < P.n && j != q ==> x[j] == y[j]
    ensures Linear(SolveCoefs(P, p, q, apq), y, P.n) == Sum(SolvedF(P, p, q, apq, x), P.n) + Times(1.0 / apq, y[q])
  {
    hide Coef, SolveCoefs;
    var k := SolveCoefs(P, p, q, apq);
    var f, g := TermF(k, y), SolvedF(P, p, q, apq, x);
    forall j | 0 <= j < P.n && j != q ensures f(j) == g(j) {
      SolveAt(P, p, q, apq, j);
      assert f(j) == Times(k(j), Val(y, j));
      assert Val(x, j) == y[j];
    }
    SumOne(f, g, P.n, q);
    SolveAt(P, p, q, apq, q);
    assert f(q) == Times(k(q), Val(y, q));
  }

  /** Any values of the row and of the other columns within their ranges determine a value of x[q]. */
  lemma SolvedPoint(P: LP, p: int, q: int, apq: real, y: seq<real>)
    requires WellFormed(P) && (p, q) in P.a && P.a[(p, q)] == apq && apq != 0.0 && 0 <= q < P.n && p in P.row && q in P.col
    requires Inside(SolveRanges(P, p, q), P.n, y)
    ensures var x := y[q := Linear(SolveCoefs(P, p, q, apq), y, P.n)];
            OthersHold(P, q, x) && RowAct(P, p, x) == y[q] && P.row[p].Holds(RowAct(P, p, x))
  {
    hide RowAct, Linear, SolvedF, SolveCoefs, SolveRanges, WellFormed;
    var x := y[q := Linear(SolveCoefs(P, p, q, apq), y, P.n)];
    forall j | j in P.col && j != q ensures P.col[j].rng.Holds(Val(x, j)) {
      ColInRange(P, j);
      SolveAt(P, p, q, apq, j);
      assert SolveRanges(P, p, q)(j).Holds(y[j]);
    }
    SolveAt(P, p, q, apq, q);
    SolvedSum(P, p, q, apq, y, x);
    SolveForColumn(P, p, q, apq, x);
    SameQuotient(apq, RowAct(P, p, x), y[q]);
    assert SolveRanges(P, p, q)(q).Holds(y[q]);
  }

  lemma ColInRange(P: LP, j: int)
    requires WellFormed(P) && j in P.col
    ensures 0 <= j < P.n
  {
  }

  lemma SameQuotient(apq: real, r: real, s: real)
    requires apq != 0.0 && (1.0 / apq) * r == Times(1.0 / apq, s)
    ensures r == s
  {
    var u := 1.0 / apq;
    DivMul(1.0, apq);
    assert apq * (u * r) == (apq * u) * r && apq * (u * s) == (apq * u) * s;
  }

  lemma EndIs(t: real, r: Range, up: bool)
    requires t != 0.0
    ensures EndFor(t, r, up) == BestEnd(t, r, up) && EndVal(t, r, up) == EndTerm(t, r, up)
  {
  }

  lemma SolveEnds(P: LP, p: int, q: int, apq: real, up: bool, j: int)
    requires WellFormed(P) && apq != 0.0 && p in P.row && 0 <= q < P.n && 0 <= j < P.n && (p, q) in P.a
    ensures var k, r := SolveCoefs(P, p, q, apq)(j), SolveRanges(P, p, q)(j);
            && (if j == q then k != 0.0 && EndFor(1.0 / apq, P.row[p], up) == BestEnd(k, r, up) && EndVal(1.0 / apq, P.row[p], up) == EndTerm(k, r, up)
                else if (p, j) in P.a then
                  && j in P.col && k != 0.0 && EndFor(Coef(P.a[(p, j)], apq), P.col[j].rng, up) == BestEnd(k, r, up)
                  && ImpliedF(P, p, apq, up)(j) == EndTerm(k, r, up)
                else k == 0.0 && EndTerm(k, r, up) == 0.0)
  {
    hide Coef, EndFor, EndVal, BestEnd, EndTerm, SolveCoefs, SolveRanges;
    SolveAt(P, p, q, apq, j);
    CoefZero(At(P.a, p, j), apq);
    if j == q {
      EndIs(1.0 / apq, P.row[p], up);
    } else if (p, j) in P.a {
      EndIs(Coef(P.a[(p, j)], apq), P.col[j].rng, up);
      ImpliedFAt(P, p, apq, up, j);
    } else {
      NoTerm(SolveRanges(P, p, q)(j), up);
    }
  }

  /** The implied bound is the extreme value of this function. */
  lemma ImpliedExtreme(P: LP, p: int, q: int, apq: real, up: bool)
    requires WellFormed(P) && (p, q) in P.a && P.a[(p, q)] == apq && apq != 0.0 && 0 <= q < P.n && p in P.row && q in P.col
    ensures ImpliedFin(P, p, q, apq, up) <==> Bounded(SolveCoefs(P, p, q, apq), SolveRanges(P, p, q), P.n, up)
    ensures ImpliedVal(P, p, q, apq, up) == Sum(EndTermF(SolveCoefs(P, p, q, apq), SolveRanges(P, p, q), up), P.n)
  {
    hide Coef, EndFor, EndVal, BestEnd, EndTerm, SolveCoefs, SolveRanges, ImpliedF;
    var k, r := SolveCoefs(P, p, q, apq), SolveRanges(P, p, q);
    SolveEnds(P, p, q, apq, up, q);
    if ImpliedFin(P, p, q, apq, up) {
      forall j | 0 <= j < P.n && k(j) != 0.0 ensures BestEnd(k(j), r(j), up).Fin? {
        SolveEnds(P, p, q, apq, up, j);
        assert (p, j).0 == p && (p, j).1 == j;
      }
    }
    if Bounded(k, r, P.n, up) {
      forall e | e in P.a && e.0 == p && e.1 != q ensures e.1 in P.col && EndFor(Coef(P.a[e], apq), P.col[e.1].rng, up).Fin? {
        var j := e.1;
        assert e == (p, j);
        SolveEnds(P, p, q, apq, up, j);
      }
    }
    ImpliedSum(P, p, q, apq, up);
  }

  lemma ImpliedSum(P: LP, p: int, q: int, apq: real, up: bool)
    requires WellFormed(P) && (p, q) in P.a && P.a[(p, q)] == apq && apq != 0.0 && 0 <= q < P.n && p in P.row && q in P.col
    ensures ImpliedVal(P, p, q, apq, up) == Sum(EndTermF(SolveCoefs(P, p, q, apq), SolveRanges(P, p, q), up), P.n)
  {
    hide Coef, EndFor, EndVal, BestEnd, EndTerm, SolveCoefs, SolveRanges, ImpliedF;
    var k, r := SolveCoefs(P, p, q, apq), SolveRanges(P, p, q);
    var E := RowCols(P.row, P.col, P.a, p) - {q};
    RowColsFacts(P, p);
    var f, g := EndTermF(k, r, up), Masked(ImpliedF(P, p, apq, up), E);
    forall j | 0 <= j < P.n && j != q ensures f(j) == g(j) {
      SolveEnds(P, p, q, apq, up, j);
    }
    SolveEnds(P, p, q, apq, up, q);
    SumOne(f, g, P.n, q);
  }

  lemma SolveProper(P: LP, p: int, q: int)
    requires WellFormed(P) && p in P.row
    ensures Proper(SolveRanges(P, p, q), P.n)
  {
    hide SolveRanges;
    forall j | 0 <= j < P.n ensures SolveRanges(P, p, q)(j).Ordered() {
      SolveAt(P, p, q, 1.0, j);
    }
  }

  /** A column that the row and the other columns keep within its bounds passes the test. */
  lemma FreeNeverReached(P: LP, p: int, q: int, apq: real, up: bool)
    requires WellFormed(P) && (p, q) in P.a && P.a[(p, q)] == apq && apq != 0.0 && 0 <= q < P.n && p in P.row && q in P.col
    requires ImpliedFree(P, p, q) && if up then P.col[q].rng.ub.Fin? else P.col[q].rng.lb.Fin?
    ensures var b := ImpliedBound(P, p, q, apq, up);
            b.Fin? && if up then b.v <= P.col[q].rng.ub.v else b.v >= P.col[q].rng.lb.v
  {
    hide WellFormed, RowAct, ImpliedFin, ImpliedVal, Bounded, Linear, EndTermF, SolveCoefs, SolveRanges, OthersHold, Inside, Proper;
    var k, r := SolveCoefs(P, p, q, apq), SolveRanges(P, p, q);
    ImpliedExtreme(P, p, q, apq, up);
    SolveProper(P, p, q);
    var own := P.col[q].rng;
    var far := if up then own.ub.v + 1.0 else own.lb.v - 1.0;
    var e := Sum(EndTermF(k, r, up), P.n);
    if !Bounded(k, r, P.n, up) || (if up then e > own.ub.v else e < own.lb.v) {
      var y := Reaches(k, r, P.n, up, if Bounded(k, r, P.n, up) then e else far);
      InsideSize(r, P.n, y);
      SolvedPoint(P, p, q, apq, y);
      ImpliedAt(P, p, q, y[q := Linear(k, y, P.n)]);
    }
  }

  lemma ImpliedAt(P: LP, p: int, q: int, x: seq<real>)
    requires p in P.row && q in P.col && ImpliedFree(P, p, q) && |x| == P.n && OthersHold(P, q, x) && P.row[p].Holds(RowAct(P, p, x))
    ensures P.col[q].rng.Holds(Val(x, q))
  {
  }

  lemma InsideSize(r: Ranges, n: nat, y: seq<real>)
    requires Inside(r, n, y)
    ensures |y| == n
  {
  }

  /** The test succeeds exactly if the row and the other columns keep x[q] within its bounds. */
  lemma TestExact(P: LP, p: int, q: int, apq: real)
    requires WellFormed(P) && (p, q) in P.a && P.a[(p, q)] == apq && apq != 0.0 && 0 <= q < P.n && p in P.row && q in P.col
    ensures NeverReached(P.col[q].rng, ImpliedBound(P, p, q, apq, false), ImpliedBound(P, p, q, apq, true)) <==> ImpliedFree(P, p, q)
    ensures ImpliedFree(P, p, q) ==> Shielded(P, p, q)
  {
    hide WellFormed, ImpliedFree, ImpliedBound, Shielded;
    if NeverReached(P.col[q].rng, ImpliedBound(P, p, q, apq, false), ImpliedBound(P, p, q, apq, true)) {
      NeverReachedFree(P, p, q, apq);
    }
    if ImpliedFree(P, p, q) {
      if P.col[q].rng.lb.Fin? {
        FreeNeverReached(P, p, q, apq, false);
      }
      if P.col[q].rng.ub.Fin? {
        FreeNeverReached(P, p, q, apq, true);
      }
    }
  }

  // ----- computing the implied bounds

  /** All columns of J contribute a finite amount. */
  predicate FinOn(P: LP, p: int, apq: real, up: bool, J: set<int>)
    requires apq != 0.0
  {
    forall j <- J :: (p, j) in P.a && j in P.col && EndFor(Coef(P.a[(p, j)], apq), P.col[j].rng, up).Fin?
  }

  lemma FinOnAll(P: LP, p: int, q: int, apq: real, up: bool, J: set<int>)
    requires WellFormed(P) && apq != 0.0 && p in P.row && forall j :: j in J <==> (p, j) in P.a && j != q
    requires EndFor(1.0 / apq, P.row[p], up).Fin?
    ensures FinOn(P, p, apq, up, J) <==> ImpliedFin(P, p, q, apq, up)
  {
    hide EndFor, Coef;
    if FinOn(P, p, apq, up, J) {
      forall k | k in P.a && k.0 == p && k.1 != q
        ensures k.1 in P.col && EndFor(Coef(P.a[k], apq), P.col[k.1].rng, up).Fin?
      {
        assert k == (p, k.1) && k.1 in J;
      }
    }
    if ImpliedFin(P, p, q, apq, up) {
      forall j | j in J ensures (p, j) in P.a && j in P.col && EndFor(Coef(P.a[(p, j)], apq), P.col[j].rng, up).Fin? {
        assert (p, j).0 == p && (p, j).1 == j;
      }
    }
  }

  /** One of the two loops of process_col_sngton2. */
  method ComputeImplied(w: Workspace, p: int, q: int, up: bool) returns (b: Bound)
    requires w.Valid() && (p, q) in w.a && p in w.row && w.a[(p, q)] != 0.0
    ensures b == ImpliedBound(w.Problem(), p, q, w.a[(p, q)], up)
  {
    hide WellFormed, QueuesOk, RowVec, RowCols, EndFor, EndVal, Coef, SumPart, ImpliedF, ImpliedFin, FinOn;
    ghost var P := w.Problem();
    RowColsFacts(P, p);
    var apq := w.a[(p, q)];
    var t := 1.0 / apq;
    if EndFor(t, w.row[p], up).Inf? {
      NoEnd(P, p, q, apq, up);
      return Inf;
    }
    var acc := EndVal(t, w.row[p], up);
    var elems := RowCols(w.row, w.col, w.a, p) - {q};
    var todo := elems;
    ghost var f := ImpliedF(P, p, apq, up);
    SumPartNone(f, P.n);
    FinOnNone(P, p, apq, up);
    FinOnAll(P, p, q, apq, up, elems);
    assert elems - todo == {};
    while todo != {}
      invariant todo <= elems && FinOn(P, p, apq, up, elems - todo)
      invariant acc == EndVal(t, P.row[p], up) + SumPart(f, P.n, elems - todo)
      decreases |todo|
    {
      Inhabited(todo);
      var j :| j in todo;
      WellFormedElem(P, p, j);
      WellFormedCol(P, j);
      var tj := Coef(w.a[(p, j)], apq);
      if EndFor(tj, w.col[j].rng, up).Inf? {
        FinOnFails(P, p, apq, up, elems, j);
        return Inf;
      }
      ImpliedStep(P, p, apq, up, elems - todo, j);
      acc := acc + EndVal(tj, w.col[j].rng, up);
      DoneNext(elems, todo, j);
      todo := todo - {j};
    }
    assert elems - {} == elems;
    b := Fin(acc);
  }

  lemma NoEnd(P: LP, p: int, q: int, apq: real, up: bool)
    requires apq != 0.0 && p in P.row && EndFor(1.0 / apq, P.row[p], up).Inf?
    ensures !ImpliedFin(P, p, q, apq, up)
  {
  }

  lemma FinOnNone(P: LP, p: int, apq: real, up: bool)
    requires apq != 0.0
    ensures FinOn(P, p, apq, up, {})
  {
  }

  lemma FinOnFails(P: LP, p: int, apq: real, up: bool, J: set<int>, j: int)
    requires apq != 0.0 && j in J && (p, j) in P.a && j in P.col && EndFor(Coef(P.a[(p, j)], apq), P.col[j].rng, up).Inf?
    ensures !FinOn(P, p, apq, up, J)
  {
  }

  lemma FinOnStep(P: LP, p: int, apq: real, up: bool, J: set<int>, j: int)
    requires apq != 0.0 && FinOn(P, p, apq, up, J)
    requires (p, j) in P.a && j in P.col && EndFor(Coef(P.a[(p, j)], apq), P.col[j].rng, up).Fin?
    ensures FinOn(P, p, apq, up, J + {j})
  {
    hide EndFor, Coef;
  }

  lemma ImpliedStep(P: LP, p: int, apq: real, up: bool, J: set<int>, j: int)
    requires apq != 0.0 && FinOn(P, p, apq, up, J) && 0 <= j < P.n && j !in J
    requires (p, j) in P.a && j in P.col && EndFor(Coef(P.a[(p, j)], apq), P.col[j].rng, up).Fin?
    ensures FinOn(P, p, apq, up, J + {j})
    ensures SumPart(ImpliedF(P, p, apq, up), P.n, J + {j}) ==
            SumPart(ImpliedF(P, p, apq, up), P.n, J) + EndVal(Coef(P.a[(p, j)], apq), P.col[j].rng, up)
  {
    hide EndFor, EndVal, Coef, SumPart, ImpliedF, FinOn;
    ImpliedFAt(P, p, apq, up, j);
    SumPartStep(ImpliedF(P, p, apq, up), P.n, J, j);
    FinOnStep(P, p, apq, up, J, j);
  }

  lemma ImpliedFAt(P: LP, p: int, apq: real, up: bool, j: int)
    requires apq != 0.0 && (p, j) in P.a && j in P.col
    ensures ImpliedF(P, p, apq, up)(j) == EndVal(Coef(P.a[(p, j)], apq), P.col[j].rng, up)
  {
    hide EndVal, Coef;
  }

  // ----- the reduction

  lemma ColSngton2Reduces(P: LP, p: int, q: int, v: real, st: Stat, T: seq<Entry>)
    requires WellFormed(P) && p in P.row && q in P.col && SingleInCol(P, p, q) && 0 <= p < P.m && 0 <= q < P.n
    requires (p, q) in P.a && P.a[(p, q)] != 0.0 && !P.row[p].Fixed() && P.row[p].Ordered()
    requires ImpliedFree(P, p, q) && Shielded(P, p, q) && ActiveSide(P.row[p], st, v, P.col[q].c / P.a[(p, q)])
    ensures var F := FreedProblem(P, p, q, v);
            && WellFormed(F) && SingleInCol(F, p, q) && F.row[p] == FixAt(v) && F.col[q] == Column(FREE_RANGE, P.col[q].c)
            && Reduces(P, T, SlackProblem(F, p, q),
                       [ColSngton1(p, q, v, P.col[q].c, P.a[(p, q)]), ColSngton2(p, q, st)] + T)
  {
    hide WellFormed, Restores, Simulates, SingleInCol, ImpliedFree, ActiveSide, SlackProblem, KeepsDual, Shielded;
    var F := FreedProblem(P, p, q, v);
    ColSngton2Restores(P, p, q, v, st);
    var R := SlackProblem(F, p, q);
    FreedDual(P, p, q, v);
    SlackDual(F, p, q);
    KeepsDualTrans(P, F, R);
    FreedEquiv(P, p, q, v, st);
    SlackEquiv(F, p, q);
    SimulatesTrans(P, F, R);
    SimulatesTrans(R, F, P);
    ReducesIntro(P, T, R, [ColSngton1(p, q, v, P.col[q].c, P.a[(p, q)]), ColSngton2(p, q, st)]);
  }

  /** Which bound of the row is active, from the sign of its dual value; `None` if that bound is missing. */
  method ChooseSide(r: Range, pi: real) returns (st: Stat, v: real, ok: bool)
    requires !r.Free()
    ensures ok ==> ActiveSide(r, st, v, pi)
    ensures !ok <==> (pi > 0.0 && r.lb.Inf?) || (pi < 0.0 && r.ub.Inf?)
  {
    st, v, ok := NL, 0.0, true;
    if pi > 0.0 {
      if r.lb.Inf? {
        return NL, 0.0, false;
      }
      v := r.lb.v;
    } else if pi < 0.0 {
      if r.ub.Inf? {
        return NL, 0.0, false;
      }
      st, v := NU, r.ub.v;
    } else if r.lb.Fin? {
      v := r.lb.v;
    } else {
      st, v := NU, r.ub.v;
    }
  }

  lemma SettledFreedCol(u: View, v: View, w: View, p: int, q: int, val: real)
    requires WellFormed(u.P) && p in u.P.row && q in u.P.col && (p, q) in u.P.a && u.P.a[(p, q)] != 0.0
    requires v == u.(P := FreedProblem(u.P, p, q, val)) && Settled(v, w, {}, {})
    requires w.P == SlackProblem(v.P, p, q) && p in w.rq
    ensures Settled(u, w, {}, {})
  {
    hide SlackRange;
    assert q !in w.P.col;
  }

  lemma FreedQueues(u: View, p: int, q: int, v: real)
    requires QueuesOk(u) && p in u.P.row && q in u.P.col
    ensures QueuesOk(u.(P := FreedProblem(u.P, p, q, v))) && Size(FreedProblem(u.P, p, q, v)) == Size(u.P)
  {
    var F := FreedProblem(u.P, p, q, v);
    assert F.row.Keys == u.P.row.Keys && F.col.Keys == u.P.col.Keys;
    QueuesSameRows(u, u.(P := F));
  }

  method ProcessColSngton2(w: Workspace, p: int, q: int) returns (code: int)
    requires w.Valid() && q in w.col && p in w.row && SingleInCol(w.Problem(), p, q) && (p, q) in w.a
    requires !w.row[p].Fixed() && w.a[(p, q)] != 0.0
    modifies w
    ensures code == 0 || code == 2
    ensures code == 2 ==> NoOptimum(old(w.Problem())) && !DualFeasible(old(w.Problem()))
    ensures code == 0 ==> w.Valid() && Reduces(old(w.Problem()), old(w.tqe), w.Problem(), w.tqe)
    ensures code == 0 ==> Settled(old(w.Now()), w.Now(), {}, {})
    ensures code == 0 ==> w.Now() == old(w.Now()) || Size(w.Problem()) < Size(old(w.Problem()))
    ensures code == 0 && w.Now() == old(w.Now()) ==> !w.col[q].rng.Fixed()
    ensures code == 0 && q in w.col ==> w.Now() == old(w.Now()) || q in w.colQue
    ensures code == 2 <==> !old(w.col[q].rng).Fixed() && !old(w.row[p]).Free() && ImpliedFree(old(w.Problem()), p, q) && Missing(old(w.Problem()), p, q)
    ensures code == 0 && old(w.col[q].rng).Fixed() ==> q !in w.col
    ensures code == 0 && !old(w.col[q].rng).Fixed() && old(w.row[p]).Free() ==> w.Problem() == RemoveRow(old(w.Problem()), p)
    ensures code == 0 && !old(w.col[q].rng).Fixed() && !old(w.row[p]).Free() ==>
              if ImpliedFree(old(w.Problem()), p, q) then q !in w.col else w.Now() == old(w.Now()) && w.tqe == old(w.tqe)
  {
    hide WellFormed, QueuesOk, Settled, Reduces, Pop, SingleInCol, Size, NoDup, SubstCol, FixedColEntry, SlackProblem,
      ImpliedFree, ImpliedBound, NoOptimum, ActiveSide, RowVec, DropRow, Shielded, DualFeasible;
    ghost var u, P, T := w.Now(), w.Problem(), w.tqe;
    WellFormedRow(P, p);
    WellFormedCol(P, q);
    code := 0;
    if w.col[q].rng.Fixed() {
      SubstColSize(P, q, w.col[q].rng.lb.v);
      SubstColGone(P, q, w.col[q].rng.lb.v);
      ProcessFixedCol(w, q);
      return;
    }
    if w.row[p].Free() {
      RemoveRowSize(P, p);
      ProcessFreeRow(w, p);
      return;
    }
    var apq, own := w.a[(p, q)], w.col[q].rng;
    var lo := ComputeImplied(w, p, q, false);
    var hi := ComputeImplied(w, p, q, true);
    TestExact(P, p, q, apq);
    if !NeverReached(own, lo, hi) {
      ReducesRefl(P, T);
      SettledRefl(u);
      return;
    }
    var st, v, ok := ChooseSide(w.row[p], w.col[q].c / apq);
    if !ok {
      FreedUnbounded(P, p, q);
      FreedNoDual(P, p, q);
      return 2;
    }
    FreeColumn(w, p, q, st, v);
  }

  lemma SubstColGone(P: LP, q: int, v: real)
    requires q in P.col
    ensures q !in SubstCol(P, q, v).col
  {
  }

  lemma SlackGone(P: LP, p: int, q: int)
    requires p in P.row && q in P.col && P.row[p].Fixed() && (p, q) in P.a && P.a[(p, q)] != 0.0
    ensures q !in SlackProblem(P, p, q).col
  {
  }

  lemma SettledRefl(v: View)
    requires WellFormed(v.P)
    ensures Settled(v, v, {}, {})
  {
  }

  /** The end of process_col_sngton2: free the column, fix the row, and drop the column as a slack. */
  method FreeColumn(w: Workspace, p: int, q: int, st: Stat, v: real)
    requires w.Valid() && q in w.col && p in w.row && SingleInCol(w.Problem(), p, q) && (p, q) in w.a
    requires !w.row[p].Fixed() && w.a[(p, q)] != 0.0 && w.row[p].Ordered()
    requires 0 <= p < w.m && 0 <= q < w.n
    requires ImpliedFree(w.Problem(), p, q) && Shielded(w.Problem(), p, q) && ActiveSide(w.row[p], st, v, w.col[q].c / w.a[(p, q)])
    modifies w
    ensures w.Valid() && q !in w.col && Size(w.Problem()) < Size(old(w.Problem()))
    ensures Reduces(old(w.Problem()), old(w.tqe), w.Problem(), w.tqe)
    ensures Settled(old(w.Now()), w.Now(), {}, {})
  {
    hide WellFormed, QueuesOk, Settled, Reduces, SingleInCol, Size, SlackProblem, ImpliedFree, ActiveSide, Shielded;
    ghost var u, P, T := w.Now(), w.Problem(), w.tqe;
    var apq := w.a[(p, q)];
    ColSngton2Reduces(P, p, q, v, st, T);
    FreedQueues(u, p, q, v);
    w.tqe := [ColSngton2(p, q, st)] + w.tqe;
    w.col := w.col[q := w.col[q].(rng := FREE_RANGE)];
    w.row := w.row[p := FixAt(v)];
    ghost var v1 := w.Now();
    ProcessColSngton1(w, p, q);
    SlackGone(v1.P, p, q);
    SettledFreedCol(u, v1, w.Now(), p, q, v);
    assert [ColSngton1(p, q, v, P.col[q].c, apq)] + ([ColSngton2(p, q, st)] + T) ==
           [ColSngton1(p, q, v, P.col[q].c, apq), ColSngton2(p, q, st)] + T;
  }
}
