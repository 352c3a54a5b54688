/** Optimal values under the column singleton, forcing and bound-stripping reductions; and what the non-zero
    return codes mean. */
module LpEquivCols {
  import opened Sums
  import opened LpModel
  import opened LpRecover
  import opened LpReduce
  import opened LpKktRows
  import opened LpKktCols
  import opened LpKktForce
  import opened LpEquiv

  // ----- implied slack columns

  lemma SlackTerm(cj: real, c: real, apj: real, apq: real, x: real)
    requires apq != 0.0
    ensures (cj - c * (apj / apq)) * x == cj * x + (-(c / apq)) * (apj * x)
  {
    var t, u := apj / apq, c / apq;
    DivMul(apj, apq);
    DivMul(c, apq);
    assert c * t == (apq * u) * t;
    assert c * t == u * (apq * t);
    assert (c * t) * x == u * (apj * x);
  }

  lemma SlackCostF(P: LP, p: int, q: int, x: seq<real>, j: int)
    requires WellFormed(P) && p in P.row && q in P.col && P.row[p].Fixed() && (p, q) in P.a && P.a[(p, q)] != 0.0
    ensures var R := SlackProblem(P, p, q);
            CostF(R.col, x)(j) ==
            CostF(P.col - {q}, x)(j) + (-(P.col[q].c / P.a[(p, q)])) * RowF(R.a, p, x)(j)
  {
    hide WellFormed, SlackProblem, At, CostAt;
    var R, apq, c := SlackProblem(P, p, q), P.a[(p, q)], P.col[q].c;
    if j in P.col && j != q {
      SlackCostAt(P, p, q, j);
      SlackTerm(P.col[j].c, c, At(P.a, p, j), apq, Val(x, j));
    } else {
      SlackCostGone(P, p, q, j);
    }
  }

  lemma SlackCostAt(P: LP, p: int, q: int, j: int)
    requires p in P.row && q in P.col && P.row[p].Fixed() && (p, q) in P.a && P.a[(p, q)] != 0.0
    requires j in P.col && j != q
    ensures var R := SlackProblem(P, p, q);
            && CostAt(R.col, j) == P.col[j].c - P.col[q].c * (At(P.a, p, j) / P.a[(p, q)])
            && CostAt(P.col - {q}, j) == P.col[j].c && At(R.a, p, j) == At(P.a, p, j)
  {
    AtDropCol(P.a, q, p, j);
    assert SlackProblem(P, p, q).col[j] == SlackedCol(P, p, P.a[(p, q)], P.col[q].c, j);
  }

  lemma SlackCostGone(P: LP, p: int, q: int, j: int)
    requires WellFormed(P) && p in P.row && q in P.col && P.row[p].Fixed() && (p, q) in P.a && P.a[(p, q)] != 0.0
    requires j !in P.col || j == q
    ensures var R := SlackProblem(P, p, q);
            CostAt(R.col, j) == 0.0 && CostAt(P.col - {q}, j) == 0.0 && At(R.a, p, j) == 0.0
  {
    AtDropCol(P.a, q, p, j);
  }

  lemma SlackObj(P: LP, p: int, q: int, x: seq<real>)
    requires WellFormed(P) && p in P.row && q in P.col && P.row[p].Fixed() && (p, q) in P.a && P.a[(p, q)] != 0.0
    ensures var R, apq, c := SlackProblem(P, p, q), P.a[(p, q)], P.col[q].c;
            Obj(R, x) == P.c0 + c * (P.row[p].lb.v / apq) + Sum(CostF(P.col - {q}, x), P.n) - (c / apq) * RowAct(R, p, x)
  {
    hide WellFormed, CostF, RowF, Sum;
    var R, apq, c := SlackProblem(P, p, q), P.a[(p, q)], P.col[q].c;
    var f, g, h := CostF(R.col, x), CostF(P.col - {q}, x), RowF(R.a, p, x);
    forall j | 0 <= j < P.n ensures f(j) == g(j) + (-(c / apq)) * h(j) {
      SlackCostF(P, p, q, x, j);
    }
    SumLinear(f, g, h, -(c / apq), P.n);
  }

  lemma SlackValue(c: real, apq: real, rhs: real, y: real, v: real)
    requires apq != 0.0 && apq * v == rhs - y
    ensures c * (rhs / apq) - (c / apq) * y == c * v
  {
    var t, u := rhs / apq, c / apq;
    DivMul(rhs, apq);
    DivMul(c, apq);
    assert c * t == u * (apq * t);
    assert c * v == u * (apq * v);
  }

  /** x of the reduced problem and x with x[q] = v of the original are feasible together and cost the same. */
  lemma SlackPoints(P: LP, p: int, q: int, x: seq<real>, v: real)
    requires WellFormed(P) && p in P.row && q in P.col && P.row[p].Fixed() && SingleInCol(P, p, q)
    requires (p, q) in P.a && P.a[(p, q)] != 0.0 && 0 <= q < P.n == |x|
    requires P.a[(p, q)] * v == P.row[p].lb.v - RowAct(SlackProblem(P, p, q), p, x)
    ensures Feasible(SlackProblem(P, p, q), x) <==> Feasible(P, x[q := v])
    ensures Obj(SlackProblem(P, p, q), x) == Obj(P, x[q := v])
  {
    SlackPointsFeasible(P, p, q, x, v);
    SlackPointsObj(P, p, q, x, v);
  }

  lemma SlackPointsObj(P: LP, p: int, q: int, x: seq<real>, v: real)
    requires WellFormed(P) && p in P.row && q in P.col && P.row[p].Fixed()
    requires (p, q) in P.a && P.a[(p, q)] != 0.0 && 0 <= q < P.n == |x|
    requires P.a[(p, q)] * v == P.row[p].lb.v - RowAct(SlackProblem(P, p, q), p, x)
    ensures Obj(SlackProblem(P, p, q), x) == Obj(P, x[q := v])
  {
    hide WellFormed, SlackProblem, CostF, Sum, RowAct;
    SlackObj(P, p, q, x);
    CostRestore(P, q, x, v);
    SlackValue(P.col[q].c, P.a[(p, q)], P.row[p].lb.v, RowAct(SlackProblem(P, p, q), p, x), v);
  }

  lemma SlackPointRow(P: LP, p: int, q: int, x: seq<real>, v: real, i: int)
    requires p in P.row && q in P.col && P.row[p].Fixed() && SingleInCol(P, p, q) && i in P.row
    requires (p, q) in P.a && P.a[(p, q)] != 0.0 && 0 <= q < P.n == |x|
    requires P.a[(p, q)] * v == P.row[p].lb.v - RowAct(SlackProblem(P, p, q), p, x)
    ensures i == p ==> P.row[i].Holds(RowAct(P, i, x[q := v]))
    ensures i != p ==> SlackProblem(P, p, q).row[i] == P.row[i] &&
                       RowAct(SlackProblem(P, p, q), i, x) == RowAct(P, i, x[q := v])
  {
    hide RowAct;
    var R := SlackProblem(P, p, q);
    RowActSameMatrix(R, RemoveCol(P, q), i, x);
    RowActRestore(P, q, x, v, i);
    if i != p {
      assert At(P.a, i, q) == 0.0;
    }
  }

  lemma SlackPointsFeasible(P: LP, p: int, q: int, x: seq<real>, v: real)
    requires WellFormed(P) && p in P.row && q in P.col && P.row[p].Fixed() && SingleInCol(P, p, q)
    requires (p, q) in P.a && P.a[(p, q)] != 0.0 && 0 <= q < P.n == |x|
    requires P.a[(p, q)] * v == P.row[p].lb.v - RowAct(SlackProblem(P, p, q), p, x)
    ensures Feasible(SlackProblem(P, p, q), x) <==> Feasible(P, x[q := v])
  {
    hide RowAct, WellFormed, SingleInCol, SlackRange;
    var R, z := SlackProblem(P, p, q), x[q := v];
    SlackHolds(P.col[q].rng, P.row[p].lb.v, P.a[(p, q)], RowAct(R, p, x), v);
    assert R.row[p].Holds(RowAct(R, p, x)) <==> P.col[q].rng.Holds(v);
    forall i | i in P.row && i != p ensures R.row[i].Holds(RowAct(R, i, x)) <==> P.row[i].Holds(RowAct(P, i, z)) {
      SlackPointRow(P, p, q, x, v, i);
    }
    SlackPointRow(P, p, q, x, v, p);
    forall j ensures j != q ==> Val(z, j) == Val(x, j) {
    }
    assert R.row.Keys == P.row.Keys;
    forall j | j in R.col ensures R.col[j].rng == P.col[j].rng {
    }
  }

  /** The slack is what the other columns leave of the right-hand side. */
  lemma SlackOfPoint(P: LP, p: int, q: int, x: seq<real>)
    requires p in P.row && q in P.col && P.row[p].Fixed() && (p, q) in P.a && P.a[(p, q)] != 0.0 && 0 <= q < P.n
    requires Feasible(P, x)
    ensures P.a[(p, q)] * x[q] == P.row[p].lb.v - RowAct(SlackProblem(P, p, q), p, x)
  {
    hide RowAct;
    var R := SlackProblem(P, p, q);
    RowActRestore(P, q, x, x[q], p);
    assert x[q := x[q]] == x;
    RowActSameMatrix(R, RemoveCol(P, q), p, x);
    assert At(P.a, p, q) == P.a[(p, q)];
    assert P.row[p].Holds(RowAct(P, p, x));
  }

  lemma SlackEquiv(P: LP, p: int, q: int)
    requires WellFormed(P) && p in P.row && q in P.col && P.row[p].Fixed() && SingleInCol(P, p, q)
    requires (p, q) in P.a && P.a[(p, q)] != 0.0 && 0 <= q < P.n
    ensures Equivalent(P, SlackProblem(P, p, q))
  {
    hide WellFormed, SingleInCol, Obj, RowAct, SlackRange;
    var R := SlackProblem(P, p, q);
    var apq, rhs := P.a[(p, q)], P.row[p].lb.v;
    forall x | Feasible(R, x) ensures exists z :: Feasible(P, z) && Obj(P, z) <= Obj(R, x) {
      var v := (rhs - RowAct(R, p, x)) / apq;
      DivMul(rhs - RowAct(R, p, x), apq);
      SlackPoints(P, p, q, x, v);
    }
    forall x | Feasible(P, x) ensures exists z :: Feasible(R, z) && Obj(R, z) <= Obj(P, x) {
      SlackOfPoint(P, p, q, x);
      assert x[q := x[q]] == x;
      SlackPoints(P, p, q, x, x[q]);
      assert Feasible(R, x) && Obj(R, x) <= Obj(P, x);
    }
  }

  // ----- implied free columns

  lemma RowActSetCol(P: LP, q: int, x: seq<real>, w: real, i: int)
    requires 0 <= q < P.n == |x|
    ensures RowAct(P, i, x[q := w]) == RowAct(P, i, x) + At(P.a, i, q) * w - At(P.a, i, q) * x[q]
  {
    hide RowAct, At;
    RowActRestore(P, q, x, w, i);
    RowActRestore(P, q, x, x[q], i);
    assert x[q := x[q]] == x;
  }

  lemma ObjSetCol(P: LP, q: int, x: seq<real>, w: real)
    requires q in P.col && 0 <= q < P.n == |x|
    ensures Obj(P, x[q := w]) == Obj(P, x) + P.col[q].c * w - P.col[q].c * x[q]
  {
    hide CostF, Sum;
    CostRestore(P, q, x, w);
    CostRestore(P, q, x, x[q]);
    assert x[q := x[q]] == x;
  }

  /** Moving x[q] so that row p changes by d moves nothing else and costs (c[q] / a[p,q]) * d. */
  lemma MoveRow(P: LP, p: int, q: int, x: seq<real>, d: real)
    requires p in P.row && q in P.col && SingleInCol(P, p, q) && (p, q) in P.a && P.a[(p, q)] != 0.0
    requires 0 <= q < P.n == |x|
    ensures var z := x[q := x[q] + d / P.a[(p, q)]];
            && RowAct(P, p, z) == RowAct(P, p, x) + d
            && (forall i :: i != p ==> RowAct(P, i, z) == RowAct(P, i, x))
            && Obj(P, z) == Obj(P, x) + (P.col[q].c / P.a[(p, q)]) * d
  {
    hide RowAct, Obj;
    var apq, c := P.a[(p, q)], P.col[q].c;
    var w := x[q] + d / apq;
    DivMul(d, apq);
    RowActSetCol(P, q, x, w, p);
    assert apq * w == apq * x[q] + d;
    forall i | i != p ensures RowAct(P, i, x[q := w]) == RowAct(P, i, x) {
      RowActSetCol(P, q, x, w, i);
      assert At(P.a, i, q) == 0.0;
    }
    ObjSetCol(P, q, x, w);
    MoveCost(c, apq, x[q], d);
  }

  lemma MoveCost(c: real, apq: real, x: real, d: real)
    requires apq != 0.0
    ensures c * (x + d / apq) - c * x == (c / apq) * d
  {
    var t, u := d / apq, c / apq;
    DivMul(d, apq);
    DivMul(c, apq);
    assert c * t == u * (apq * t);
  }

  lemma FreedForward(P: LP, p: int, q: int, v: real, st: Stat, x: seq<real>)
    requires p in P.row && q in P.col && SingleInCol(P, p, q) && (p, q) in P.a && P.a[(p, q)] != 0.0 && 0 <= q < P.n
    requires ActiveSide(P.row[p], st, v, P.col[q].c / P.a[(p, q)]) && Feasible(P, x)
    ensures var z := x[q := x[q] + (v - RowAct(P, p, x)) / P.a[(p, q)]];
            Feasible(FreedProblem(P, p, q, v), z) && Obj(FreedProblem(P, p, q, v), z) <= Obj(P, x)
  {
    hide RowAct, SingleInCol, CostAt;
    var F := FreedProblem(P, p, q, v);
    var y, pi := RowAct(P, p, x), P.col[q].c / P.a[(p, q)];
    var z := x[q := x[q] + (v - y) / P.a[(p, q)]];
    MoveRow(P, p, q, x, v - y);
    forall i | i in F.row ensures F.row[i].Holds(RowAct(F, i, z)) {
      RowActSameMatrix(F, P, i, z);
    }
    forall j | j in F.col ensures F.col[j].rng.Holds(Val(z, j)) {
      assert j != q ==> Val(z, j) == Val(x, j);
    }
    FreedObj(P, p, q, v, z);
    MulSign(pi, 0.0, v - y);
    MulSign(pi, v - y, 0.0);
  }

  lemma FreedObj(P: LP, p: int, q: int, v: real, z: seq<real>)
    requires q in P.col
    ensures Obj(FreedProblem(P, p, q, v), z) == Obj(P, z)
  {
    ObjSameCosts(FreedProblem(P, p, q, v), P, z);
  }

  lemma FreedBackward(P: LP, p: int, q: int, v: real, x: seq<real>)
    requires ImpliedFree(P, p, q) && P.row[p].Holds(v) && Feasible(FreedProblem(P, p, q, v), x)
    ensures Feasible(P, x) && Obj(P, x) <= Obj(FreedProblem(P, p, q, v), x)
  {
    hide RowAct, Obj;
    var F := FreedProblem(P, p, q, v);
    FreedObj(P, p, q, v, x);
    forall i | i in P.row ensures P.row[i].Holds(RowAct(P, i, x)) {
      RowActSameMatrix(F, P, i, x);
      assert F.row[i].Holds(RowAct(F, i, x));
    }
    forall j | j in P.col && j != q ensures P.col[j].rng.Holds(Val(x, j)) {
      assert F.col[j] == P.col[j];
    }
    assert OthersHold(P, q, x);
  }

  lemma FreedEquiv(P: LP, p: int, q: int, v: real, st: Stat)
    requires p in P.row && q in P.col && SingleInCol(P, p, q) && (p, q) in P.a && P.a[(p, q)] != 0.0 && 0 <= q < P.n
    requires ImpliedFree(P, p, q) && P.row[p].Ordered() && ActiveSide(P.row[p], st, v, P.col[q].c / P.a[(p, q)])
    ensures Equivalent(P, FreedProblem(P, p, q, v))
  {
    hide Feasible, Obj, SingleInCol, ImpliedFree, RowAct, FreedProblem;
    var F := FreedProblem(P, p, q, v);
    forall x | Feasible(P, x) ensures exists z :: Feasible(F, z) && Obj(F, z) <= Obj(P, x) {
      FeasibleLength(P, x);
      FreedForward(P, p, q, v, st, x);
    }
    forall x | Feasible(F, x) ensures exists z :: Feasible(P, z) && Obj(P, z) <= Obj(F, x) {
      FreedBackward(P, p, q, v, x);
    }
  }

  lemma FeasibleLength(P: LP, x: seq<real>)
    requires Feasible(P, x)
    ensures |x| == P.n
  {
  }

  // ----- row analysis

  ghost predicate InBox(P: LP, x: seq<real>) {
    forall j :: j in P.col ==> P.col[j].rng.Holds(Val(x, j))
  }

  lemma BoxScalar(r: Range, val: real, at: int, x: real)
    requires val != 0.0 && ForcedBound(r, val, at).Fin? && r.Holds(x)
    ensures at == 0 ==> val * x <= val * ForcedVal(r, val, at)
    ensures at == 1 ==> val * x >= val * ForcedVal(r, val, at)
    ensures val * x == val * ForcedVal(r, val, at) ==> x == ForcedVal(r, val, at)
  {
    var b := ForcedVal(r, val, at);
    MulSign(val, b, x);
    MulSign(val, x, b);
  }

  lemma BoxTerm(P: LP, p: int, at: int, x: seq<real>, j: int)
    requires WellFormed(P) && ForcedFin(P, p, at) && InBox(P, x)
    ensures at == 0 ==> RowF(P.a, p, x)(j) <= ForcedF(P, p, at)(j)
    ensures at == 1 ==> RowF(P.a, p, x)(j) >= ForcedF(P, p, at)(j)
    ensures RowF(P.a, p, x)(j) == ForcedF(P, p, at)(j) && (p, j) in P.a ==>
              j in P.col && Val(x, j) == ForcedVal(P.col[j].rng, P.a[(p, j)], at)
  {
    hide WellFormed, ForcedFin, InBox, ForcedVal, ForcedBound;
    if (p, j) in P.a {
      BoxFacts(P, p, at, x, j);
      BoxScalar(P.col[j].rng, P.a[(p, j)], at, Val(x, j));
    }
  }

  lemma BoxFacts(P: LP, p: int, at: int, x: seq<real>, j: int)
    requires WellFormed(P) && ForcedFin(P, p, at) && InBox(P, x) && (p, j) in P.a
    ensures j in P.col && P.a[(p, j)] != 0.0 && P.col[j].rng.Holds(Val(x, j))
    ensures ForcedBound(P.col[j].rng, P.a[(p, j)], at).Fin?
  {
    assert (p, j).0 == p;
  }

  /** Row values over the box of columns stay on one side of the implied bound. */
  lemma BoxRow(P: LP, p: int, at: int, x: seq<real>)
    requires WellFormed(P) && ForcedFin(P, p, at) && InBox(P, x)
    ensures at == 0 ==> RowAct(P, p, x) <= ForcedSum(P, p, at)
    ensures at == 1 ==> RowAct(P, p, x) >= ForcedSum(P, p, at)
  {
    hide WellFormed, ForcedFin, InBox, RowF, ForcedF;
    var f, g := RowF(P.a, p, x), ForcedF(P, p, at);
    forall j ensures (at == 0 ==> f(j) <= g(j)) && (at == 1 ==> f(j) >= g(j)) {
      BoxTerm(P, p, at, x, j);
    }
    if at == 0 {
      SumLe(f, g, P.n);
    } else if at == 1 {
      SumLe(g, f, P.n);
    }
  }

  /** A row value equal to the implied bound puts every column of the row at its forced bound. */
  lemma BoxTight(P: LP, p: int, at: int, x: seq<real>, j: int)
    requires WellFormed(P) && ForcedFin(P, p, at) && InBox(P, x) && (at == 0 || at == 1)
    requires RowAct(P, p, x) == ForcedSum(P, p, at) && (p, j) in P.a && 0 <= j < P.n && j in P.col
    ensures Val(x, j) == ForcedVal(P.col[j].rng, P.a[(p, j)], at)
  {
    hide WellFormed, ForcedFin, InBox, RowF, ForcedF;
    var f, g := RowF(P.a, p, x), ForcedF(P, p, at);
    forall k ensures (at == 0 ==> f(k) <= g(k)) && (at == 1 ==> f(k) >= g(k)) {
      BoxTerm(P, p, at, x, k);
    }
    if at == 0 {
      SumTight(f, g, P.n);
    } else {
      SumTight(g, f, P.n);
    }
    BoxTerm(P, p, at, x, j);
  }

  lemma ForcedPointForward(P: LP, p: int, at: int, x: seq<real>)
    requires WellFormed(P) && Forces(P, p, at) && Feasible(P, x)
    ensures Feasible(ForceProblem(P, p, at), x)
  {
    hide RowAct, ForcedSum, ForcedVal;
    var R := ForceProblem(P, p, at);
    forall i | i in R.row ensures R.row[i].Holds(RowAct(R, i, x)) {
      RowActSameMatrix(R, RemoveRow(P, p), i, x);
      RowActDrop(P, p, i, x);
    }
    BoxRow(P, p, at, x);
    forall j | j in R.col ensures R.col[j].rng.Holds(Val(x, j)) {
      assert R.col[j] == ForceCol(P, p, at, j);
      if (p, j) in P.a {
        BoxTight(P, p, at, x, j);
      }
    }
  }

  lemma ForcedInRange(P: LP, p: int, at: int, j: int)
    requires WellFormed(P) && ForcedFin(P, p, at) && (p, j) in P.a && j in P.col
    ensures P.col[j].rng.Holds(ForcedVal(P.col[j].rng, P.a[(p, j)], at))
  {
  }

  lemma ForcedPointBackward(P: LP, p: int, at: int, x: seq<real>)
    requires WellFormed(P) && Forces(P, p, at) && Feasible(ForceProblem(P, p, at), x)
    ensures Feasible(P, x)
  {
    hide RowAct, ForcedVal, ForcedFin;
    var R := ForceProblem(P, p, at);
    forall j | j in P.col ensures P.col[j].rng.Holds(Val(x, j)) && ((p, j) in P.a ==> Val(x, j) == ForcedVal(P.col[j].rng, P.a[(p, j)], at)) {
      assert R.col[j] == ForceCol(P, p, at, j);
      if (p, j) in P.a {
        ForcedInRange(P, p, at, j);
      }
    }
    assert RowAct(P, p, x) == ForcedSum(P, p, at) by {
      forall j | 0 <= j < P.n ensures RowF(P.a, p, x)(j) == ForcedF(P, p, at)(j) {
      }
      SumCong(RowF(P.a, p, x), ForcedF(P, p, at), P.n);
      assert RowAct(P, p, x) == Sum(RowF(P.a, p, x), P.n) by { RowActIsSum(P, p, x); }
    }
    forall i | i in P.row && i != p ensures P.row[i].Holds(RowAct(P, i, x)) {
      RowActSameMatrix(R, RemoveRow(P, p), i, x);
      RowActDrop(P, p, i, x);
      assert i in R.row;
    }
  }

  lemma RowActIsSum(P: LP, p: int, x: seq<real>)
    ensures RowAct(P, p, x) == Sum(RowF(P.a, p, x), P.n)
  {
  }

  lemma ForceEquiv(P: LP, p: int, at: int)
    requires WellFormed(P) && Forces(P, p, at)
    ensures Equivalent(P, ForceProblem(P, p, at))
  {
    hide WellFormed, Forces, Feasible, Obj;
    var R := ForceProblem(P, p, at);
    forall x
      ensures (Feasible(P, x) <==> Feasible(R, x)) && (Feasible(P, x) ==> Obj(P, x) == Obj(R, x))
    {
      if Feasible(P, x) {
        ForcedPointForward(P, p, at, x);
      }
      if Feasible(R, x) {
        ForcedPointBackward(P, p, at, x);
      }
      ForceObj(P, p, at, x);
    }
    SamePointsEquivalent(P, R);
  }

  lemma ForceObj(P: LP, p: int, at: int, x: seq<real>)
    ensures Obj(ForceProblem(P, p, at), x) == Obj(P, x)
  {
    var R := ForceProblem(P, p, at);
    forall j ensures CostAt(P.col, j) == CostAt(R.col, j) {
      if j in P.col {
        assert R.col[j] == ForceCol(P, p, at, j);
      }
    }
    ObjSameCosts(P, R, x);
  }

  /** r drops bounds of row p that the row cannot reach on the box of its columns. */
  predicate StripOk(P: LP, p: int, r: Range) {
    && p in P.row
    && (r.lb == P.row[p].lb ||
        (r.lb == Inf && P.row[p].lb.Fin? && ForcedFin(P, p, 1) && ForcedSum(P, p, 1) >= P.row[p].lb.v))
    && (r.ub == P.row[p].ub ||
        (r.ub == Inf && P.row[p].ub.Fin? && ForcedFin(P, p, 0) && ForcedSum(P, p, 0) <= P.row[p].ub.v))
  }

  lemma StripHolds(P: LP, p: int, r: Range, x: seq<real>)
    requires WellFormed(P) && StripOk(P, p, r) && InBox(P, x) && r.Holds(RowAct(P, p, x))
    ensures P.row[p].Holds(RowAct(P, p, x))
  {
    hide WellFormed, InBox, RowAct, ForcedSum, ForcedFin;
    if r.lb != P.row[p].lb {
      BoxRow(P, p, 1, x);
    }
    if r.ub != P.row[p].ub {
      BoxRow(P, p, 0, x);
    }
  }

  lemma StripEquiv(P: LP, p: int, r: Range)
    requires WellFormed(P) && StripOk(P, p, r)
    ensures Equivalent(P, SetRowRange(P, p, r))
  {
    hide WellFormed, RowAct, ForcedSum, ForcedFin, CostAt;
    var R := SetRowRange(P, p, r);
    forall x
      ensures (Feasible(P, x) <==> Feasible(R, x)) && (Feasible(P, x) ==> Obj(P, x) == Obj(R, x))
    {
      forall i ensures RowAct(R, i, x) == RowAct(P, i, x) {
        RowActSameMatrix(P, R, i, x);
      }
      if Feasible(R, x) {
        assert InBox(P, x);
        assert R.row[p].Holds(RowAct(R, p, x));
        StripHolds(P, p, r, x);
        assert forall i :: i in P.row && i != p ==> R.row[i] == P.row[i] && i in R.row;
      }
    }
    SamePointsEquivalent(P, R);
  }

  lemma StripKkt(P: LP, p: int, r: Range, S: Sol)
    requires WellFormed(P) && StripOk(P, p, r) && !P.row[p].Fixed()
    requires BasicOptimal(SetRowRange(P, p, r), S)
    ensures BasicOptimal(P, S)
  {
    hide ForcedSum, ForcedFin, RowAct, ColAct, CountBS, WellFormed;
    var R := SetRowRange(P, p, r);
    forall j | j in P.col ensures P.col[j].rng.Holds(Val(S.cp, j)) {
      assert ColOk(R, S, j);
    }
    assert RowOk(R, S, p);
    RowActSameMatrix(P, R, p, S.cp);
    StripHolds(P, p, r, S.cp);
    RangeOrdered(P, p);
    StripStep(P, p, r, S);
  }

  lemma RangeOrdered(P: LP, p: int)
    requires WellFormed(P) && p in P.row
    ensures P.row[p].Ordered()
  {
  }

  // ----- return code 1: primal infeasible

  lemma EmptyRowInfeasible(P: LP, p: int)
    requires p in P.row && EmptyRowAt(P, p) && !P.row[p].Holds(0.0)
    ensures Infeasible(P)
  {
    forall x ensures !Feasible(P, x) {
      RowActEmpty(P, p, x);
    }
  }

  lemma SngtonInfeasible(P: LP, p: int, q: int)
    requires WellFormed(P) && p in P.row && SingleInRow(P, p, q) && q in P.col && (p, q) in P.a
    requires forall v :: !(P.col[q].rng.Holds(v) && P.row[p].Holds(P.a[(p, q)] * v))
    ensures Infeasible(P)
  {
    hide RowAct;
    forall x ensures !Feasible(P, x) {
      RowActSingle(P, p, q, x);
      assert !(P.col[q].rng.Holds(Val(x, q)) && P.row[p].Holds(P.a[(p, q)] * Val(x, q)));
    }
  }

  lemma RowInfeasible(P: LP, p: int, at: int)
    requires WellFormed(P) && p in P.row && ForcedFin(P, p, at) && (at == 0 || at == 1)
    requires RowBound(P.row[p], at).Fin?
    requires at == 0 ==> ForcedSum(P, p, at) < P.row[p].lb.v
    requires at == 1 ==> ForcedSum(P, p, at) > P.row[p].ub.v
    ensures Infeasible(P)
  {
    hide WellFormed, ForcedFin, RowAct, ForcedSum;
    forall x ensures !Feasible(P, x) {
      if Feasible(P, x) {
        BoxRow(P, p, at, x);
      }
    }
  }

  // ----- return code 2: no optimal solution

  lemma EmptyColUnbounded(P: LP, q: int)
    requires q in P.col && 0 <= q < P.n && EmptyColAt(P, q)
    requires (P.col[q].c > 0.0 && P.col[q].rng.lb.Inf?) || (P.col[q].c < 0.0 && P.col[q].rng.ub.Inf?)
    ensures NoOptimum(P)
  {
    hide RowAct, Obj, EmptyColAt;
    forall x ensures !Optimal(P, x) {
      if Feasible(P, x) {
        var w := if P.col[q].c > 0.0 then x[q] - 1.0 else x[q] + 1.0;
        var z := x[q := w];
        forall i | i in P.row ensures P.row[i].Holds(RowAct(P, i, z)) {
          EmptyColIgnored(P, q, x, w, i);
        }
        forall j | j in P.col ensures P.col[j].rng.Holds(Val(z, j)) {
          assert P.col[q].rng.Holds(Val(x, q));
          assert j != q ==> Val(z, j) == Val(x, j);
        }
        ObjSetCol(P, q, x, w);
        assert Feasible(P, z) && Obj(P, z) < Obj(P, x);
      }
    }
  }

  lemma FreedStep(P: LP, p: int, q: int, x: seq<real>, d: real)
    requires p in P.row && q in P.col && SingleInCol(P, p, q) && (p, q) in P.a && P.a[(p, q)] != 0.0 && 0 <= q < P.n
    requires ImpliedFree(P, p, q) && Feasible(P, x) && P.row[p].Holds(RowAct(P, p, x) + d)
    requires (P.col[q].c / P.a[(p, q)]) * d < 0.0
    ensures !Optimal(P, x)
  {
    hide RowAct, Obj, SingleInCol;
    var z := x[q := x[q] + d / P.a[(p, q)]];
    MoveRow(P, p, q, x, d);
    forall j | j in P.col && j != q ensures P.col[j].rng.Holds(Val(z, j)) {
      assert Val(z, j) == Val(x, j);
    }
    assert OthersHold(P, q, z);
    assert Feasible(P, z) && Obj(P, z) < Obj(P, x);
  }

  lemma FreedUnbounded(P: LP, p: int, q: int)
    requires p in P.row && q in P.col && SingleInCol(P, p, q) && (p, q) in P.a && P.a[(p, q)] != 0.0 && 0 <= q < P.n
    requires ImpliedFree(P, p, q)
    requires var pi := P.col[q].c / P.a[(p, q)];
             (pi > 0.0 && P.row[p].lb.Inf?) || (pi < 0.0 && P.row[p].ub.Inf?)
    ensures NoOptimum(P)
  {
    hide Obj, RowAct, ImpliedFree, SingleInCol;
    forall x ensures !Optimal(P, x) {
      if Feasible(P, x) {
        FreedStep(P, p, q, x, if P.col[q].c / P.a[(p, q)] > 0.0 then -1.0 else 1.0);
      }
    }
  }
}
