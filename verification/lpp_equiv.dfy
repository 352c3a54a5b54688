/** Each reduction keeps the optimal value: feasible points of either problem are matched, at no greater cost,
    by feasible points of the other. */
module LpEquiv {
  import opened Sums
  import opened LpModel
  import opened LpRecover
  import opened LpReduce
  import opened LpKktRows
  import opened LpKktCols
  import opened LpKktForce

  /** Every feasible point of P is matched by one of R that costs no more. */
  ghost predicate Simulates(P: LP, R: LP) {
    forall x :: Feasible(P, x) ==> exists z :: Feasible(R, z) && Obj(R, z) <= Obj(P, x)
  }

  ghost predicate Equivalent(P: LP, R: LP) {
    Simulates(P, R) && Simulates(R, P)
  }

  ghost predicate Infeasible(P: LP) {
    forall x :: !Feasible(P, x)
  }

  ghost predicate NoOptimum(P: LP) {
    forall x :: !Optimal(P, x)
  }

  lemma SimulatesTrans(P: LP, Q: LP, R: LP)
    requires Simulates(P, Q) && Simulates(Q, R)
    ensures Simulates(P, R)
  {
    hide Feasible, Obj;
    forall x | Feasible(P, x) ensures exists z :: Feasible(R, z) && Obj(R, z) <= Obj(P, x) {
      var y :| Feasible(Q, y) && Obj(Q, y) <= Obj(P, x);
      var z :| Feasible(R, z) && Obj(R, z) <= Obj(Q, y);
    }
  }

  lemma SimulatesRefl(P: LP)
    ensures Simulates(P, P)
  {
  }

  lemma TransferOptimum(P: LP, R: LP, x: seq<real>)
    requires Equivalent(P, R) && Optimal(P, x)
    ensures exists z :: Optimal(R, z)
  {
    hide Feasible, Obj;
    var z :| Feasible(R, z) && Obj(R, z) <= Obj(P, x);
    forall z' | Feasible(R, z') ensures Obj(R, z) <= Obj(R, z') {
      var x' :| Feasible(P, x') && Obj(P, x') <= Obj(R, z');
    }
    assert Optimal(R, z);
  }

  lemma SameOptimum(P: LP, R: LP, x: seq<real>, z: seq<real>)
    requires Equivalent(P, R) && Optimal(P, x) && Optimal(R, z)
    ensures Obj(P, x) == Obj(R, z)
  {
    hide Feasible, Obj;
    var z' :| Feasible(R, z') && Obj(R, z') <= Obj(P, x);
    var x' :| Feasible(P, x') && Obj(P, x') <= Obj(R, z);
  }

  lemma TransferNoOptimum(P: LP, R: LP)
    requires Equivalent(P, R) && NoOptimum(R)
    ensures NoOptimum(P)
  {
    hide Equivalent, Optimal;
    forall x | Optimal(P, x) ensures false {
      TransferOptimum(P, R, x);
    }
  }

  /** Equivalent problems are infeasible together, have optima together, and then the same optimal value. */
  lemma EquivalentOptima(P: LP, R: LP)
    requires Equivalent(P, R)
    ensures Infeasible(P) <==> Infeasible(R)
    ensures NoOptimum(P) <==> NoOptimum(R)
    ensures forall x, z :: Optimal(P, x) && Optimal(R, z) ==> Obj(P, x) == Obj(R, z)
  {
    hide Feasible, Obj, Optimal, NoOptimum;
    if NoOptimum(R) {
      TransferNoOptimum(P, R);
    }
    if NoOptimum(P) {
      TransferNoOptimum(R, P);
    }
    forall x, z | Optimal(P, x) && Optimal(R, z) ensures Obj(P, x) == Obj(R, z) {
      SameOptimum(P, R, x, z);
    }
  }

  // ----- reductions that keep the set of feasible points

  ghost predicate SamePoints(P: LP, R: LP) {
    forall x :: (Feasible(P, x) <==> Feasible(R, x)) && (Feasible(P, x) ==> Obj(P, x) == Obj(R, x))
  }

  lemma SamePointsEquivalent(P: LP, R: LP)
    requires SamePoints(P, R)
    ensures Equivalent(P, R)
  {
    hide Feasible, Obj;
  }

  lemma ObjSameCosts(P: LP, R: LP, x: seq<real>)
    requires P.n == R.n && P.c0 == R.c0
    requires forall j :: CostAt(P.col, j) == CostAt(R.col, j)
    ensures Obj(P, x) == Obj(R, x)
  {
    SumCong(CostF(P.col, x), CostF(R.col, x), P.n);
  }

  /** Removing a row that every point of the reduced problem satisfies. */
  lemma RedundantRow(P: LP, p: int)
    requires p in P.row
    requires forall x :: Feasible(RemoveRow(P, p), x) ==> P.row[p].Holds(RowAct(P, p, x))
    ensures Equivalent(P, RemoveRow(P, p))
  {
    hide RowAct, CostAt;
    var R := RemoveRow(P, p);
    forall x
      ensures (Feasible(P, x) <==> Feasible(R, x)) && (Feasible(P, x) ==> Obj(P, x) == Obj(R, x))
    {
      forall i | i in R.row ensures RowAct(R, i, x) == RowAct(P, i, x) {
        RowActDrop(P, p, i, x);
      }
    }
    SamePointsEquivalent(P, R);
  }

  lemma EmptyRowEquiv(P: LP, p: int)
    requires p in P.row && EmptyRowAt(P, p) && P.row[p].Holds(0.0)
    ensures Equivalent(P, RemoveRow(P, p))
  {
    forall x | Feasible(RemoveRow(P, p), x) ensures P.row[p].Holds(RowAct(P, p, x)) {
      RowActEmpty(P, p, x);
    }
    RedundantRow(P, p);
  }

  lemma FreeRowEquiv(P: LP, p: int)
    requires p in P.row && P.row[p].Free()
    ensures Equivalent(P, RemoveRow(P, p))
  {
    RedundantRow(P, p);
  }

  /** The range r says what `own` says of a column and row range `row` says of its multiple by apq. */
  ghost predicate Joins(r: Range, own: Range, row: Range, apq: real) {
    forall v :: r.Holds(v) <==> own.Holds(v) && row.Holds(apq * v)
  }

  /** A row with one coefficient is exactly a pair of bounds on its column. */
  lemma SngtonEquiv(P: LP, p: int, q: int, r: Range)
    requires WellFormed(P) && p in P.row && SingleInRow(P, p, q) && q in P.col && (p, q) in P.a
    requires Joins(r, P.col[q].rng, P.row[p], P.a[(p, q)])
    ensures Equivalent(P, SngtonProblem(P, p, q, r))
  {
    hide RowAct, CostAt, SingleInRow;
    var R := SngtonProblem(P, p, q, r);
    forall x
      ensures (Feasible(P, x) <==> Feasible(R, x)) && (Feasible(P, x) ==> Obj(P, x) == Obj(R, x))
    {
      SngtonPoints(P, p, q, r, x);
    }
    SamePointsEquivalent(P, R);
  }

  lemma SngtonPoints(P: LP, p: int, q: int, r: Range, x: seq<real>)
    requires WellFormed(P) && p in P.row && SingleInRow(P, p, q) && q in P.col && (p, q) in P.a
    requires forall v :: r.Holds(v) <==> P.col[q].rng.Holds(v) && P.row[p].Holds(P.a[(p, q)] * v)
    ensures var R := SngtonProblem(P, p, q, r);
            (Feasible(P, x) <==> Feasible(R, x)) && Obj(P, x) == Obj(R, x)
  {
    hide RowAct, WellFormed, SingleInRow;
    var R := SngtonProblem(P, p, q, r);
    ObjSameCosts(P, R, x);
    RowActSingle(P, p, q, x);
    assert r.Holds(Val(x, q)) <==> P.col[q].rng.Holds(Val(x, q)) && P.row[p].Holds(P.a[(p, q)] * Val(x, q));
    forall i | i in R.row ensures RowAct(R, i, x) == RowAct(P, i, x) {
      RowActSameMatrix(R, RemoveRow(P, p), i, x);
      RowActDrop(P, p, i, x);
    }
  }

  // ----- removing a column at a known value

  lemma CostFRestore(col: map<int, Column>, q: int, x: seq<real>, v: real, j: int)
    requires 0 <= q < |x| && j != q
    ensures CostF(col, x[q := v])(j) == CostF(col - {q}, x)(j)
  {
    assert Val(x[q := v], j) == Val(x, j);
  }

  lemma CostRestore(P: LP, q: int, x: seq<real>, v: real)
    requires q in P.col && 0 <= q < P.n && |x| == P.n
    ensures Sum(CostF(P.col, x[q := v]), P.n) == Sum(CostF(P.col - {q}, x), P.n) + P.col[q].c * v
  {
    var f, g := CostF(P.col, x[q := v]), CostF(P.col - {q}, x);
    forall j | 0 <= j < P.n && j != q ensures f(j) == g(j) {
      CostFRestore(P.col, q, x, v, j);
    }
    SumOne(f, g, P.n, q);
  }

  lemma ShiftedHolds(P: LP, q: int, v: real, i: int, y: real)
    requires i in P.row
    ensures ShiftedRow(P, q, v, i).Holds(y) <==> P.row[i].Holds(y + At(P.a, i, q) * v)
  {
  }

  /** Row i of the reduced problem at x is row i of the original with x[q] = v. */
  lemma SubstRow(P: LP, q: int, v: real, x: seq<real>, i: int)
    requires q in P.col && 0 <= q < P.n == |x| && i in P.row
    ensures var R := SubstCol(P, q, v);
            i in R.row && (R.row[i].Holds(RowAct(R, i, x)) <==> P.row[i].Holds(RowAct(P, i, x[q := v])))
  {
    hide RowAct, At, ShiftedRow;
    var R := SubstCol(P, q, v);
    RowActRestore(P, q, x, v, i);
    RowActSameMatrix(R, RemoveCol(P, q), i, x);
    assert R.row[i] == ShiftedRow(P, q, v, i);
    ShiftedHolds(P, q, v, i, RowAct(R, i, x));
  }

  lemma SubstBackward(P: LP, q: int, v: real, x: seq<real>)
    requires q in P.col && 0 <= q < P.n && P.col[q].rng.Holds(v)
    requires Feasible(SubstCol(P, q, v), x)
    ensures Feasible(P, x[q := v]) && Obj(P, x[q := v]) == Obj(SubstCol(P, q, v), x)
  {
    hide RowAct, At, ShiftedRow, CostF;
    var R, z := SubstCol(P, q, v), x[q := v];
    forall i | i in P.row ensures P.row[i].Holds(RowAct(P, i, z)) {
      SubstRow(P, q, v, x, i);
    }
    forall j | j in P.col ensures P.col[j].rng.Holds(Val(z, j)) {
      assert j != q ==> Val(z, j) == Val(x, j);
    }
    CostRestore(P, q, x, v);
  }

  lemma EmptyColIgnored(P: LP, q: int, x: seq<real>, v: real, i: int)
    requires 0 <= q < P.n == |x| && EmptyColAt(P, q)
    ensures RowAct(P, i, x[q := v]) == RowAct(P, i, x)
  {
    forall j | 0 <= j < P.n ensures RowF(P.a, i, x[q := v])(j) == RowF(P.a, i, x)(j) {
      if j == q {
        assert At(P.a, i, q) == 0.0;
      } else {
        assert Val(x[q := v], j) == Val(x, j);
      }
    }
    RowActEq(P, i, x[q := v], P, x);
  }

  lemma SubstForward(P: LP, q: int, v: real, x: seq<real>)
    requires q in P.col && 0 <= q < P.n && Feasible(P, x)
    requires x[q] == v || EmptyColAt(P, q)
    ensures Feasible(SubstCol(P, q, v), x)
    ensures Obj(SubstCol(P, q, v), x) == Obj(P, x) + P.col[q].c * v - P.col[q].c * x[q]
  {
    hide RowAct, ShiftedRow, CostF, EmptyColAt;
    var R := SubstCol(P, q, v);
    forall i | i in R.row ensures R.row[i].Holds(RowAct(R, i, x)) {
      SubstRow(P, q, v, x, i);
      if x[q] == v {
        assert x[q := v] == x;
      } else {
        EmptyColIgnored(P, q, x, v, i);
      }
    }
    assert x[q := x[q]] == x;
    CostRestore(P, q, x, x[q]);
  }

  lemma SubstEquiv(P: LP, q: int, v: real)
    requires q in P.col && 0 <= q < P.n && P.col[q].rng.Holds(v)
    requires P.col[q].rng.Fixed() || EmptyColAt(P, q)
    requires forall z :: P.col[q].rng.Holds(z) ==> P.col[q].c * v <= P.col[q].c * z
    ensures Equivalent(P, SubstCol(P, q, v))
  {
    hide Obj, RowAct, EmptyColAt;
    var R := SubstCol(P, q, v);
    forall x | Feasible(R, x) ensures exists z :: Feasible(P, z) && Obj(P, z) <= Obj(R, x) {
      SubstBackward(P, q, v, x);
    }
    forall x | Feasible(P, x) ensures exists z :: Feasible(R, z) && Obj(R, z) <= Obj(P, x) {
      assert P.col[q].rng.Holds(Val(x, q));
      SubstForward(P, q, v, x);
      assert Feasible(R, x) && Obj(R, x) <= Obj(P, x);
    }
  }

  lemma FixedColEquiv(P: LP, q: int)
    requires q in P.col && 0 <= q < P.n && P.col[q].rng.Fixed()
    ensures Equivalent(P, SubstCol(P, q, P.col[q].rng.lb.v))
  {
    hide Equivalent;
    SubstEquiv(P, q, P.col[q].rng.lb.v);
  }

  lemma EmptyColEquiv(P: LP, q: int, v: real, st: Stat)
    requires q in P.col && 0 <= q < P.n && EmptyColAt(P, q) && StatusOk(P.col[q].rng, st, v, P.col[q].c)
    ensures Equivalent(P, SubstCol(P, q, v))
  {
    hide Equivalent, EmptyColAt;
    forall z | P.col[q].rng.Holds(z) ensures P.col[q].c * v <= P.col[q].c * z {
      StatusMin(P.col[q].rng, st, v, P.col[q].c, z);
    }
    SubstEquiv(P, q, v);
  }
}
