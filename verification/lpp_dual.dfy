/** Dual feasibility: multipliers with the right signs are kept by every reduction. */
module LpDual {
  import opened Sums
  import opened LpModel
  import opened LpRecover
  import opened LpReduce
  import opened LpKktRows
  import opened LpKktCols
  import opened LpKktForce

  /** A positive multiplier needs a lower bound to push against, a negative one an upper bound. */
  predicate Allows(r: Range, d: real) {
    (d > 0.0 ==> r.lb.Fin?) && (d < 0.0 ==> r.ub.Fin?)
  }

  /** Reduced cost of column j with the row multipliers y. */
  function Price(P: LP, j: int, y: seq<real>): real
    requires j in P.col
  {
    P.col[j].c - ColAct(P, j, y)
  }

  ghost predicate Multipliers(P: LP, y: seq<real>) {
    && |y| == P.m && (forall i :: i in P.row ==> Allows(P.row[i], Val(y, i)))
    && forall j :: j in P.col ==> Allows(P.col[j].rng, Price(P, j, y))
  }

  ghost predicate DualFeasible(P: LP) {
    exists y :: Multipliers(P, y)
  }

  /** Multipliers of P give multipliers of R. */
  ghost predicate KeepsDual(P: LP, R: LP) {
    DualFeasible(P) ==> DualFeasible(R)
  }

  /** With two finite bounds at every column, zero multipliers will do. */
  lemma BoxedDual(P: LP)
    requires forall j :: j in P.col ==> P.col[j].rng.lb.Fin? && P.col[j].rng.ub.Fin?
    ensures DualFeasible(P)
  {
    hide ColAct;
    assert Multipliers(P, seq(P.m, _ => 0.0));
  }

  lemma MultiplierAt(P: LP, y: seq<real>, i: int, j: int)
    requires Multipliers(P, y)
    ensures |y| == P.m && (i in P.row ==> Allows(P.row[i], Val(y, i))) && (j in P.col ==> Allows(P.col[j].rng, Price(P, j, y)))
  {
  }

  // ----- rows

  /** A row that no multiplier uses, or that has no elements, may go. */
  lemma IdleRowDual(P: LP, p: int)
    requires WellFormed(P) && p in P.row && (EmptyRowAt(P, p) || P.row[p].Free())
    ensures KeepsDual(P, RemoveRow(P, p))
  {
    hide Multipliers, Price;
    if y :| Multipliers(P, y) {
      forall j | j in P.col ensures Price(RemoveRow(P, p), j, y) == Price(P, j, y) {
        MultiplierAt(P, y, p, j);
        PriceWithout(P, p, y, j);
      }
      SamePrices(P, RemoveRow(P, p), y);
    }
  }

  lemma PriceWithout(P: LP, p: int, y: seq<real>, j: int)
    requires WellFormed(P) && p in P.row && j in P.col && |y| == P.m
    ensures Price(RemoveRow(P, p), j, y) == Price(P, j, y) + At(P.a, p, j) * Val(y, p)
  {
    hide ColAct;
    assert y[p := y[p]] == y;
    ColActRestore(P, p, y, y[p], j);
  }

  lemma SamePrices(P: LP, R: LP, y: seq<real>)
    requires Multipliers(P, y) && R.m == P.m
    requires forall i :: i in R.row ==> i in P.row && (P.row[i].lb.Fin? ==> R.row[i].lb.Fin?) && (P.row[i].ub.Fin? ==> R.row[i].ub.Fin?)
    requires forall j :: j in R.col ==> j in P.col && (Allows(P.col[j].rng, Price(P, j, y)) ==> Allows(R.col[j].rng, Price(R, j, y)))
    ensures Multipliers(R, y)
  {
    hide Price;
  }

  /** A row bound that no multiplier needs: its least activity is finite, so its columns take over. */
  lemma StripDual(P: LP, p: int, r: Range, low: bool)
    requires WellFormed(P) && p in P.row && ForcedFin(P, p, if low then 1 else 0)
    requires r == if low then P.row[p].(lb := Inf) else P.row[p].(ub := Inf)
    ensures KeepsDual(P, SetRowRange(P, p, r))
  {
    hide Multipliers, Price, ForcedFin;
    if y :| Multipliers(P, y) {
      var R := SetRowRange(P, p, r);
      MultiplierAt(P, y, p, 0);
      var z := if (low && y[p] > 0.0) || (!low && y[p] < 0.0) then y[p := 0.0] else y;
      forall j | j in P.col ensures Allows(P.col[j].rng, Price(R, j, z)) {
        MultiplierAt(P, y, p, j);
        if z == y {
          PriceSetRow(P, p, r, j, y);
        } else {
          StripPrice(P, p, r, low, y, j);
        }
      }
      StripMultipliers(P, p, r, low, y, z);
    }
  }

  lemma PriceSetRow(P: LP, p: int, r: Range, j: int, y: seq<real>)
    requires j in P.col
    ensures Price(SetRowRange(P, p, r), j, y) == Price(P, j, y)
  {
  }

  lemma StripPrice(P: LP, p: int, r: Range, low: bool, y: seq<real>, j: int)
    requires WellFormed(P) && p in P.row && j in P.col && |y| == P.m && ForcedFin(P, p, if low then 1 else 0)
    requires (low && y[p] > 0.0) || (!low && y[p] < 0.0)
    requires Allows(P.col[j].rng, Price(P, j, y))
    ensures Allows(P.col[j].rng, Price(SetRowRange(P, p, r), j, y[p := 0.0]))
  {
    hide ColAct;
    var R := SetRowRange(P, p, r);
    ColActSetRow(P, p, r, j, y[p := 0.0]);
    PriceMoved(P, p, j, y, 0.0);
    if (p, j) in P.a {
      ForcedAt(P, p, if low then 1 else 0, j);
      ShiftAllowed(P.col[j].rng, Price(P, j, y), P.a[(p, j)], y[p], low);
    }
  }

  lemma ColActSetRow(P: LP, p: int, r: Range, j: int, y: seq<real>)
    ensures ColAct(SetRowRange(P, p, r), j, y) == ColAct(P, j, y)
  {
  }

  lemma ForcedAt(P: LP, p: int, at: int, j: int)
    requires ForcedFin(P, p, at) && (p, j) in P.a
    ensures j in P.col && ForcedBound(P.col[j].rng, P.a[(p, j)], at).Fin?
  {
    assert (p, j).0 == p;
  }

  lemma ShiftAllowed(r: Range, d: real, a: real, y: real, low: bool)
    requires Allows(r, d) && ForcedBound(r, a, if low then 1 else 0).Fin? && (if low then y > 0.0 else y < 0.0) && a != 0.0
    ensures Allows(r, d + a * y)
  {
    MulSigns(a, y);
  }

  lemma MulSigns(a: real, y: real)
    ensures a > 0.0 && y > 0.0 ==> a * y > 0.0
    ensures a > 0.0 && y < 0.0 ==> a * y < 0.0
    ensures a < 0.0 && y > 0.0 ==> a * y < 0.0
    ensures a < 0.0 && y < 0.0 ==> a * y > 0.0
    ensures y == 0.0 ==> a * y == 0.0
  {
    MulSign(a, 0.0, y);
    MulSign(a, y, 0.0);
  }

  /** Changing the multiplier of row p to d changes the price of column j by a[p,j] times the difference. */
  lemma PriceMoved(P: LP, p: int, j: int, y: seq<real>, d: real)
    requires WellFormed(P) && p in P.row && j in P.col && |y| == P.m
    ensures Price(P, j, y[p := d]) == Price(P, j, y) + At(P.a, p, j) * (y[p] - d)
  {
    hide ColAct;
    assert y[p := y[p]] == y;
    ColActRestore(P, p, y, y[p], j);
    ColActRestore(P, p, y, d, j);
    var a := At(P.a, p, j);
    assert a * (y[p] - d) == a * y[p] - a * d;
  }

  lemma StripMultipliers(P: LP, p: int, r: Range, low: bool, y: seq<real>, z: seq<real>)
    requires Multipliers(P, y) && p in P.row && |z| == |y| && (forall i :: 0 <= i < |y| && i != p ==> z[i] == y[i])
    requires r == if low then P.row[p].(lb := Inf) else P.row[p].(ub := Inf)
    requires z == y ==> !(low && Val(y, p) > 0.0) && !(!low && Val(y, p) < 0.0)
    requires z != y ==> Val(z, p) == 0.0
    requires forall j :: j in P.col ==> Allows(P.col[j].rng, Price(SetRowRange(P, p, r), j, z))
    ensures Multipliers(SetRowRange(P, p, r), z)
  {
    hide Price;
    forall i | i in SetRowRange(P, p, r).row ensures Allows(SetRowRange(P, p, r).row[i], Val(z, i)) {
      if i != p {
        assert Val(z, i) == Val(y, i);
      }
    }
  }

  /** A singleton row becomes bounds of its column, which carry its multiplier. */
  lemma SngtonDual(P: LP, p: int, q: int, r: Range)
    requires WellFormed(P) && p in P.row && SingleInRow(P, p, q) && q in P.col && (p, q) in P.a && P.a[(p, q)] != 0.0
    requires var own, imp := P.col[q].rng, ImpliedRange(P.row[p], P.a[(p, q)]);
             (own.lb.Fin? || imp.lb.Fin? ==> r.lb.Fin?) && (own.ub.Fin? || imp.ub.Fin? ==> r.ub.Fin?)
    ensures KeepsDual(P, SngtonProblem(P, p, q, r))
  {
    hide Multipliers, Price, SingleInRow;
    if y :| Multipliers(P, y) {
      var R := SngtonProblem(P, p, q, r);
      forall j | j in R.col ensures j in P.col && (Allows(P.col[j].rng, Price(P, j, y)) ==> Allows(R.col[j].rng, Price(R, j, y))) {
        MultiplierAt(P, y, p, j);
        PriceWithout(P, p, y, j);
        PriceSetCol(RemoveRow(P, p), q, r, j, y);
        if j == q {
          Carried(P.col[q].rng, P.row[p], P.a[(p, q)], r, Price(P, q, y), Val(y, p));
        } else {
          NotInRow(P, p, q, j);
        }
      }
      SamePrices(P, R, y);
    }
  }

  lemma NotInRow(P: LP, p: int, q: int, j: int)
    requires SingleInRow(P, p, q) && j != q
    ensures At(P.a, p, j) == 0.0
  {
  }

  lemma PriceSetCol(P: LP, q: int, r: Range, j: int, y: seq<real>)
    requires q in P.col && j in P.col
    ensures Price(SetColRange(P, q, r), j, y) == Price(P, j, y)
  {
  }

  lemma Carried(own: Range, row: Range, a: real, r: Range, d: real, y: real)
    requires a != 0.0 && Allows(own, d) && Allows(row, y)
    requires var imp := ImpliedRange(row, a); (own.lb.Fin? || imp.lb.Fin? ==> r.lb.Fin?) && (own.ub.Fin? || imp.ub.Fin? ==> r.ub.Fin?)
    ensures Allows(r, d + a * y)
  {
    MulSigns(a, y);
  }

  // ----- columns

  /** A column that is taken out takes its price with it. */
  lemma SubstDual(P: LP, q: int, v: real)
    requires WellFormed(P) && q in P.col
    ensures KeepsDual(P, SubstCol(P, q, v))
  {
    hide Multipliers, Price;
    if y :| Multipliers(P, y) {
      var R := SubstCol(P, q, v);
      forall j | j in R.col ensures j in P.col && R.col[j] == P.col[j] && Price(R, j, y) == Price(P, j, y) {
        SubstPrice(P, q, v, j, y);
      }
      SubstRows(P, q, v);
      SamePrices(P, R, y);
    }
  }

  lemma SubstRows(P: LP, q: int, v: real)
    requires q in P.col
    ensures var R := SubstCol(P, q, v);
            R.m == P.m && forall i :: i in R.row ==> i in P.row && (P.row[i].lb.Fin? <==> R.row[i].lb.Fin?) && (P.row[i].ub.Fin? <==> R.row[i].ub.Fin?)
  {
  }

  lemma SubstPrice(P: LP, q: int, v: real, j: int, y: seq<real>)
    requires q in P.col && j in SubstCol(P, q, v).col
    ensures j in P.col && SubstCol(P, q, v).col[j] == P.col[j] && Price(SubstCol(P, q, v), j, y) == Price(P, j, y)
  {
    var R := SubstCol(P, q, v);
    forall i | 0 <= i < P.m ensures ColF(R.a, j, y)(i) == ColF(P.a, j, y)(i) {
      AtDropCol(P.a, q, i, j);
    }
    ColActEq(R, j, y, P, y);
  }

  /** A slack column leaves its price to the multiplier of the row. */
  lemma SlackDual(P: LP, p: int, q: int)
    requires WellFormed(P) && p in P.row && q in P.col && P.row[p].Fixed() && SingleInCol(P, p, q) && (p, q) in P.a && P.a[(p, q)] != 0.0
    ensures KeepsDual(P, SlackProblem(P, p, q))
  {
    hide Multipliers, Price, SingleInCol, SlackProblem;
    if y :| Multipliers(P, y) {
      var R, a, c := SlackProblem(P, p, q), P.a[(p, q)], P.col[q].c;
      MultiplierAt(P, y, p, q);
      var z := y[p := y[p] - c / a];
      SlackKeys(P, p, q);
      forall j | j in R.col ensures j in P.col && R.col[j].rng == P.col[j].rng && Price(R, j, z) == Price(P, j, y) {
        SlackPrice(P, p, q, y, j);
      }
      SlackSign(P, p, q, y);
      SlackMultipliers(P, R, p, y, z);
    }
  }

  lemma SlackKeys(P: LP, p: int, q: int)
    requires p in P.row && q in P.col && P.row[p].Fixed() && (p, q) in P.a && P.a[(p, q)] != 0.0
    ensures var R := SlackProblem(P, p, q);
            && R.m == P.m && R.row == P.row[p := SlackRange(P.col[q].rng, P.row[p].lb.v, P.a[(p, q)])] && R.a == DropCol(P.a, q)
            && forall j :: j in R.col ==> j in P.col && j != q && R.col[j] == SlackedCol(P, p, P.a[(p, q)], P.col[q].c, j)
  {
  }

  lemma SlackPrice(P: LP, p: int, q: int, y: seq<real>, j: int)
    requires WellFormed(P) && p in P.row && q in P.col && P.row[p].Fixed() && (p, q) in P.a && P.a[(p, q)] != 0.0 && |y| == P.m
    requires j in SlackProblem(P, p, q).col
    ensures var R := SlackProblem(P, p, q);
            j in P.col && R.col[j].rng == P.col[j].rng && Price(R, j, y[p := y[p] - P.col[q].c / P.a[(p, q)]]) == Price(P, j, y)
  {
    hide ColAct, SlackProblem;
    SlackKeys(P, p, q);
    var R, a, c := SlackProblem(P, p, q), P.a[(p, q)], P.col[q].c;
    var z := y[p := y[p] - c / a];
    DroppedAct(P, R, q, j, z);
    PriceMoved(P, p, j, y, z[p]);
    SlackCost(c, At(P.a, p, j), a);
  }

  lemma DroppedAct(P: LP, R: LP, q: int, j: int, y: seq<real>)
    requires R.m == P.m && R.a == DropCol(P.a, q) && j != q
    ensures ColAct(R, j, y) == ColAct(P, j, y)
  {
    forall i | 0 <= i < P.m ensures ColF(R.a, j, y)(i) == ColF(P.a, j, y)(i) {
      AtDropCol(P.a, q, i, j);
    }
    ColActEq(R, j, y, P, y);
  }

  lemma SlackCost(c: real, b: real, a: real)
    requires a != 0.0
    ensures c * (b / a) == b * (c / a)
  {
    DivMul(b, a);
    DivMul(c, a);
    var t, u := b / a, c / a;
    assert b == a * t && c == a * u;
  }

  lemma SlackSign(P: LP, p: int, q: int, y: seq<real>)
    requires WellFormed(P) && p in P.row && q in P.col && P.row[p].Fixed() && SingleInCol(P, p, q) && (p, q) in P.a && P.a[(p, q)] != 0.0
    requires |y| == P.m && Allows(P.col[q].rng, Price(P, q, y))
    ensures Allows(SlackRange(P.col[q].rng, P.row[p].lb.v, P.a[(p, q)]), y[p] - P.col[q].c / P.a[(p, q)])
  {
    hide ColAct;
    var a, c := P.a[(p, q)], P.col[q].c;
    ColActSingle(P, p, q, y);
    var d := c - a * y[p];
    DivMul(c, a);
    var s := y[p] - c / a;
    assert a * s == -d;
    MulSigns(a, s);
  }

  lemma SlackMultipliers(P: LP, R: LP, p: int, y: seq<real>, z: seq<real>)
    requires Multipliers(P, y) && R.m == P.m && p in P.row && 0 <= p < |y| && |z| == |y| && z == y[p := z[p]]
    requires R.row.Keys == P.row.Keys && (forall i :: i in P.row && i != p ==> R.row[i] == P.row[i]) && Allows(R.row[p], z[p])
    requires forall j :: j in R.col ==> j in P.col && R.col[j].rng == P.col[j].rng && Price(R, j, z) == Price(P, j, y)
    ensures Multipliers(R, z)
  {
    hide Price;
    forall i | i in R.row ensures Allows(R.row[i], Val(z, i)) {
      if i != p {
        assert Val(z, i) == Val(y, i);
      }
    }
  }

  /** Which end of a range bounds t * x from below (from above when `up`). */
  function EndFor(t: real, r: Range, up: bool): Bound {
    if (t > 0.0) != up then r.lb else r.ub
  }

  function Coef(apj: real, apq: real): real
    requires apq != 0.0
  {
    -apj / apq
  }

  predicate ImpliedFin(P: LP, p: int, q: int, apq: real, up: bool)
    requires apq != 0.0
  {
    && p in P.row && EndFor(1.0 / apq, P.row[p], up).Fin?
    && forall k <- P.a :: k.0 == p && k.1 != q ==> k.1 in P.col && EndFor(Coef(P.a[k], apq), P.col[k.1].rng, up).Fin?
  }

  /** Each own bound of column q is shielded by the row and its other columns. */
  predicate Shielded(P: LP, p: int, q: int)
    requires q in P.col && (p, q) in P.a && P.a[(p, q)] != 0.0
  {
    && (P.col[q].rng.lb.Fin? ==> ImpliedFin(P, p, q, P.a[(p, q)], false))
    && (P.col[q].rng.ub.Fin? ==> ImpliedFin(P, p, q, P.a[(p, q)], true))
  }

  /** Fixing the row and freeing the column: the row takes the multiplier that makes the price of the column zero. */
  lemma FreedDual(P: LP, p: int, q: int, v: real)
    requires WellFormed(P) && p in P.row && q in P.col && SingleInCol(P, p, q) && (p, q) in P.a && P.a[(p, q)] != 0.0 && Shielded(P, p, q)
    ensures KeepsDual(P, FreedProblem(P, p, q, v))
  {
    hide Multipliers, Price, SingleInCol, Shielded;
    if y :| Multipliers(P, y) {
      var F, a, c := FreedProblem(P, p, q, v), P.a[(p, q)], P.col[q].c;
      MultiplierAt(P, y, p, q);
      var z := y[p := c / a];
      forall j | j in P.col ensures Allows(F.col[j].rng, Price(F, j, z)) {
        MultiplierAt(P, y, p, j);
        FreedPrice(P, p, q, v, y, j);
      }
      FreedMultipliers(P, F, p, y, z);
    }
  }

  lemma FreedMultipliers(P: LP, F: LP, p: int, y: seq<real>, z: seq<real>)
    requires Multipliers(P, y) && F.m == P.m && p in P.row && 0 <= p < |y| && |z| == |y| && z == y[p := z[p]]
    requires F.row.Keys == P.row.Keys && (forall i :: i in P.row && i != p ==> F.row[i] == P.row[i]) && F.row[p].lb.Fin? && F.row[p].ub.Fin?
    requires F.col.Keys == P.col.Keys && forall j :: j in P.col ==> Allows(F.col[j].rng, Price(F, j, z))
    ensures Multipliers(F, z)
  {
    hide Price;
    forall i | i in F.row ensures Allows(F.row[i], Val(z, i)) {
      if i != p {
        assert Val(z, i) == Val(y, i);
      }
    }
  }

  lemma FreedPrice(P: LP, p: int, q: int, v: real, y: seq<real>, j: int)
    requires WellFormed(P) && p in P.row && q in P.col && SingleInCol(P, p, q) && (p, q) in P.a && P.a[(p, q)] != 0.0 && Shielded(P, p, q)
    requires |y| == P.m && j in P.col && Allows(P.col[j].rng, Price(P, j, y)) && Allows(P.col[q].rng, Price(P, q, y))
    ensures var F := FreedProblem(P, p, q, v); Allows(F.col[j].rng, Price(F, j, y[p := P.col[q].c / P.a[(p, q)]]))
  {
    hide ColAct, Price, SingleInCol, Shielded;
    var F, a, c := FreedProblem(P, p, q, v), P.a[(p, q)], P.col[q].c;
    var z := y[p := c / a];
    FreedSame(P, p, q, v, j, z);
    var d := Price(P, q, y);
    PriceMoved(P, p, j, y, c / a);
    PriceSingle(P, p, q, y);
    if j == q {
      PriceSingle(P, p, q, z);
      DivMul(c, a);
    } else if (p, j) in P.a {
      PriceShift(c, a, y[p], d, P.a[(p, j)]);
      ShieldAt(P, p, q, j, d);
      ShiftedAllowed(P.col[j].rng, Price(P, j, y), Coef(P.a[(p, j)], a), d);
    }
  }

  lemma FreedSame(P: LP, p: int, q: int, v: real, j: int, z: seq<real>)
    requires q in P.col && j in P.col
    ensures var F := FreedProblem(P, p, q, v); j in F.col && Price(F, j, z) == Price(P, j, z) && F.col[j].rng == if j == q then FREE_RANGE else P.col[j].rng
  {
  }

  lemma PriceSingle(P: LP, p: int, q: int, y: seq<real>)
    requires WellFormed(P) && p in P.row && q in P.col && SingleInCol(P, p, q) && |y| == P.m
    ensures Price(P, q, y) == P.col[q].c - P.a[(p, q)] * y[p]
  {
    hide ColAct;
    ColActSingle(P, p, q, y);
  }

  lemma PriceShift(c: real, a: real, y: real, d: real, b: real)
    requires a != 0.0 && d == c - a * y
    ensures b * (y - c / a) == Coef(b, a) * d
  {
    var t, u := Coef(b, a), c / a;
    DivMul(-b, a);
    DivMul(c, a);
    assert a * t == -b && a * u == c;
    assert d == a * (u - y);
    assert t * d == (a * t) * (u - y);
  }

  /** A positive price of column q rests on its lower bound, which is shielded; so the other columns have the bounds they need. */
  lemma ShieldAt(P: LP, p: int, q: int, j: int, d: real)
    requires q in P.col && (p, q) in P.a && P.a[(p, q)] != 0.0 && Shielded(P, p, q) && Allows(P.col[q].rng, d) && (p, j) in P.a && j != q
    ensures j in P.col || d == 0.0
    ensures d > 0.0 ==> EndFor(Coef(P.a[(p, j)], P.a[(p, q)]), P.col[j].rng, false).Fin?
    ensures d < 0.0 ==> EndFor(Coef(P.a[(p, j)], P.a[(p, q)]), P.col[j].rng, true).Fin?
  {
    hide Coef, EndFor;
    assert (p, j).0 == p && (p, j).1 == j;
  }

  lemma ShiftedAllowed(r: Range, e: real, t: real, d: real)
    requires Allows(r, e) && (d > 0.0 ==> EndFor(t, r, false).Fin?) && (d < 0.0 ==> EndFor(t, r, true).Fin?)
    ensures Allows(r, e + t * d)
  {
    MulSigns(t, d);
    if t == 0.0 {
      assert t * d == 0.0;
    }
  }

  // ----- forcing rows

  lemma ForceDual(P: LP, p: int, at: int)
    requires WellFormed(P) && p in P.row
    ensures KeepsDual(P, ForceProblem(P, p, at))
  {
    hide Multipliers, Price;
    if y :| Multipliers(P, y) {
      var R := ForceProblem(P, p, at);
      forall j | j in R.col ensures j in P.col && (Allows(P.col[j].rng, Price(P, j, y)) ==> Allows(R.col[j].rng, Price(R, j, y))) {
        MultiplierAt(P, y, p, j);
        PriceWithout(P, p, y, j);
        ForcePrice(P, p, at, j, y);
      }
      SamePrices(P, R, y);
    }
  }

  lemma ForcePrice(P: LP, p: int, at: int, j: int, y: seq<real>)
    requires j in P.col
    ensures var R := ForceProblem(P, p, at);
            && j in R.col && Price(R, j, y) == Price(RemoveRow(P, p), j, y)
            && (if (p, j) in P.a then R.col[j].rng.lb.Fin? && R.col[j].rng.ub.Fin? else R.col[j].rng == P.col[j].rng)
  {
  }

  // ----- return code 2

  lemma EmptyColDual(P: LP, q: int)
    requires q in P.col && EmptyColAt(P, q)
    requires (P.col[q].c > 0.0 && P.col[q].rng.lb.Inf?) || (P.col[q].c < 0.0 && P.col[q].rng.ub.Inf?)
    ensures !DualFeasible(P)
  {
    forall y ensures !Multipliers(P, y) {
      ColActEmpty(P, q, y);
    }
  }

  /** A multiplier c[q]/a[p,q] towards a missing bound of the row: neither can the row have it, nor can column q do without it. */
  lemma FreedNoDual(P: LP, p: int, q: int)
    requires WellFormed(P) && p in P.row && q in P.col && SingleInCol(P, p, q) && (p, q) in P.a && P.a[(p, q)] != 0.0 && Shielded(P, p, q)
    requires var pi := P.col[q].c / P.a[(p, q)];
             (pi > 0.0 && P.row[p].lb.Inf?) || (pi < 0.0 && P.row[p].ub.Inf?)
    ensures !DualFeasible(P)
  {
    hide Multipliers, Price, SingleInCol, Shielded;
    forall y ensures !Multipliers(P, y) {
      if Multipliers(P, y) {
        MultiplierAt(P, y, p, q);
        PriceSingle(P, p, q, y);
        RowEnds(P, p, q);
        NoMultiplier(P.col[q].c, P.a[(p, q)], y[p], P.row[p], P.col[q].rng);
      }
    }
  }

  lemma RowEnds(P: LP, p: int, q: int)
    requires p in P.row && q in P.col && (p, q) in P.a && P.a[(p, q)] != 0.0 && Shielded(P, p, q)
    ensures P.col[q].rng.lb.Fin? ==> EndFor(1.0 / P.a[(p, q)], P.row[p], false).Fin?
    ensures P.col[q].rng.ub.Fin? ==> EndFor(1.0 / P.a[(p, q)], P.row[p], true).Fin?
  {
  }

  lemma NoMultiplier(c: real, a: real, y: real, row: Range, own: Range)
    requires a != 0.0 && Allows(row, y)
    requires (own.lb.Fin? ==> EndFor(1.0 / a, row, false).Fin?) && (own.ub.Fin? ==> EndFor(1.0 / a, row, true).Fin?)
    requires (c / a > 0.0 && row.lb.Inf?) || (c / a < 0.0 && row.ub.Inf?)
    ensures !Allows(own, c - a * y)
  {
    var u, t := c / a, 1.0 / a;
    DivMul(c, a);
    DivMul(1.0, a);
    assert c - a * y == a * (u - y);
    MulSigns(a, u - y);
    MulSigns(a, t);
  }

  lemma KeepsDualTrans(P: LP, Q: LP, R: LP)
    requires KeepsDual(P, Q) && KeepsDual(Q, R)
    ensures KeepsDual(P, R)
  {
  }
}
