/** Postsolve steps that recover a row: each turns a basic optimal solution of the reduced problem into one of
    the problem before the reduction, and none of the routine's checks fails. */
module LpKktRows {
  import opened Sums
  import opened LpModel
  import opened LpRecover
  import opened LpReduce

  // ----- a row recovered as inactive (empty and free rows)

  lemma RowActDrop(P: LP, p: int, i: int, x: seq<real>)
    requires i != p
    ensures RowAct(RemoveRow(P, p), i, x) == RowAct(P, i, x)
  {
    var R := RemoveRow(P, p);
    forall j | 0 <= j < P.n ensures RowF(R.a, i, x)(j) == RowF(P.a, i, x)(j) {
      AtDropRow(P.a, p, i, j);
    }
    RowActEq(R, i, x, P, x);
  }

  lemma InactiveRowOther(P: LP, p: int, S: Sol, T: Sol, i: int)
    requires WellFormed(P) && p in P.row && i in P.row && i != p
    requires var R := RemoveRow(P, p); Shape(R, S) && RowOk(R, S, i)
    requires Shape(P, T) && T.cp == S.cp && T.rs[i] == S.rs[i] && T.rp[i] == S.rp[i] && T.rd[i] == S.rd[i]
    ensures RowOk(P, T, i)
  {
    hide StatusOk, RowAct, WellFormed;
    RowActDrop(P, p, i, S.cp);
  }

  lemma ColFRestore(a: Matrix, p: int, y: seq<real>, d: real, j: int, i: int)
    requires 0 <= p < |y| && i != p
    ensures ColF(a, j, y[p := d])(i) == ColF(DropRow(a, p), j, y)(i)
  {
    AtDropRow(a, p, i, j);
    assert Val(y[p := d], i) == Val(y, i);
  }

  lemma ColFAtRow(a: Matrix, p: int, y: seq<real>, d: real, j: int)
    requires 0 <= p < |y|
    ensures ColF(a, j, y[p := d])(p) == At(a, p, j) * d
    ensures ColF(DropRow(a, p), j, y)(p) == 0.0
  {
    AtDropRow(a, p, p, j);
  }

  /** Removing row p and adding it back with multiplier d changes the product of column j by a[p,j] * d. */
  lemma ColActRestore(P: LP, p: int, y: seq<real>, d: real, j: int)
    requires WellFormed(P) && p in P.row && |y| == P.m
    ensures ColAct(P, j, y[p := d]) == ColAct(RemoveRow(P, p), j, y) + At(P.a, p, j) * d
  {
    var R := RemoveRow(P, p);
    forall i | 0 <= i < P.m && i != p ensures ColF(P.a, j, y[p := d])(i) == ColF(R.a, j, y)(i) {
      ColFRestore(P.a, p, y, d, j, i);
    }
    ColActOne(P, j, y[p := d], R, y, p);
    ColFAtRow(P.a, p, y, d, j);
  }

  lemma InactiveRowCol(P: LP, p: int, S: Sol, T: Sol, j: int)
    requires WellFormed(P) && p in P.row && j in P.col
    requires var R := RemoveRow(P, p); Shape(R, S) && ColOk(R, S, j)
    requires Shape(P, T) && T.rd == S.rd[p := 0.0] && T.cs == S.cs && T.cp == S.cp && T.cd == S.cd
    ensures ColOk(P, T, j)
  {
    ColActRestore(P, p, S.rd, 0.0, j);
  }

  lemma InactiveRow(P: LP, p: int, S: Sol)
    requires WellFormed(P) && p in P.row && 0 <= p < P.m && BasicOptimal(RemoveRow(P, p), S)
    requires P.row[p].Holds(RowAct(P, p, S.cp))
    ensures RowUnset(S, p)
    ensures BasicOptimal(P, SetRow(S, p, BS, RowAct(P, p, S.cp), 0.0))
  {
    hide RowAct, ColAct, CountBS, ColOk, WellFormed;
    var R := RemoveRow(P, p);
    assert R.row.Keys == P.row.Keys - {p};
    var T := SetRow(S, p, BS, RowAct(P, p, S.cp), 0.0);
    forall i | i in P.row ensures RowOk(P, T, i) {
      if i != p {
        assert RowOk(R, S, i);
        InactiveRowOther(P, p, S, T, i);
      }
    }
    forall j | j in P.col ensures ColOk(P, T, j) {
      assert ColOk(R, S, j);
      InactiveRowCol(P, p, S, T, j);
    }
    CountUpdate(S.rs, p, BS);
  }

  lemma EmptyRowStep(P: LP, p: int, S: Sol)
    requires WellFormed(P) && p in P.row && EmptyRowAt(P, p) && P.row[p].Holds(0.0)
    requires BasicOptimal(RemoveRow(P, p), S)
    ensures var r := RecoverOne(EmptyRow(p), S); r.Some? && BasicOptimal(P, r.value)
  {
    RowActEmpty(P, p, S.cp);
    InactiveRow(P, p, S);
  }

  lemma FreeRowStep(P: LP, p: int, S: Sol)
    requires WellFormed(P) && p in P.row && P.row[p].Free()
    requires BasicOptimal(RemoveRow(P, p), S)
    ensures var r := RecoverOne(FreeRow(p, RowVec(P, p)), S); r.Some? && BasicOptimal(P, r.value)
  {
    hide BasicOptimal, RowAct, Dot, RowVec, ColSet;
    FreeRowCols(P, p, S);
    RowVecDot(P, p, S.cp);
    InactiveRow(P, p, S);
  }

  lemma FreeRowCols(P: LP, p: int, S: Sol)
    requires WellFormed(P) && p in P.row && BasicOptimal(RemoveRow(P, p), S)
    ensures Shape(RemoveRow(P, p), S) && forall j :: j in RowVec(P, p) ==> ColSet(S, j)
  {
    hide RowAct, ColAct, CountBS;
    forall j | j in RowVec(P, p) ensures ColSet(S, j) {
      assert ColOk(RemoveRow(P, p), S, j);
    }
  }

  // ----- a bound of a row removed without a queue entry

  lemma StripStep(P: LP, p: int, r: Range, S: Sol)
    requires WellFormed(P) && p in P.row && !P.row[p].Fixed() && r.Ordered()
    requires r.lb == P.row[p].lb || r.lb == Inf
    requires r.ub == P.row[p].ub || r.ub == Inf
    requires BasicOptimal(SetRowRange(P, p, r), S)
    requires P.row[p].Holds(RowAct(P, p, S.cp))
    ensures BasicOptimal(P, S)
  {
    var R := SetRowRange(P, p, r);
    assert R.row.Keys == P.row.Keys;
    forall i | i in P.row ensures RowOk(P, S, i) {
      assert RowOk(R, S, i);
    }
    forall j | j in P.col ensures ColOk(P, S, j) {
      assert ColOk(R, S, j);
    }
  }

  // ----- row singletons

  /** Row p is singleton in column q and column q gets the range r. */
  function SngtonProblem(P: LP, p: int, q: int, r: Range): LP
    requires q in P.col
  {
    SetColRange(RemoveRow(P, p), q, r)
  }

  lemma SngtonFacts(P: LP, p: int, q: int, r: Range)
    requires WellFormed(P) && p in P.row && q in P.col && r.Ordered()
    ensures var R := SngtonProblem(P, p, q, r);
            && WellFormed(R)
            && |R.row.Keys| == |P.row.Keys| - 1
            && R.col.Keys == P.col.Keys
            && R.a == RemoveRow(P, p).a
  {
    RemoveRowFacts(P, p);
  }

  lemma SngtonRowOther(P: LP, p: int, q: int, r: Range, S: Sol, T: Sol, i: int)
    requires WellFormed(P) && p in P.row && q in P.col && i in P.row && i != p
    requires var R := SngtonProblem(P, p, q, r); Shape(R, S) && RowOk(R, S, i)
    requires Shape(P, T) && T.cp == S.cp && T.rs[i] == S.rs[i] && T.rp[i] == S.rp[i] && T.rd[i] == S.rd[i]
    ensures RowOk(P, T, i)
  {
    var R := SngtonProblem(P, p, q, r);
    assert RowAct(R, i, S.cp) == RowAct(RemoveRow(P, p), i, S.cp);
    hide StatusOk, RowAct, WellFormed;
    RowActDrop(P, p, i, S.cp);
  }

  lemma SngtonColOther(P: LP, p: int, q: int, r: Range, S: Sol, T: Sol, d: real, j: int)
    requires WellFormed(P) && p in P.row && SingleInRow(P, p, q) && (p, q) in P.a && q in P.col && j in P.col && j != q
    requires var R := SngtonProblem(P, p, q, r); Shape(R, S) && ColOk(R, S, j)
    requires Shape(P, T) && T.rd == S.rd[p := d] && T.cs[j] == S.cs[j] && T.cp[j] == S.cp[j] && T.cd[j] == S.cd[j]
    ensures ColOk(P, T, j)
  {
    ColActRestore(P, p, S.rd, d, j);
    ColActEq(SngtonProblem(P, p, q, r), j, S.rd, RemoveRow(P, p), S.rd);
  }

  predicate OnlyAt<T(==)>(t: seq<T>, s: seq<T>, k: int) {
    |t| == |s| && 0 <= k < |s| && t == s[k := t[k]]
  }

  predicate SngtonDelta(P: LP, p: int, q: int, S: Sol, T: Sol) {
    && Shape(P, S) && Shape(P, T) && T.cp == S.cp
    && OnlyAt(T.rs, S.rs, p) && OnlyAt(T.rp, S.rp, p) && OnlyAt(T.rd, S.rd, p)
    && OnlyAt(T.cs, S.cs, q) && OnlyAt(T.cd, S.cd, q)
  }

  lemma SngtonRows(P: LP, p: int, q: int, r: Range, S: Sol, T: Sol)
    requires WellFormed(P) && p in P.row && q in P.col && SngtonDelta(P, p, q, S, T)
    requires var R := SngtonProblem(P, p, q, r); forall i :: i in R.row ==> RowOk(R, S, i)
    requires RowOk(P, T, p)
    ensures forall i :: i in P.row ==> RowOk(P, T, i)
  {
    forall i | i in P.row ensures RowOk(P, T, i) {
      if i != p {
        SngtonRowOther(P, p, q, r, S, T, i);
      }
    }
  }

  lemma SngtonCols(P: LP, p: int, q: int, r: Range, S: Sol, T: Sol)
    requires WellFormed(P) && p in P.row && SingleInRow(P, p, q) && (p, q) in P.a && q in P.col && SngtonDelta(P, p, q, S, T)
    requires var R := SngtonProblem(P, p, q, r); forall j :: j in R.col ==> ColOk(R, S, j)
    requires ColOk(P, T, q)
    ensures forall j :: j in P.col ==> ColOk(P, T, j)
  {
    forall j | j in P.col ensures ColOk(P, T, j) {
      if j != q {
        SngtonColOther(P, p, q, r, S, T, T.rd[p], j);
      }
    }
  }

  predicate OneMoreBasic(p: int, q: int, S: Sol, T: Sol)
    requires 0 <= p < |T.rs| && 0 <= q < |T.cs| == |S.cs|
  {
    (if T.rs[p] == BS then 1 else 0) + (if T.cs[q] == BS then 1 else 0) == 1 + (if S.cs[q] == BS then 1 else 0)
  }

  /** Common frame of the row singleton steps: only row p and column q need attention. */
  lemma SngtonFrame(P: LP, p: int, q: int, r: Range, S: Sol, T: Sol)
    requires WellFormed(P) && p in P.row && SingleInRow(P, p, q) && (p, q) in P.a && q in P.col && r.Ordered()
    requires SngtonDelta(P, p, q, S, T) && BasicOptimal(SngtonProblem(P, p, q, r), S)
    requires RowOk(P, T, p) && ColOk(P, T, q) && OneMoreBasic(p, q, S, T)
    ensures BasicOptimal(P, T)
  {
    hide RowOk, ColOk, CountBS, WellFormed;
    SngtonFacts(P, p, q, r);
    SngtonRows(P, p, q, r, S, T);
    SngtonCols(P, p, q, r, S, T);
    CountUpdate(S.rs, p, T.rs[p]);
    CountUpdate(S.cs, q, T.cs[q]);
  }

  lemma SngtonRowSelf(P: LP, p: int, q: int, T: Sol)
    requires WellFormed(P) && p in P.row && SingleInRow(P, p, q) && (p, q) in P.a && q in P.col && Shape(P, T)
    requires T.rp[p] == P.a[(p, q)] * T.cp[q]
    requires StatusOk(P.row[p], T.rs[p], T.rp[p], T.rd[p]) && T.rs[p] != NF
    ensures RowOk(P, T, p)
  {
    hide StatusOk;
    RowActSingle(P, p, q, T.cp);
  }

  lemma SngtonColSelf(P: LP, p: int, q: int, r: Range, S: Sol, T: Sol, apqd: real)
    requires WellFormed(P) && p in P.row && q in P.col && (p, q) in P.a && SngtonDelta(P, p, q, S, T)
    requires Shape(SngtonProblem(P, p, q, r), S) && ColOk(SngtonProblem(P, p, q, r), S, q)
    requires apqd == P.a[(p, q)] * T.rd[p] && T.cd[q] == S.cd[q] - apqd
    requires StatusOk(P.col[q].rng, T.cs[q], T.cp[q], T.cd[q])
    ensures ColOk(P, T, q)
  {
    hide StatusOk;
    ColActRestore(P, p, S.rd, T.rd[p], q);
    ColActEq(SngtonProblem(P, p, q, r), q, S.rd, RemoveRow(P, p), S.rd);
  }

  lemma DivMul(x: real, a: real)
    requires a != 0.0
    ensures a * (x / a) == x
  {
  }

  lemma BasicOptimalCol(P: LP, S: Sol, j: int)
    requires BasicOptimal(P, S) && j in P.col
    ensures Shape(P, S) && ColOk(P, S, j)
  {
    hide ColOk;
  }

  lemma BasicOptimalRow(P: LP, S: Sol, i: int)
    requires BasicOptimal(P, S) && i in P.row
    ensures Shape(P, S) && RowOk(P, S, i)
  {
    hide RowOk;
  }

  lemma TakeOverDelta(P: LP, p: int, q: int, st: Stat, S: Sol)
    requires Shape(P, S) && 0 <= p < P.m && 0 <= q < P.n && (p, q) in P.a && P.a[(p, q)] != 0.0
    requires st != BS && S.cs[q] != BS
    ensures var T := RowTakesOver(S, p, q, P.a[(p, q)], st);
            && SngtonDelta(P, p, q, S, T) && OneMoreBasic(p, q, S, T)
            && T.rs[p] == st && T.rp[p] == P.a[(p, q)] * S.cp[q] && T.rd[p] == S.cd[q] / P.a[(p, q)]
            && T.cs[q] == BS && T.cd[q] == 0.0
  {
    var T := RowTakesOver(S, p, q, P.a[(p, q)], st);
    assert T.cp == S.cp;
  }

  /** The row is active in place of the column, which becomes basic. */
  lemma TakeOverStep(P: LP, p: int, q: int, r: Range, st: Stat, S: Sol, y: real, d: real)
    requires WellFormed(P) && p in P.row && SingleInRow(P, p, q) && (p, q) in P.a && q in P.col && r.Ordered()
    requires BasicOptimal(SngtonProblem(P, p, q, r), S) && Shape(P, S) && S.cs[q] != BS
    requires P.col[q].rng.Holds(S.cp[q])
    requires st != BS && st != NF && P.a[(p, q)] != 0.0
    requires y == P.a[(p, q)] * S.cp[q] && d == S.cd[q] / P.a[(p, q)] && StatusOk(P.row[p], st, y, d)
    ensures BasicOptimal(P, RowTakesOver(S, p, q, P.a[(p, q)], st))
  {
    hide RowOk, ColOk, BasicOptimal, SngtonDelta, SingleInRow, RowTakesOver, OneMoreBasic, Sum;
    var apq := P.a[(p, q)];
    var T := RowTakesOver(S, p, q, apq, st);
    BasicOptimalCol(SngtonProblem(P, p, q, r), S, q);
    TakeOverDelta(P, p, q, st, S);
    DeltaFacts(P, p, q, S, T);
    DivMul(S.cd[q], apq);
    SngtonRowSelf(P, p, q, T);
    SngtonColSelf(P, p, q, r, S, T, S.cd[q]);
    SngtonFrame(P, p, q, r, S, T);
  }

  lemma DeltaFacts(P: LP, p: int, q: int, S: Sol, T: Sol)
    requires SngtonDelta(P, p, q, S, T)
    ensures Shape(P, S) && Shape(P, T) && T.cp == S.cp
  {
  }

  lemma StayDelta(P: LP, p: int, q: int, st: Stat, S: Sol)
    requires Shape(P, S) && 0 <= p < P.m && 0 <= q < P.n && (p, q) in P.a
    requires st == BS <==> S.cs[q] == BS
    ensures var T := RowInactive(S, p, q, P.a[(p, q)], st);
            && SngtonDelta(P, p, q, S, T) && OneMoreBasic(p, q, S, T)
            && T.rs[p] == BS && T.rp[p] == P.a[(p, q)] * S.cp[q] && T.rd[p] == 0.0
            && T.cs[q] == st && T.cd[q] == S.cd[q]
  {
    var T := RowInactive(S, p, q, P.a[(p, q)], st);
    assert T.cp == S.cp;
    assert T.cd == S.cd[q := T.cd[q]];
  }

  /** The column keeps its status up to the kind of its own bound, and the row is inactive. */
  lemma StayStep(P: LP, p: int, q: int, r: Range, st: Stat, S: Sol)
    requires WellFormed(P) && p in P.row && SingleInRow(P, p, q) && (p, q) in P.a && q in P.col && r.Ordered()
    requires BasicOptimal(SngtonProblem(P, p, q, r), S) && Shape(P, S)
    requires StatusOk(P.col[q].rng, st, S.cp[q], S.cd[q]) && (st == BS <==> S.cs[q] == BS)
    requires P.row[p].Holds(P.a[(p, q)] * S.cp[q])
    ensures BasicOptimal(P, RowInactive(S, p, q, P.a[(p, q)], st))
  {
    hide RowOk, ColOk, BasicOptimal, SngtonDelta, SingleInRow, RowInactive, OneMoreBasic, Sum;
    var T := RowInactive(S, p, q, P.a[(p, q)], st);
    BasicOptimalCol(SngtonProblem(P, p, q, r), S, q);
    StayDelta(P, p, q, st, S);
    DeltaFacts(P, p, q, S, T);
    SngtonRowSelf(P, p, q, T);
    SngtonColSelf(P, p, q, r, S, T, 0.0);
    SngtonFrame(P, p, q, r, S, T);
  }

  lemma SngtonUnset(P: LP, p: int, q: int, r: Range, S: Sol)
    requires WellFormed(P) && p in P.row && q in P.col && BasicOptimal(SngtonProblem(P, p, q, r), S)
    ensures Shape(P, S) && RowUnset(S, p) && ColSet(S, q) && StatusOk(r, S.cs[q], S.cp[q], S.cd[q])
  {
    hide CountBS, RowAct, ColAct, RowOk;
    assert ColOk(SngtonProblem(P, p, q, r), S, q);
  }

  lemma RowSngton1Step(P: LP, p: int, q: int, S: Sol)
    requires WellFormed(P) && p in P.row && SingleInRow(P, p, q) && (p, q) in P.a && P.row[p].Fixed()
    requires q in P.col && P.a[(p, q)] != 0.0 && P.col[q].rng.Holds(P.row[p].lb.v / P.a[(p, q)])
    requires BasicOptimal(SngtonProblem(P, p, q, FixAt(P.row[p].lb.v / P.a[(p, q)])), S)
    requires Shape(P, S) && S.cs[q] == NS
    ensures var r := RecoverOne(RowSngton1(p, q, P.a[(p, q)]), S); r.Some? && BasicOptimal(P, r.value)
  {
    hide BasicOptimal, Sum, SingleInRow, WellFormed;
    var apq := P.a[(p, q)];
    var v := P.row[p].lb.v / apq;
    DivMul(P.row[p].lb.v, apq);
    SngtonUnset(P, p, q, FixAt(v), S);
    assert S.cp[q] == v;
    TakeOverStep(P, p, q, FixAt(v), NS, S, P.row[p].lb.v, S.cd[q] / apq);
  }

  // ----- inequality row singletons

  lemma MulSign(a: real, x: real, y: real)
    ensures a > 0.0 ==> (x <= y <==> a * x <= a * y)
    ensures a < 0.0 ==> (x <= y <==> a * x >= a * y)
  {
    if a > 0.0 {
      if x <= y { assert a * (y - x) >= 0.0; } else { assert a * (x - y) > 0.0; }
    } else if a < 0.0 {
      if x <= y { assert (-a) * (y - x) >= 0.0; } else { assert (-a) * (x - y) > 0.0; }
    }
  }

  lemma DivSign(x: real, a: real)
    requires a != 0.0
    ensures a > 0.0 ==> (x >= 0.0 ==> x / a >= 0.0) && (x <= 0.0 ==> x / a <= 0.0)
    ensures a < 0.0 ==> (x >= 0.0 ==> x / a <= 0.0) && (x <= 0.0 ==> x / a >= 0.0)
  {
    DivMul(x, a);
    MulSign(a, 0.0, x / a);
    MulSign(a, x / a, 0.0);
  }

  /** A value lies in the implied range exactly when the row value lies in the row's range. */
  lemma ImpliedHolds(r: Range, apq: real, x: real)
    requires apq != 0.0
    ensures ImpliedRange(r, apq).Holds(x) <==> r.Holds(apq * x)
  {
    if r.lb.Fin? {
      DivMul(r.lb.v, apq);
      MulSign(apq, r.lb.v / apq, x);
      MulSign(apq, x, r.lb.v / apq);
    }
    if r.ub.Fin? {
      DivMul(r.ub.v, apq);
      MulSign(apq, x, r.ub.v / apq);
      MulSign(apq, r.ub.v / apq, x);
    }
  }

  lemma TightenHolds(own: Range, imp: Range, x: real)
    ensures Tighten(own, imp).Holds(x) <==> own.Holds(x) && imp.Holds(x)
  {
  }

  predicate Consistent(own: Range, imp: Range) {
    && (own.lb.Fin? && imp.ub.Fin? ==> own.lb.v <= imp.ub.v)
    && (own.ub.Fin? && imp.lb.Fin? ==> imp.lb.v <= own.ub.v)
  }

  lemma QuotientOrder(a: real, x: real, y: real, lb: real, ub: real)
    requires a != 0.0 && a * x == lb && a * y == ub && lb <= ub
    ensures a > 0.0 ==> x <= y
    ensures a < 0.0 ==> y <= x
  {
    MulSign(a, x, y);
    MulSign(a, y, x);
  }

  lemma TightenOrdered(own: Range, r: Range, apq: real)
    requires own.Ordered() && r.Ordered() && apq != 0.0 && Consistent(own, ImpliedRange(r, apq))
    ensures ImpliedRange(r, apq).Ordered()
    ensures Tighten(own, ImpliedRange(r, apq)).Ordered()
    ensures !r.Free() ==> !ImpliedRange(r, apq).Free()
  {
    if r.lb.Fin? && r.ub.Fin? {
      DivMul(r.lb.v, apq);
      DivMul(r.ub.v, apq);
      QuotientOrder(apq, r.lb.v / apq, r.ub.v / apq, r.lb.v, r.ub.v);
    }
  }

  /** The bound of the row that keeps the column from going lower (or higher). */
  function RowSide(apq: real, low: bool): Stat {
    if low then (if apq > 0.0 then NL else NU) else (if apq > 0.0 then NU else NL)
  }

  /** Column q sits at the implied bound, so the row is active at the matching bound. */
  lemma TakeOverStatus(r: Range, apq: real, own: Range, x: real, lambda: real, low: bool, y: real, d: real)
    requires apq != 0.0 && !r.Fixed() && r.Holds(y) && y == apq * x && d == lambda / apq
    requires low ==> LbTightens(own, ImpliedRange(r, apq)) && x == ImpliedRange(r, apq).lb.v && lambda >= 0.0
    requires !low ==> UbTightens(own, ImpliedRange(r, apq)) && x == ImpliedRange(r, apq).ub.v && lambda <= 0.0
    ensures StatusOk(r, RowSide(apq, low), y, d)
  {
    DivSign(lambda, apq);
    if r.lb.Fin? { DivMul(r.lb.v, apq); }
    if r.ub.Fin? { DivMul(r.ub.v, apq); }
  }

  /** What the status of the column with tightened bounds says about its own and the implied bounds. */
  lemma Sngton2Cases(own: Range, imp: Range, st: Stat, x: real, lambda: real)
    requires StatusOk(Tighten(own, imp), st, x, lambda) && !own.Fixed()
    requires !imp.Free() && Tighten(own, imp).Ordered()
    ensures own.Holds(x) && imp.Holds(x)
    ensures st == BS ==> StatusOk(own, BS, x, lambda)
    ensures st != NF && st != Unset
    ensures (st == NL || (st == NS && lambda >= 0.0)) && LbTightens(own, imp) ==> x == imp.lb.v && lambda >= 0.0
    ensures (st == NL || (st == NS && lambda >= 0.0)) && !LbTightens(own, imp) ==> StatusOk(own, NL, x, lambda)
    ensures (st == NU || (st == NS && lambda < 0.0)) && UbTightens(own, imp) ==> x == imp.ub.v && lambda <= 0.0
    ensures (st == NU || (st == NS && lambda < 0.0)) && !UbTightens(own, imp) ==> StatusOk(own, NU, x, lambda)
  {
  }

  lemma RowSngton2Step(P: LP, p: int, q: int, S: Sol)
    requires WellFormed(P) && p in P.row && SingleInRow(P, p, q) && (p, q) in P.a && !P.row[p].Fixed() && !P.row[p].Free()
    requires q in P.col && !P.col[q].rng.Fixed() && P.a[(p, q)] != 0.0 && Shape(P, S)
    requires P.row[p].Ordered() && P.col[q].rng.Ordered()
    requires Consistent(P.col[q].rng, ImpliedRange(P.row[p], P.a[(p, q)]))
    requires BasicOptimal(SngtonProblem(P, p, q, Tighten(P.col[q].rng, ImpliedRange(P.row[p], P.a[(p, q)]))), S)
    ensures var own, imp := P.col[q].rng, ImpliedRange(P.row[p], P.a[(p, q)]);
            var r := RecoverOne(RowSngton2(p, q, P.a[(p, q)], LbTightens(own, imp), UbTightens(own, imp)), S);
            r.Some? && BasicOptimal(P, r.value)
  {
    hide BasicOptimal, Sum, SingleInRow, WellFormed, RowInactive, RowTakesOver, SngtonProblem,
      StatusOk, ImpliedRange, Tighten, LbTightens, UbTightens, Consistent;
    var apq := P.a[(p, q)];
    var own, imp := P.col[q].rng, ImpliedRange(P.row[p], apq);
    var t := Tighten(own, imp);
    SngtonUnset(P, p, q, t, S);
    var x, lambda, st := S.cp[q], S.cd[q], S.cs[q];
    var y, d := apq * x, lambda / apq;
    TightenHolds(own, imp, x);
    ImpliedHolds(P.row[p], apq, x);
    TightenOrdered(own, P.row[p], apq);
    Sngton2Cases(own, imp, st, x, lambda);
    if st == BS {
      StayStep(P, p, q, t, BS, S);
    } else if st == NL || (st == NS && lambda >= 0.0) {
      if LbTightens(own, imp) {
        TakeOverStatus(P.row[p], apq, own, x, lambda, true, y, d);
        TakeOverStep(P, p, q, t, RowSide(apq, true), S, y, d);
      } else {
        StayStep(P, p, q, t, NL, S);
      }
    } else if UbTightens(own, imp) {
      TakeOverStatus(P.row[p], apq, own, x, lambda, false, y, d);
      TakeOverStep(P, p, q, t, RowSide(apq, false), S, y, d);
    } else {
      StayStep(P, p, q, t, NU, S);
    }
  }
}
