/** Postsolve steps that recover a column. */
module LpKktCols {
  import opened Sums
  import opened LpModel
  import opened LpRecover
  import opened LpReduce
  import opened LpKktRows

  // ----- a column put back at a given value (fixed and empty columns)

  lemma RowFRestore(a: Matrix, q: int, x: seq<real>, v: real, i: int, j: int)
    requires 0 <= q < |x| && j != q
    ensures RowF(a, i, x[q := v])(j) == RowF(DropCol(a, q), i, x)(j)
  {
    AtDropCol(a, q, i, j);
    assert Val(x[q := v], j) == Val(x, j);
  }

  lemma RowFAtCol(a: Matrix, q: int, x: seq<real>, v: real, i: int)
    requires 0 <= q < |x|
    ensures RowF(a, i, x[q := v])(q) == At(a, i, q) * v
    ensures RowF(DropCol(a, q), i, x)(q) == 0.0
  {
    AtDropCol(a, q, i, q);
  }

  /** Removing column q and adding it back at value v changes row i by a[i,q] * v. */
  lemma RowActRestore(P: LP, q: int, x: seq<real>, v: real, i: int)
    requires 0 <= q < P.n && |x| == P.n
    ensures RowAct(P, i, x[q := v]) == RowAct(RemoveCol(P, q), i, x) + At(P.a, i, q) * v
  {
    var R := RemoveCol(P, q);
    forall j | 0 <= j < P.n && j != q ensures RowF(P.a, i, x[q := v])(j) == RowF(R.a, i, x)(j) {
      RowFRestore(P.a, q, x, v, i, j);
    }
    RowActOne(P, i, x[q := v], R, x, q);
    RowFAtCol(P.a, q, x, v, i);
  }

  lemma ColActDrop(P: LP, q: int, j: int, y: seq<real>)
    requires j != q
    ensures ColAct(RemoveCol(P, q), j, y) == ColAct(P, j, y)
  {
    var R := RemoveCol(P, q);
    forall i | 0 <= i < P.m ensures ColF(R.a, j, y)(i) == ColF(P.a, j, y)(i) {
      AtDropCol(P.a, q, i, j);
    }
    ColActEq(R, j, y, P, y);
  }

  lemma ShiftStatus(P: LP, q: int, v: real, i: int, st: Stat, prim: real, dual: real)
    requires i in P.row && StatusOk(ShiftedRow(P, q, v, i), st, prim, dual) && st != NF
    ensures StatusOk(P.row[i], st, prim + At(P.a, i, q) * v, dual)
  {
  }

  function PutBack(P: LP, q: int, v: real, st: Stat, dual: real, S: Sol): Sol
    requires Shape(P, S) && 0 <= q < P.n
  {
    SetCol(S, q, st, v, dual).(rp := AddScaled(S.rp, ColVec(P, q), v))
  }

  lemma ColVecAt(P: LP, q: int, i: int)
    requires WellFormed(P)
    ensures Vec(ColVec(P, q), i) == At(P.a, i, q)
  {
  }

  lemma PutBackRow(P: LP, q: int, v: real, st: Stat, dual: real, S: Sol, i: int)
    requires WellFormed(P) && q in P.col && 0 <= q < P.n && i in P.row
    requires Shape(P, S) && RowOk(SubstCol(P, q, v), S, i)
    ensures Shape(P, PutBack(P, q, v, st, dual, S)) && RowOk(P, PutBack(P, q, v, st, dual, S), i)
  {
    hide WellFormed, StatusOk, ColVec, ShiftedRow, RowAct, At, Vec;
    var R := SubstCol(P, q, v);
    var T := PutBack(P, q, v, st, dual, S);
    var d := At(P.a, i, q) * v;
    assert RowAct(R, i, S.cp) == RowAct(RemoveCol(P, q), i, S.cp) by {
      RowActSameMatrix(R, RemoveCol(P, q), i, S.cp);
    }
    RowActRestore(P, q, S.cp, v, i);
    ColVecAt(P, q, i);
    assert T.rp[i] == S.rp[i] + d;
    assert R.row[i] == ShiftedRow(P, q, v, i);
    ShiftStatus(P, q, v, i, S.rs[i], S.rp[i], S.rd[i]);
  }

  lemma RowActSameMatrix(P: LP, R: LP, i: int, x: seq<real>)
    requires P.a == R.a && P.n == R.n
    ensures RowAct(P, i, x) == RowAct(R, i, x)
  {
  }

  lemma ColActSameMatrix(P: LP, R: LP, j: int, y: seq<real>)
    requires P.a == R.a && P.m == R.m
    ensures ColAct(P, j, y) == ColAct(R, j, y)
  {
  }

  lemma PutBackCol(P: LP, q: int, v: real, st: Stat, dual: real, S: Sol, j: int)
    requires q in P.col && 0 <= q < P.n && j in P.col && j != q
    requires Shape(P, S) && ColOk(SubstCol(P, q, v), S, j)
    ensures Shape(P, PutBack(P, q, v, st, dual, S)) && ColOk(P, PutBack(P, q, v, st, dual, S), j)
  {
    hide StatusOk, ColVec, ColAct;
    ColActSameMatrix(SubstCol(P, q, v), RemoveCol(P, q), j, S.rd);
    ColActDrop(P, q, j, S.rd);
  }

  lemma SubstColStep(P: LP, q: int, v: real, st: Stat, dual: real, S: Sol)
    requires WellFormed(P) && q in P.col && 0 <= q < P.n
    requires BasicOptimal(SubstCol(P, q, v), S) && Shape(P, S)
    requires ColAct(P, q, S.rd) + dual == P.col[q].c
    requires StatusOk(P.col[q].rng, st, v, dual) && st != BS
    ensures ColUnset(S, q)
    ensures BasicOptimal(P, PutBack(P, q, v, st, dual, S))
  {
    hide WellFormed, StatusOk, CountBS, RowOk, RowAct, ColAct, ColVec;
    var R := SubstCol(P, q, v);
    var T := PutBack(P, q, v, st, dual, S);
    assert R.row.Keys == P.row.Keys;
    forall i | i in P.row ensures RowOk(P, T, i) {
      PutBackRow(P, q, v, st, dual, S, i);
    }
    forall j | j in P.col ensures ColOk(P, T, j) {
      if j != q {
        PutBackCol(P, q, v, st, dual, S, j);
      }
    }
    CountUpdate(S.cs, q, st);
  }

  lemma ColVecSet(P: LP, q: int, v: real, S: Sol)
    requires WellFormed(P) && q in P.col && BasicOptimal(SubstCol(P, q, v), S) && Shape(P, S)
    ensures forall k <- ColVec(P, q) :: RowSet(S, k)
  {
    hide RowAct, ColAct, CountBS, ColOk;
    forall k | k in ColVec(P, q) ensures RowSet(S, k) {
      assert RowOk(SubstCol(P, q, v), S, k);
    }
  }

  lemma FixedColStep(P: LP, q: int, S: Sol)
    requires WellFormed(P) && q in P.col && 0 <= q < P.n && P.col[q].rng.Fixed()
    requires BasicOptimal(SubstCol(P, q, P.col[q].rng.lb.v), S) && Shape(P, S)
    ensures var r := RecoverOne(FixedColEntry(P, q, P.col[q].rng.lb.v), S);
            r.Some? && BasicOptimal(P, r.value) && r.value.cs == S.cs[q := NS]
  {
    hide WellFormed, CountBS, BasicOptimal, ColVec, Dot, ColAct, AddScaled, SubstCol;
    var v := P.col[q].rng.lb.v;
    ColVecDot(P, q, S.rd);
    ColVecSet(P, q, v, S);
    SubstColStep(P, q, v, NS, P.col[q].c - Dot(ColVec(P, q), S.rd), S);
  }

  lemma EmptyColStep(P: LP, q: int, v: real, st: Stat, S: Sol)
    requires WellFormed(P) && q in P.col && 0 <= q < P.n && EmptyColAt(P, q)
    requires BasicOptimal(SubstCol(P, q, v), S) && Shape(P, S)
    requires StatusOk(P.col[q].rng, st, v, P.col[q].c) && st != BS
    ensures var r := RecoverOne(EmptyCol(q, st, v, P.col[q].c), S); r.Some? && BasicOptimal(P, r.value)
  {
    hide WellFormed, CountBS, BasicOptimal, ColAct, SubstCol, StatusOk;
    ColActEmpty(P, q, S.rd);
    SubstColStep(P, q, v, st, P.col[q].c, S);
    assert AddScaled(S.rp, ColVec(P, q), v) == S.rp;
  }

  // ----- implied slack columns

  lemma ColFSet(a: Matrix, p: int, y: seq<real>, d: real, j: int, i: int)
    requires 0 <= p < |y| && i != p
    ensures ColF(a, j, y[p := d])(i) == ColF(a, j, y)(i)
  {
    assert Val(y[p := d], i) == Val(y, i);
  }

  lemma ColFSetAt(a: Matrix, p: int, y: seq<real>, d: real, j: int)
    requires 0 <= p < |y|
    ensures ColF(a, j, y[p := d])(p) == At(a, p, j) * d
    ensures ColF(a, j, y)(p) == At(a, p, j) * y[p]
  {
  }

  lemma ColActSet(P: LP, p: int, y: seq<real>, d: real, j: int)
    requires 0 <= p < P.m == |y|
    ensures ColAct(P, j, y[p := d]) == ColAct(P, j, y) + At(P.a, p, j) * d - At(P.a, p, j) * y[p]
  {
    forall i | 0 <= i < P.m && i != p ensures ColF(P.a, j, y[p := d])(i) == ColF(P.a, j, y)(i) {
      ColFSet(P.a, p, y, d, j, i);
    }
    ColActOne(P, j, y[p := d], P, y, p);
    ColFSetAt(P.a, p, y, d, j);
  }

  /** Multiplier of the row after recovery, and its effect on another column; see the formulae (9) and (13)-(16). */
  lemma SlackMultiplier(c: real, apq: real, apj: real, pi: real)
    requires apq != 0.0
    ensures var d := (c - (-apq * pi)) / apq;
            && apq * d - apq * pi == c
            && apj * d - apj * pi == c * (apj / apq)
  {
    var d := (c - (-apq * pi)) / apq;
    DivMul(c - (-apq * pi), apq);
    assert apq * d == c + apq * pi;
    var e := d - pi;
    assert apq * e == c;
    var f := apj / apq;
    DivMul(apj, apq);
    assert apj == apq * f;
    assert apj * e == f * (apq * e) by {
      assert (apq * f) * e == f * (apq * e);
    }
  }

  /** How y = rhs - apq * x compares with rhs - apq * b. */
  lemma SlackBoundVal(rhs: real, apq: real, b: real, y: real, x: real)
    requires apq != 0.0 && apq * x == rhs - y
    ensures y == rhs - apq * b ==> x == b
    ensures apq > 0.0 ==> (y <= rhs - apq * b <==> x >= b)
    ensures apq > 0.0 ==> (y >= rhs - apq * b <==> x <= b)
    ensures apq < 0.0 ==> (y <= rhs - apq * b <==> x <= b)
    ensures apq < 0.0 ==> (y >= rhs - apq * b <==> x >= b)
  {
    MulSign(apq, b, x);
    MulSign(apq, x, b);
  }

  lemma SlackHolds(r: Range, rhs: real, apq: real, y: real, x: real)
    requires apq != 0.0 && apq * x == rhs - y
    ensures SlackRange(r, rhs, apq).Holds(y) <==> r.Holds(x)
  {
    hide SlackRange;
    SlackLb(r, rhs, apq, y, x);
    SlackUb(r, rhs, apq, y, x);
  }

  lemma SlackLb(r: Range, rhs: real, apq: real, y: real, x: real)
    requires apq != 0.0 && apq * x == rhs - y
    ensures var b := SlackRange(r, rhs, apq);
            (r.lb.Fin? ==> r.lb.v <= x) <==> if apq > 0.0 then b.ub.Fin? ==> y <= b.ub.v else b.lb.Fin? ==> b.lb.v <= y
  {
    if r.lb.Fin? {
      SlackBoundVal(rhs, apq, r.lb.v, y, x);
    }
  }

  lemma SlackUb(r: Range, rhs: real, apq: real, y: real, x: real)
    requires apq != 0.0 && apq * x == rhs - y
    ensures var b := SlackRange(r, rhs, apq);
            (r.ub.Fin? ==> x <= r.ub.v) <==> if apq > 0.0 then b.lb.Fin? ==> b.lb.v <= y else b.ub.Fin? ==> y <= b.ub.v
  {
    if r.ub.Fin? {
      SlackBoundVal(rhs, apq, r.ub.v, y, x);
    }
  }

  /** The new range of the row is fixed or free exactly when the column's range is. */
  lemma SlackKind(r: Range, rhs: real, apq: real)
    requires apq != 0.0
    ensures SlackRange(r, rhs, apq).Fixed() <==> r.Fixed()
    ensures SlackRange(r, rhs, apq).Free() <==> r.Free()
  {
    if r.lb.Fin? && r.ub.Fin? {
      if apq * r.lb.v == apq * r.ub.v {
        assert apq * (r.lb.v - r.ub.v) == 0.0;
      }
    }
  }

  lemma SlackStatus(r: Range, rhs: real, apq: real, st: Stat, y: real, pi: real, x: real, dual: real)
    requires apq != 0.0 && !r.Fixed() && st != NF && apq * x == rhs - y && dual == -apq * pi
    requires StatusOk(SlackRange(r, rhs, apq), st, y, pi)
    ensures st != NS
    ensures StatusOk(r, SlackStat(st, apq), x, dual)
  {
    SlackKind(r, rhs, apq);
    SlackHolds(r, rhs, apq, y, x);
    if r.lb.Fin? { SlackBoundVal(rhs, apq, r.lb.v, y, x); }
    if r.ub.Fin? { SlackBoundVal(rhs, apq, r.ub.v, y, x); }
    MulSign(apq, 0.0, pi);
    MulSign(apq, pi, 0.0);
  }

  lemma SlackRowOther(P: LP, p: int, q: int, S: Sol, T: Sol, i: int)
    requires p in P.row && q in P.col && P.row[p].Fixed() && SingleInCol(P, p, q) && (p, q) in P.a && P.a[(p, q)] != 0.0
    requires i in P.row && i != p && 0 <= q < P.n
    requires Shape(P, S) && RowOk(SlackProblem(P, p, q), S, i)
    requires Shape(P, T) && T.cp == S.cp[q := T.cp[q]]
    requires T.rs[i] == S.rs[i] && T.rp[i] == S.rp[i] && T.rd[i] == S.rd[i]
    ensures RowOk(P, T, i)
  {
    hide StatusOk, RowAct;
    RowActSameMatrix(SlackProblem(P, p, q), RemoveCol(P, q), i, S.cp);
    RowActRestore(P, q, S.cp, T.cp[q], i);
    assert At(P.a, i, q) == 0.0;
  }

  lemma SlackRowSelf(P: LP, p: int, q: int, S: Sol, T: Sol)
    requires p in P.row && q in P.col && P.row[p].Fixed() && (p, q) in P.a && P.a[(p, q)] != 0.0
    requires 0 <= q < P.n && 0 <= p < P.m
    requires Shape(P, S) && RowOk(SlackProblem(P, p, q), S, p)
    requires Shape(P, T) && T.cp == S.cp[q := (P.row[p].lb.v - S.rp[p]) / P.a[(p, q)]]
    requires T.rs[p] == NS && T.rp[p] == P.row[p].lb.v
    ensures RowOk(P, T, p)
  {
    hide RowAct;
    var apq := P.a[(p, q)];
    var v := (P.row[p].lb.v - S.rp[p]) / apq;
    RowActSameMatrix(SlackProblem(P, p, q), RemoveCol(P, q), p, S.cp);
    RowActRestore(P, q, S.cp, v, p);
    DivMul(P.row[p].lb.v - S.rp[p], apq);
  }

  lemma SlackColOther(P: LP, p: int, q: int, S: Sol, T: Sol, j: int)
    requires p in P.row && q in P.col && P.row[p].Fixed() && (p, q) in P.a && P.a[(p, q)] != 0.0
    requires j in P.col && j != q && 0 <= p < P.m
    requires Shape(P, S) && ColOk(SlackProblem(P, p, q), S, j)
    requires Shape(P, T) && T.cs[j] == S.cs[j] && T.cp[j] == S.cp[j] && T.cd[j] == S.cd[j]
    requires T.rd == S.rd[p := (P.col[q].c - (-P.a[(p, q)] * S.rd[p])) / P.a[(p, q)]]
    ensures ColOk(P, T, j)
  {
    hide StatusOk, ColAct, At;
    var R, apq, c := SlackProblem(P, p, q), P.a[(p, q)], P.col[q].c;
    ColActSameMatrix(R, RemoveCol(P, q), j, S.rd);
    ColActDrop(P, q, j, S.rd);
    ColActSet(P, p, S.rd, T.rd[p], j);
    SlackMultiplier(c, apq, At(P.a, p, j), S.rd[p]);
    assert R.col[j] == SlackedCol(P, p, apq, c, j);
  }

  lemma SlackColSelf(P: LP, p: int, q: int, S: Sol, T: Sol)
    requires WellFormed(P) && p in P.row && q in P.col && P.row[p].Fixed() && SingleInCol(P, p, q)
    requires (p, q) in P.a && P.a[(p, q)] != 0.0 && 0 <= p < P.m && 0 <= q < P.n
    requires Shape(P, S) && RowOk(SlackProblem(P, p, q), S, p) && !P.col[q].rng.Fixed()
    requires Shape(P, T) && T.rd[p] == (P.col[q].c - T.cd[q]) / P.a[(p, q)]
    requires T.cs[q] == SlackStat(S.rs[p], P.a[(p, q)])
    requires T.cp[q] == (P.row[p].lb.v - S.rp[p]) / P.a[(p, q)] && T.cd[q] == -P.a[(p, q)] * S.rd[p]
    ensures ColOk(P, T, q) && S.rs[p] != NS
  {
    hide StatusOk, RowAct, ColAct, SlackRange, SlackStat, WellFormed, SingleInCol;
    var apq := P.a[(p, q)];
    ColActSingle(P, p, q, T.rd);
    DivMul(P.col[q].c - T.cd[q], apq);
    DivMul(P.row[p].lb.v - S.rp[p], apq);
    assert SlackProblem(P, p, q).row[p] == SlackRange(P.col[q].rng, P.row[p].lb.v, apq);
    SlackStatus(P.col[q].rng, P.row[p].lb.v, apq, S.rs[p], S.rp[p], S.rd[p], T.cp[q], T.cd[q]);
  }

  function SlackSol(P: LP, p: int, q: int, S: Sol): Sol
    requires p in P.row && q in P.col && P.row[p].Fixed() && (p, q) in P.a && P.a[(p, q)] != 0.0
    requires Shape(P, S) && 0 <= p < P.m && 0 <= q < P.n
  {
    SlackBack(S, p, q, P.row[p].lb.v, P.col[q].c, P.a[(p, q)])
  }

  ghost predicate InBounds(P: LP) {
    (forall i :: i in P.row ==> 0 <= i < P.m) && (forall j :: j in P.col ==> 0 <= j < P.n)
  }

  lemma WellFormedInBounds(P: LP)
    requires WellFormed(P)
    ensures InBounds(P)
  {
  }

  lemma SlackRows(P: LP, p: int, q: int, S: Sol)
    requires p in P.row && q in P.col && P.row[p].Fixed() && SingleInCol(P, p, q) && (p, q) in P.a && P.a[(p, q)] != 0.0
    requires InBounds(P)
    requires Shape(P, S) && 0 <= p < P.m && 0 <= q < P.n
    requires forall i :: i in SlackProblem(P, p, q).row ==> RowOk(SlackProblem(P, p, q), S, i)
    ensures forall i :: i in P.row ==> RowOk(P, SlackSol(P, p, q, S), i)
  {
    hide RowOk;
    var T := SlackSol(P, p, q, S);
    assert RowOk(SlackProblem(P, p, q), S, p);
    forall i | i in P.row ensures RowOk(P, T, i) {
      if i == p {
        SlackRowSelf(P, p, q, S, T);
      } else {
        SlackRowOther(P, p, q, S, T, i);
      }
    }
  }

  lemma SlackCols(P: LP, p: int, q: int, S: Sol)
    requires WellFormed(P)
    requires p in P.row && q in P.col && P.row[p].Fixed() && SingleInCol(P, p, q) && (p, q) in P.a && P.a[(p, q)] != 0.0
    requires InBounds(P)
    requires Shape(P, S) && 0 <= p < P.m && 0 <= q < P.n && !P.col[q].rng.Fixed()
    requires RowOk(SlackProblem(P, p, q), S, p)
    requires forall j :: j in SlackProblem(P, p, q).col ==> ColOk(SlackProblem(P, p, q), S, j)
    ensures forall j :: j in P.col ==> ColOk(P, SlackSol(P, p, q, S), j)
    ensures S.rs[p] != NS
  {
    hide RowOk, ColOk, WellFormed, SingleInCol, SlackStat;
    var T := SlackSol(P, p, q, S);
    SlackColSelf(P, p, q, S, T);
    forall j | j in P.col ensures ColOk(P, T, j) {
      if j != q {
        SlackColOther(P, p, q, S, T, j);
      }
    }
  }

  /** Recovery of an implied slack column. With zero tolerances the two status codes at which the routine aborts
      cannot occur: the row is not free and non-basic, and it is not fixed because the column is not. */
  lemma ColSngton1Step(P: LP, p: int, q: int, S: Sol)
    requires WellFormed(P)
    requires p in P.row && q in P.col && P.row[p].Fixed() && SingleInCol(P, p, q) && (p, q) in P.a && P.a[(p, q)] != 0.0
    requires 0 <= p < P.m && 0 <= q < P.n && !P.col[q].rng.Fixed()
    requires BasicOptimal(SlackProblem(P, p, q), S) && Shape(P, S)
    ensures S.rs[p] != NF && S.rs[p] != NS
    ensures var r := RecoverOne(ColSngton1(p, q, P.row[p].lb.v, P.col[q].c, P.a[(p, q)]), S);
            && r.Some? && BasicOptimal(P, r.value)
            && r.value.rs[p] == NS && (P.col[q].rng.Free() ==> r.value.cs[q] == BS)
  {
    SlackRecovered(P, p, q, S);
    SlackSolOptimal(P, p, q, S);
  }

  lemma SlackRecovered(P: LP, p: int, q: int, S: Sol)
    requires WellFormed(P)
    requires p in P.row && q in P.col && P.row[p].Fixed() && SingleInCol(P, p, q) && (p, q) in P.a && P.a[(p, q)] != 0.0
    requires 0 <= p < P.m && 0 <= q < P.n && !P.col[q].rng.Fixed()
    requires BasicOptimal(SlackProblem(P, p, q), S) && Shape(P, S)
    ensures S.rs[p] != NF && S.rs[p] != NS
    ensures RecoverOne(ColSngton1(p, q, P.row[p].lb.v, P.col[q].c, P.a[(p, q)]), S) == Some(SlackSol(P, p, q, S))
    ensures P.col[q].rng.Free() ==> SlackSol(P, p, q, S).cs[q] == BS
  {
    hide RowAct, ColAct, CountBS, WellFormed, SingleInCol, SlackRange;
    assert RowOk(SlackProblem(P, p, q), S, p);
    SlackKind(P.col[q].rng, P.row[p].lb.v, P.a[(p, q)]);
  }

  lemma SlackSolOptimal(P: LP, p: int, q: int, S: Sol)
    requires WellFormed(P)
    requires p in P.row && q in P.col && P.row[p].Fixed() && SingleInCol(P, p, q) && (p, q) in P.a && P.a[(p, q)] != 0.0
    requires 0 <= p < P.m && 0 <= q < P.n && !P.col[q].rng.Fixed()
    requires BasicOptimal(SlackProblem(P, p, q), S) && Shape(P, S) && S.rs[p] != NF
    ensures BasicOptimal(P, SlackSol(P, p, q, S))
  {
    hide RowOk, ColOk, CountBS, WellFormed, SingleInCol, SlackRange, InBounds;
    WellFormedInBounds(P);
    var R, T := SlackProblem(P, p, q), SlackSol(P, p, q, S);
    assert R.row.Keys == P.row.Keys;
    SlackRows(P, p, q, S);
    assert RowOk(R, S, p);
    SlackCols(P, p, q, S);
    CountUpdate(S.cs, q, T.cs[q]);
    CountUpdate(S.rs, p, NS);
    SlackUnset(P, p, q, S);
  }

  lemma SlackUnset(P: LP, p: int, q: int, S: Sol)
    requires p in P.row && q in P.col && P.row[p].Fixed() && (p, q) in P.a && P.a[(p, q)] != 0.0
    requires 0 <= p < P.m && 0 <= q < P.n
    requires BasicOptimal(SlackProblem(P, p, q), S) && Shape(P, S)
    ensures S.cs[q] == Unset && S.rs[p] != Unset
  {
    hide RowAct, ColAct, CountBS, SlackRange;
    assert RowOk(SlackProblem(P, p, q), S, p);
  }
}
