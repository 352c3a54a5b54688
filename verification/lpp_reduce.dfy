/** The elementary problem transformations of the presolver, as functions on problems. */
module LpReduce {
  import opened Sums
  import opened LpModel
  import opened LpRecover

  function RowVec(P: LP, p: int): map<int, real> {
    map j | j in P.col && (p, j) in P.a :: P.a[(p, j)]
  }

  function ColVec(P: LP, q: int): map<int, real> {
    map i | i in P.row && (i, q) in P.a :: P.a[(i, q)]
  }

  function DropRow(a: Matrix, p: int): Matrix {
    map k | k in a && k.0 != p :: a[k]
  }

  function DropCol(a: Matrix, q: int): Matrix {
    map k | k in a && k.1 != q :: a[k]
  }

  function RemoveRow(P: LP, p: int): LP {
    P.(row := P.row - {p}, a := DropRow(P.a, p))
  }

  function RemoveCol(P: LP, q: int): LP {
    P.(col := P.col - {q}, a := DropCol(P.a, q))
  }

  function SetRowRange(P: LP, p: int, r: Range): LP {
    P.(row := P.row[p := r])
  }

  function SetColRange(P: LP, q: int, r: Range): LP
    requires q in P.col
  {
    P.(col := P.col[q := P.col[q].(rng := r)])
  }

  function ShiftBound(b: Bound, d: real): Bound {
    if b.Inf? then Inf else Fin(b.v - d)
  }

  function Shift(r: Range, d: real): Range {
    Range(ShiftBound(r.lb, d), ShiftBound(r.ub, d))
  }

  function FixAt(v: real): Range {
    Range(Fin(v), Fin(v))
  }

  predicate EmptyRowAt(P: LP, p: int) {
    forall k <- P.a :: k.0 != p
  }

  predicate EmptyColAt(P: LP, q: int) {
    forall k <- P.a :: k.1 != q
  }

  /** (p, q) is the only coefficient of row p. */
  predicate SingleInRow(P: LP, p: int, q: int) {
    (p, q) in P.a && forall k <- P.a :: k.0 == p ==> k.1 == q
  }

  /** (p, q) is the only coefficient of column q. */
  predicate SingleInCol(P: LP, p: int, q: int) {
    (p, q) in P.a && forall k <- P.a :: k.1 == q ==> k.0 == p
  }

  function ShiftBy(r: Range, val: real, v: real): Range {
    Shift(r, val * v)
  }

  function ShiftedRow(P: LP, q: int, v: real, i: int): Range
    requires i in P.row
  {
    ShiftBy(P.row[i], At(P.a, i, q), v)
  }

  /** Substitute the fixed column q into all rows and the objective, and remove it. */
  function SubstCol(P: LP, q: int, v: real): LP
    requires q in P.col
  {
    RemoveCol(P, q).(
      row := map i | i in P.row :: ShiftedRow(P, q, v, i),
      c0 := P.c0 + P.col[q].c * v)
  }

  function FixedColEntry(P: LP, q: int, v: real): Entry
    requires q in P.col
  {
    FixedCol(q, v, P.col[q].c, ColVec(P, q))
  }

  function DivBound(b: Bound, d: real): Bound
    requires d != 0.0
  {
    if b.Inf? then Inf else Fin(b.v / d)
  }

  /** Bounds of x[q] implied by a row a[p,q] * x[q] with range r. */
  function ImpliedRange(r: Range, apq: real): Range
    requires apq != 0.0
  {
    if apq > 0.0 then Range(DivBound(r.lb, apq), DivBound(r.ub, apq))
    else Range(DivBound(r.ub, apq), DivBound(r.lb, apq))
  }

  predicate LbTightens(own: Range, imp: Range) {
    imp.lb.Fin? && (own.lb.Fin? ==> own.lb.v < imp.lb.v)
  }

  predicate UbTightens(own: Range, imp: Range) {
    imp.ub.Fin? && (own.ub.Fin? ==> imp.ub.v < own.ub.v)
  }

  function Tighten(own: Range, imp: Range): Range {
    Range(if LbTightens(own, imp) then imp.lb else own.lb,
          if UbTightens(own, imp) then imp.ub else own.ub)
  }

  /** Range of the row when a[p,q] * x[q] becomes its slack; see the formulae (5) and (6) of the section on
      implied slack variables. */
  function SlackRange(r: Range, rhs: real, apq: real): Range {
    var atLb := if r.lb.Inf? then Inf else Fin(rhs - apq * r.lb.v);
    var atUb := if r.ub.Inf? then Inf else Fin(rhs - apq * r.ub.v);
    if apq > 0.0 then Range(atUb, atLb) else Range(atLb, atUb)
  }

  /** Column j after the slack with cost c has been substituted into the objective; see the formula (9). */
  function SlackedCol(P: LP, p: int, apq: real, c: real, j: int): Column
    requires j in P.col && apq != 0.0
  {
    P.col[j].(c := P.col[j].c - c * (At(P.a, p, j) / apq))
  }

  /** Drop the implied slack column q of row p. */
  function SlackProblem(P: LP, p: int, q: int): LP
    requires p in P.row && q in P.col && P.row[p].Fixed() && (p, q) in P.a && P.a[(p, q)] != 0.0
  {
    var apq, rhs, c := P.a[(p, q)], P.row[p].lb.v, P.col[q].c;
    var R := RemoveCol(P, q);
    R.(row := P.row[p := SlackRange(P.col[q].rng, rhs, apq)],
       col := map j | j in R.col :: SlackedCol(P, p, apq, c, j),
       c0 := P.c0 + c * (rhs / apq))
  }

  // ----- forcing rows

  /** With at = 0 the row is stuck at its lower bound and every x[j] at the end that makes the row largest;
      with at = 1 the other way round. */
  predicate ForcedLow(val: real, at: int) {
    (at == 0 && val < 0.0) || (at != 0 && val > 0.0)
  }

  function ForcedBound(r: Range, val: real, at: int): Bound {
    if ForcedLow(val, at) then r.lb else r.ub
  }

  function ForcedVal(r: Range, val: real, at: int): real {
    var b := ForcedBound(r, val, at);
    if b.Fin? then b.v else 0.0
  }

  function ForcedF(P: LP, p: int, at: int): int -> real {
    (j: int) => if (p, j) in P.a && j in P.col then P.a[(p, j)] * ForcedVal(P.col[j].rng, P.a[(p, j)], at) else 0.0
  }

  /** The extreme value of row p over the box of its columns (largest for at = 0, smallest for at = 1),
      meaningful when `ForcedFin`. */
  function ForcedSum(P: LP, p: int, at: int): real {
    Sum(ForcedF(P, p, at), P.n)
  }

  predicate ForcedFin(P: LP, p: int, at: int) {
    forall k <- P.a :: k.0 == p ==> k.1 in P.col && ForcedBound(P.col[k.1].rng, P.a[k], at).Fin?
  }

  function RowBound(r: Range, at: int): Bound {
    if at == 0 then r.lb else r.ub
  }

  /** Row p can only be satisfied with all its columns at the forced bounds. */
  predicate Forces(P: LP, p: int, at: int) {
    && p in P.row && (at == 0 || at == 1)
    && RowBound(P.row[p], at).Fin?
    && ForcedFin(P, p, at)
    && ForcedSum(P, p, at) == RowBound(P.row[p], at).v
  }

  function ForceCol(P: LP, p: int, at: int, j: int): Column
    requires j in P.col
  {
    if (p, j) in P.a then P.col[j].(rng := FixAt(ForcedVal(P.col[j].rng, P.a[(p, j)], at))) else P.col[j]
  }

  /** Remove row p and fix its columns where it forces them. */
  function ForceProblem(P: LP, p: int, at: int): LP {
    RemoveRow(P, p).(col := map j | j in P.col :: ForceCol(P, p, at, j))
  }

  /** The list saved for a forcing row names exactly the columns of the row, once each. */
  ghost predicate LfxOf(P: LP, p: int, at: int, l: seq<Lfx>) {
    && (forall k :: 0 <= k < |l| ==>
          && (p, l[k].ref) in P.a && l[k].val == P.a[(p, l[k].ref)]
          && l[k].flag == if ForcedLow(l[k].val, at) then NL else NU)
    && (forall j :: (p, j) in P.a ==> exists k :: 0 <= k < |l| && l[k].ref == j)
    && (forall k, k' :: 0 <= k < k' < |l| ==> l[k].ref != l[k'].ref)
  }

  function ForceStat(r: Range, at: int): Stat {
    if r.Fixed() then NS else if at == 0 then NL else NU
  }

  // ----- basic facts

  lemma AtDropRow(a: Matrix, p: int, i: int, j: int)
    ensures At(DropRow(a, p), i, j) == if i == p then 0.0 else At(a, i, j)
  {
  }

  lemma AtDropCol(a: Matrix, q: int, i: int, j: int)
    ensures At(DropCol(a, q), i, j) == if j == q then 0.0 else At(a, i, j)
  {
  }

  lemma RemoveRowFacts(P: LP, p: int)
    requires WellFormed(P)
    ensures WellFormed(RemoveRow(P, p))
    ensures p in P.row ==> |RemoveRow(P, p).row.Keys| == |P.row.Keys| - 1
    ensures forall i, j :: At(RemoveRow(P, p).a, i, j) == if i == p then 0.0 else At(P.a, i, j)
  {
    assert RemoveRow(P, p).row.Keys == P.row.Keys - {p};
  }

  lemma RemoveColFacts(P: LP, q: int)
    requires WellFormed(P)
    ensures WellFormed(RemoveCol(P, q))
    ensures forall i, j :: At(RemoveCol(P, q).a, i, j) == if j == q then 0.0 else At(P.a, i, j)
  {
  }

  lemma SubstColFacts(P: LP, q: int, v: real)
    requires WellFormed(P) && q in P.col
    ensures WellFormed(SubstCol(P, q, v))
    ensures SubstCol(P, q, v).row.Keys == P.row.Keys
    ensures forall i, j :: At(SubstCol(P, q, v).a, i, j) == if j == q then 0.0 else At(P.a, i, j)
  {
    RemoveColFacts(P, q);
    var R := SubstCol(P, q, v);
    forall i | i in R.row ensures 0 <= i < R.m && R.row[i].Ordered() {
      assert R.row[i] == ShiftedRow(P, q, v, i);
    }
  }

  lemma SlackRangeOrdered(r: Range, rhs: real, apq: real)
    requires r.Ordered() && apq != 0.0
    ensures SlackRange(r, rhs, apq).Ordered()
  {
    if r.lb.Fin? && r.ub.Fin? {
      if apq > 0.0 {
        MulMono(apq, r.lb.v, r.ub.v);
      } else {
        MulMono(-apq, r.lb.v, r.ub.v);
      }
    }
  }

  lemma SlackFacts(P: LP, p: int, q: int)
    requires WellFormed(P)
    requires p in P.row && q in P.col && P.row[p].Fixed() && (p, q) in P.a && P.a[(p, q)] != 0.0
    ensures WellFormed(SlackProblem(P, p, q))
    ensures SlackProblem(P, p, q).row.Keys == P.row.Keys
    ensures SlackProblem(P, p, q).col.Keys == P.col.Keys - {q}
    ensures forall i, j :: At(SlackProblem(P, p, q).a, i, j) == if j == q then 0.0 else At(P.a, i, j)
  {
    RemoveColFacts(P, q);
    SlackRangeOrdered(P.col[q].rng, P.row[p].lb.v, P.a[(p, q)]);
  }

  lemma ForceFacts(P: LP, p: int, at: int)
    requires WellFormed(P) && p in P.row
    ensures WellFormed(ForceProblem(P, p, at))
    ensures |ForceProblem(P, p, at).row.Keys| == |P.row.Keys| - 1
    ensures ForceProblem(P, p, at).col.Keys == P.col.Keys
    ensures forall i, j :: At(ForceProblem(P, p, at).a, i, j) == if i == p then 0.0 else At(P.a, i, j)
  {
    RemoveRowFacts(P, p);
  }

  lemma RowActEq(P: LP, i: int, x: seq<real>, P': LP, x': seq<real>)
    requires P.n == P'.n
    requires forall j :: 0 <= j < P.n ==> RowF(P.a, i, x)(j) == RowF(P'.a, i, x')(j)
    ensures RowAct(P, i, x) == RowAct(P', i, x')
  {
    SumCong(RowF(P.a, i, x), RowF(P'.a, i, x'), P.n);
  }

  /** Activities that differ only in the term of column q. */
  lemma RowActOne(P: LP, i: int, x: seq<real>, P': LP, x': seq<real>, q: int)
    requires P.n == P'.n && 0 <= q < P.n
    requires forall j :: 0 <= j < P.n && j != q ==> RowF(P.a, i, x)(j) == RowF(P'.a, i, x')(j)
    ensures RowAct(P, i, x) == RowAct(P', i, x') + RowF(P.a, i, x)(q) - RowF(P'.a, i, x')(q)
  {
    SumOne(RowF(P.a, i, x), RowF(P'.a, i, x'), P.n, q);
  }

  lemma RowActSingle(P: LP, p: int, q: int, x: seq<real>)
    requires WellFormed(P) && SingleInRow(P, p, q)
    ensures RowAct(P, p, x) == P.a[(p, q)] * Val(x, q)
  {
    SumSingle(RowF(P.a, p, x), P.n, q);
  }

  lemma ColActEq(P: LP, j: int, y: seq<real>, P': LP, y': seq<real>)
    requires P.m == P'.m
    requires forall i :: 0 <= i < P.m ==> ColF(P.a, j, y)(i) == ColF(P'.a, j, y')(i)
    ensures ColAct(P, j, y) == ColAct(P', j, y')
  {
    SumCong(ColF(P.a, j, y), ColF(P'.a, j, y'), P.m);
  }

  /** Column products that differ only in the term of row p. */
  lemma ColActOne(P: LP, j: int, y: seq<real>, P': LP, y': seq<real>, p: int)
    requires P.m == P'.m && 0 <= p < P.m
    requires forall i :: 0 <= i < P.m && i != p ==> ColF(P.a, j, y)(i) == ColF(P'.a, j, y')(i)
    ensures ColAct(P, j, y) == ColAct(P', j, y') + ColF(P.a, j, y)(p) - ColF(P'.a, j, y')(p)
  {
    SumOne(ColF(P.a, j, y), ColF(P'.a, j, y'), P.m, p);
  }

  lemma ColActSingle(P: LP, p: int, q: int, y: seq<real>)
    requires WellFormed(P) && SingleInCol(P, p, q)
    ensures ColAct(P, q, y) == P.a[(p, q)] * Val(y, p)
  {
    SumSingle(ColF(P.a, q, y), P.m, p);
  }

  lemma ColActEmpty(P: LP, q: int, y: seq<real>)
    requires EmptyColAt(P, q)
    ensures ColAct(P, q, y) == 0.0
  {
    SumZero(ColF(P.a, q, y), P.m);
  }

  lemma RowActEmpty(P: LP, p: int, x: seq<real>)
    requires EmptyRowAt(P, p)
    ensures RowAct(P, p, x) == 0.0
  {
    SumZero(RowF(P.a, p, x), P.n);
  }

  lemma RowVecDot(P: LP, p: int, x: seq<real>)
    requires WellFormed(P) && |x| == P.n
    ensures Dot(RowVec(P, p), x) == RowAct(P, p, x)
  {
    SumCong(VecF(RowVec(P, p), x), RowF(P.a, p, x), P.n);
  }

  lemma ColVecDot(P: LP, q: int, y: seq<real>)
    requires WellFormed(P) && |y| == P.m
    ensures Dot(ColVec(P, q), y) == ColAct(P, q, y)
  {
    SumCong(VecF(ColVec(P, q), y), ColF(P.a, q, y), P.m);
  }
}
