/** inv_update on the arrays of the factorization, and FTRAN around it. */
module InvMain {
  import opened Collections
  import opened Sums
  import opened InvEta
  import opened InvLists
  import opened InvUpdate

  /** Column c of V once column j has been replaced by cc. */
  ghost function NewCol(v0: Vmat, j: int, cc: Sparse, c: int): (x: seq<real>)
    requires VShape(v0) && 0 <= c < |v0.qrow|
    ensures |x| == |v0.rows|
  {
    if c == j then Dense(cc, |v0.rows|) else VCol(v0, c)
  }

  /** State of the update before the elimination: column j replaced, positions shifted, row i moved to w0. */
  ghost predicate Taken(v0: Vmat, j: int, cc: Sparse, k2: int, i: int, rows2: seq<Sparse>, v1: Vmat, w0: seq<real>) {
    && VShape(v0) && VShape(v1) && |v1.rows| == |v0.rows| && |rows2| == |v0.rows|
    && 0 <= j < |v0.rows| && 0 <= i < |v0.rows|
    && (forall p :: 0 <= p < |rows2| ==>
          rows2[p] == if p in cc then (v0.rows[p] - {j})[j := cc[p]] else v0.rows[p] - {j})
    && v1.rows == rows2[i := map[]] && v1.piv == v0.piv && w0 == Dense(rows2[i], |v0.rows|)
    && 0 <= v0.pcol[i] == v0.qrow[j] <= k2 < |v0.rows|
    && ShiftedPos(v0.qrow[j], k2, v0.pcol, v1.pcol) && ShiftedPos(v0.qrow[j], k2, v0.qrow, v1.qrow)
    && forall p :: p in cc ==> 0 <= p < |v0.rows| && v0.pcol[p] <= k2
  }

  lemma SameRow(v0: Vmat, i: int, p: int)
    requires Perm(v0.prow, v0.pcol) && 0 <= i < |v0.pcol| && 0 <= p < |v0.pcol|
    ensures v0.pcol[p] == v0.pcol[i] ==> p == i
  {
    assert v0.prow[v0.pcol[p]] == p && v0.prow[v0.pcol[i]] == i;
  }

  /** The rows that are not transformed keep their elements. */
  lemma OtherRows(v0: Vmat, j: int, cc: Sparse, k2: int, i: int, rows2: seq<Sparse>, v1: Vmat, w0: seq<real>, p: int, c: int)
    requires Taken(v0, j, cc, k2, i, rows2, v1, w0) && Perm(v0.prow, v0.pcol) && Perm(v0.qcol, v0.qrow)
    requires 0 <= p < |v0.rows| && p != i && 0 <= c < |v0.rows|
    ensures VEnt(v1, p, c) == NewCol(v0, j, cc, c)[p]
  {
    SameRow(v0, i, p);
    SamePosition(v0.qcol, v0.qrow, c, j);
  }

  lemma TakenRow(v0: Vmat, j: int, cc: Sparse, k2: int, i: int, rows2: seq<Sparse>, v1: Vmat, w0: seq<real>, c: int)
    requires Taken(v0, j, cc, k2, i, rows2, v1, w0) && Perm(v0.qcol, v0.qrow) && 0 <= c < |v0.rows|
    ensures w0[c] == NewCol(v0, j, cc, c)[i]
  {
    SamePosition(v0.qcol, v0.qrow, c, j);
  }

  lemma ElemsAbove(v0: Vmat, j: int, cc: Sparse, k2: int, i: int, rows2: seq<Sparse>, v1: Vmat, w0: seq<real>, p: int, c: int)
    requires Taken(v0, j, cc, k2, i, rows2, v1, w0) && VOk(v0) && 0 <= p < |v0.rows| && 0 <= c < |v0.rows| && c in v1.rows[p]
    ensures v1.pcol[p] < v1.qrow[c]
  {
    hide Agree;
    SameRow(v0, i, p);
    SamePosition(v0.qcol, v0.qrow, c, j);
    ShiftedUpper(v0.rows, rows2, v0.pcol, v0.qrow, v1.pcol, v1.qrow, j, cc, v0.qrow[j], k2, p, c);
  }

  lemma TakenUpper(v0: Vmat, j: int, cc: Sparse, k2: int, i: int, rows2: seq<Sparse>, v1: Vmat, w0: seq<real>)
    requires Taken(v0, j, cc, k2, i, rows2, v1, w0) && VOk(v0)
    ensures Upper(v1.rows, v1.pcol, v1.qrow)
  {
    hide VOk, Taken;
    TakenShape(v0, j, cc, k2, i, rows2, v1, w0);
    forall p, c | 0 <= p < |v1.rows| && 0 <= c < |v1.qrow| && c in v1.rows[p] ensures v1.pcol[p] < v1.qrow[c] {
      ElemsAbove(v0, j, cc, k2, i, rows2, v1, w0, p, c);
    }
  }

  lemma TakenShape(v0: Vmat, j: int, cc: Sparse, k2: int, i: int, rows2: seq<Sparse>, v1: Vmat, w0: seq<real>)
    requires Taken(v0, j, cc, k2, i, rows2, v1, w0)
    ensures VShape(v0) && VShape(v1) && |v1.rows| == |v0.rows| == |rows2| == |w0|
    ensures 0 <= i < |v0.rows| && 0 <= j < |v0.rows| && v1.piv == v0.piv && v1.rows == rows2[i := map[]]
    ensures v1.pcol[i] == k2 == v1.qrow[j] && 0 <= k2 < |v0.rows|
  {
  }

  /** Row i has no element to the left of position k1: its elements were to the right of k1 before the shift, or in the
      new column. */
  lemma TakenLeft(v0: Vmat, j: int, cc: Sparse, k2: int, i: int, rows2: seq<Sparse>, v1: Vmat, w0: seq<real>, c: int)
    requires Taken(v0, j, cc, k2, i, rows2, v1, w0) && VOk(v0) && 0 <= c < |w0| && v1.qrow[c] < v0.qrow[j]
    ensures w0[c] == 0.0
  {
    hide VOk, Taken;
    TakenAt(v0, j, cc, k2, i, rows2, v1, w0, c);
    if c in rows2[i] {
      ElemsRight(v0, j, cc, k2, i, rows2, v1, w0, c);
    }
  }

  lemma TakenAt(v0: Vmat, j: int, cc: Sparse, k2: int, i: int, rows2: seq<Sparse>, v1: Vmat, w0: seq<real>, c: int)
    requires Taken(v0, j, cc, k2, i, rows2, v1, w0) && 0 <= c < |w0|
    ensures 0 <= i < |rows2| && |w0| == |v0.rows| && w0[c] == At(rows2[i], c)
  {
  }

  lemma ElemsRight(v0: Vmat, j: int, cc: Sparse, k2: int, i: int, rows2: seq<Sparse>, v1: Vmat, w0: seq<real>, c: int)
    requires Taken(v0, j, cc, k2, i, rows2, v1, w0) && VOk(v0) && 0 <= c < |v0.rows| && c in rows2[i]
    ensures v1.qrow[c] >= v0.qrow[j]
  {
    hide Agree, Perm;
    if c != j {
      assert c in v0.rows[i];
      assert v0.pcol[i] < v0.qrow[c];
    }
  }

  // ----- the transformed row

  /** V with the transformed row stored, its new pivot, and what was dropped from it. */
  ghost predicate Stored(v1: Vmat, i: int, j: int, k2: int, work: seq<real>, eps: real, vn: Vmat, d: seq<real>) {
    && VShape(v1) && VShape(vn) && |vn.rows| == |v1.rows| == |work| == |d| && 0 <= i < |v1.rows| && 0 <= j < |v1.rows|
    && vn.pcol == v1.pcol && vn.qrow == v1.qrow && vn.piv == v1.piv[i := work[j]]
    && vn.rows == v1.rows[i := vn.rows[i]] && RowStored(v1.qrow, work, eps, k2, |v1.qrow|, vn.rows[i])
    && v1.pcol[i] == k2 == v1.qrow[j]
    && forall c :: 0 <= c < |d| ==> d[c] == if v1.qrow[c] > k2 && Abs(work[c]) < eps then work[c] else 0.0
  }

  lemma StoredElement(v1: Vmat, i: int, j: int, k2: int, work: seq<real>, eps: real, vn: Vmat, d: seq<real>, c: int)
    requires Stored(v1, i, j, k2, work, eps, vn, d) && Perm(v1.qcol, v1.qrow) && 0 <= c < |work|
    ensures VEnt(vn, i, c) + d[c] == if v1.qrow[c] >= k2 then work[c] else 0.0
  {
    SamePosition(v1.qcol, v1.qrow, c, j);
    assert 0 <= v1.qrow[c] < |v1.qrow|;
    assert c in vn.rows[i] <==> Kept(v1.qrow, work, eps, k2, |v1.qrow|, c);
  }

  lemma StoredOther(v1: Vmat, i: int, j: int, k2: int, work: seq<real>, eps: real, vn: Vmat, d: seq<real>, p: int, c: int)
    requires Stored(v1, i, j, k2, work, eps, vn, d) && 0 <= p < |work| && p != i && 0 <= c < |work|
    ensures VEnt(vn, p, c) == VEnt(v1, p, c)
  {
  }

  ghost predicate OffRow(x: seq<real>, y: seq<real>, i: int) {
    |x| == |y| && 0 <= i < |x| && forall p :: 0 <= p < |x| && p != i ==> x[p] == y[p]
  }

  lemma DotOff(f: Sparse, x: seq<real>, y: seq<real>, i: int)
    requires i !in f && OffRow(x, y, i)
    ensures Dot(f, x) == Dot(f, y)
  {
    hide Raised;
    ZeroTimes(x[i]);
    ZeroTimes(y[i]);
    forall p | 0 <= p < |x| ensures DotF(f, x)(p) == DotF(f, y)(p) {
    }
    SumCong(DotF(f, x), DotF(f, y), |x|);
  }

  /** The new factor applied to the transformed row gives back the row it was made from. */
  lemma FactorRestores(g: Factor, x: seq<real>, y: seq<real>, z: seq<real>)
    requires FactorOk(g, |x|) && OffRow(x, y, g.row) && OffRow(x, z, g.row) && x[g.row] == z[g.row] - Dot(g.f, y)
    ensures Mul(g, x) == z
  {
    hide Dot;
    DotOff(g.f, x, y, g.row);
  }

  /** Column c: the new factor times the new column (with what was dropped) is the column of V with column j replaced. */
  lemma ColumnRestored(v0: Vmat, j: int, cc: Sparse, k2: int, i: int, rows2: seq<Sparse>, v1: Vmat, w0: seq<real>, f: Sparse,
                       work: seq<real>, eps: real, vn: Vmat, d: seq<real>, c: int)
    requires Taken(v0, j, cc, k2, i, rows2, v1, w0) && VOk(v0) && Perm(v1.qcol, v1.qrow) && Stored(v1, i, j, k2, work, eps, vn, d)
    requires |w0| == |work| && VShape(v1) && VShape(vn) && |vn.rows| == |v1.rows| == |work| == |v0.rows| && |d| == |work|
    requires Eliminated(v1, w0, f, k2, work) && FactorOk(Factor(i, f), |v0.rows|) && 0 <= c < |w0| && 0 <= i < |w0|
    ensures Mul(Factor(i, f), Raised(VCol(vn, c), i, d[c])) == NewCol(v0, j, cc, c)
  {
    hide Taken, VOk, Stored, Dot, VEnt, NewCol;
    VOkPerms(v0);
    var x, y, z := Raised(VCol(vn, c), i, d[c]), VCol(v1, c), NewCol(v0, j, cc, c);
    forall p | 0 <= p < |x| && p != i ensures x[p] == y[p] && x[p] == z[p] {
      StoredOther(v1, i, j, k2, work, eps, vn, d, p, c);
      OtherRows(v0, j, cc, k2, i, rows2, v1, w0, p, c);
    }
    StoredElement(v1, i, j, k2, work, eps, vn, d, c);
    TakenRow(v0, j, cc, k2, i, rows2, v1, w0, c);
    FactorRestores(Factor(i, f), x, y, z);
  }

  lemma VOkPerms(v: Vmat)
    requires VOk(v)
    ensures Perm(v.prow, v.pcol) && Perm(v.qcol, v.qrow) && VShape(v)
  {
  }

  // ----- singular updates

  /** The columns at positions 0..k1 of the updated matrix have all their non-zeros in the rows at positions 0..k1-1. */
  ghost predicate StructurallySingular(v0: Vmat, j: int, cc: Sparse)
    requires VShape(v0) && 0 <= j < |v0.qrow|
  {
    forall c, p :: 0 <= c < |v0.qrow| && 0 <= p < |v0.pcol| && v0.qrow[c] <= v0.qrow[j] && NewCol(v0, j, cc, c)[p] != 0.0 ==>
      v0.pcol[p] < v0.qrow[j]
  }

  lemma TooHigh(v0: Vmat, j: int, cc: Sparse, k2: int)
    requires VShape(v0) && Upper(v0.rows, v0.pcol, v0.qrow) && Perm(v0.qcol, v0.qrow) && 0 <= j < |v0.qrow|
    requires (forall i :: i in cc ==> 0 <= i < |v0.pcol| && v0.pcol[i] <= k2) && k2 < v0.qrow[j]
    ensures StructurallySingular(v0, j, cc)
  {
    forall c, p | 0 <= c < |v0.qrow| && 0 <= p < |v0.pcol| && v0.qrow[c] <= v0.qrow[j] && NewCol(v0, j, cc, c)[p] != 0.0
      ensures v0.pcol[p] < v0.qrow[j]
    {
      SamePosition(v0.qcol, v0.qrow, c, j);
      if c != j {
        assert NewCol(v0, j, cc, c)[p] == VEnt(v0, p, c);
      }
    }
  }

  // ----- steps of the update

  lemma PosBound(v: Vmat)
    requires VOk(v)
    ensures forall p :: 0 <= p < |v.pcol| ==> 0 <= v.pcol[p] < |v.pcol|
    ensures Agree(v.rows, v.cols) && VShape(v)
  {
  }

  lemma PermItem(at: seq<int>, pos: seq<int>, x: int)
    requires Perm(at, pos) && 0 <= x < |pos|
    ensures 0 <= pos[x] < |at| == |pos| && at[pos[x]] == x
  {
  }

  lemma VOkAgree(v: Vmat)
    requires VOk(v)
    ensures Agree(v.rows, v.cols)
  {
  }

  lemma VOkUpper(v: Vmat)
    requires VOk(v)
    ensures Upper(v.rows, v.pcol, v.qrow)
  {
  }

  lemma AgreeRange(rows: seq<Sparse>, cols: seq<Sparse>)
    requires Agree(rows, cols)
    ensures forall p, c :: 0 <= p < |rows| && c in rows[p] ==> 0 <= c < |rows|
  {
  }

  lemma EliminateReady(v0: Vmat, j: int, cc: Sparse, k2: int, i: int, rows2: seq<Sparse>, v1: Vmat, w0: seq<real>)
    requires Taken(v0, j, cc, k2, i, rows2, v1, w0) && VOk(v0)
    ensures |v1.rows| == |v1.piv| == |v0.rows| == |w0| == |v1.qrow| && 0 <= j < |v0.qrow|
    ensures forall p :: 0 <= p < |v1.piv| ==> v1.piv[p] != 0.0
    ensures forall c :: 0 <= c < |w0| && v1.qrow[c] < v0.qrow[j] ==> w0[c] == 0.0
  {
    hide Taken, VOk;
    TakenShape(v0, j, cc, k2, i, rows2, v1, w0);
    VOkPivots(v0);
    forall c | 0 <= c < |w0| && v1.qrow[c] < v0.qrow[j] ensures w0[c] == 0.0 {
      TakenLeft(v0, j, cc, k2, i, rows2, v1, w0, c);
    }
  }

  lemma VOkPivots(v: Vmat)
    requires VOk(v)
    ensures forall p :: 0 <= p < |v.piv| ==> v.piv[p] != 0.0
  {
  }

  lemma NewFactorOk(f: Sparse, pcol: seq<int>, k1: int, k2: int, i: int)
    requires FactorRows(f, pcol, k1, k2) && 0 <= i < |pcol| && pcol[i] == k2
    ensures FactorOk(Factor(i, f), |pcol|)
  {
  }

  /** The eta file after the update: a factor without elements is discarded. */
  ghost function Extended(hh: seq<Factor>, f: Sparse, i: int): seq<Factor> {
    if f == map[] then hh else hh + [Factor(i, f)]
  }

  lemma FileGrows(hh: seq<Factor>, f: Sparse, i: int, m: nat)
    requires FileOk(hh, m) && FactorOk(Factor(i, f), m)
    ensures FileOk(Extended(hh, f, i), m)
  {
    hide FactorOk;
  }

  lemma FileApplies(hh: seq<Factor>, f: Sparse, i: int, x: seq<real>)
    requires FileOk(hh, |x|) && FactorOk(Factor(i, f), |x|)
    ensures FileOk(Extended(hh, f, i), |x|)
    ensures HMul(Extended(hh, f, i), x) == HMul(hh, Mul(Factor(i, f), x))
  {
    hide FileOk, HMul, FactorOk;
    FileGrows(hh, f, i, |x|);
    if f == map[] {
      MulTrivial(Factor(i, f), x);
    } else {
      HMulLast(hh, Factor(i, f), x);
    }
  }

  lemma MulTrivial(g: Factor, x: seq<real>)
    requires FactorOk(g, |x|) && g.f == map[]
    ensures Mul(g, x) == x
  {
    DotNone(x);
  }

  function DroppedAt(qrow: seq<int>, work: seq<real>, eps: real, k2: int, c: int): real
    requires |qrow| == |work|
  {
    if 0 <= c < |work| && qrow[c] > k2 && Abs(work[c]) < eps then work[c] else 0.0
  }

  /** The elements of the transformed row that are not stored. */
  ghost function Dropped(qrow: seq<int>, work: seq<real>, eps: real, k2: int): (d: seq<real>)
    requires |qrow| == |work|
    ensures |d| == |work| && forall c :: 0 <= c < |d| ==> d[c] == DroppedAt(qrow, work, eps, k2, c)
    ensures forall c :: 0 <= c < |d| ==> Abs(d[c]) < eps || d[c] == 0.0
  {
    seq(|work|, (c: int) => DroppedAt(qrow, work, eps, k2, c))
  }

  lemma StoredIntro(v1: Vmat, i: int, j: int, k2: int, work: seq<real>, eps: real, vn: Vmat, d: seq<real>)
    requires VShape(v1) && VShape(vn) && |vn.rows| == |v1.rows| == |work| && 0 <= i < |v1.rows| && 0 <= j < |v1.rows|
    requires vn.pcol == v1.pcol && vn.qrow == v1.qrow && vn.piv == v1.piv[i := work[j]] && vn.rows == v1.rows[i := vn.rows[i]]
    requires RowStored(v1.qrow, work, eps, k2, |v1.qrow|, vn.rows[i]) && v1.pcol[i] == k2 == v1.qrow[j]
    requires d == Dropped(v1.qrow, work, eps, k2)
    ensures Stored(v1, i, j, k2, work, eps, vn, d)
  {
    hide RowStored;
  }

  lemma NoSmallStored(qrow: seq<int>, work: seq<real>, eps: real, k2: int, row: Sparse)
    requires RowStored(qrow, work, eps, k2, |work|, row)
    ensures NoneSmall(row, eps)
  {
  }

  ghost predicate NoneSmall(row: Sparse, eps: real) {
    forall c :: c in row ==> row[c] >= eps || row[c] <= -eps
  }

  /** With the new factor in the file every column of the new H*V is what it has to be. */
  lemma AllRestored(v0: Vmat, j: int, cc: Sparse, k2: int, i: int, rows2: seq<Sparse>, v1: Vmat, w0: seq<real>, f: Sparse,
                    work: seq<real>, eps: real, vn: Vmat, d: seq<real>, hh: seq<Factor>)
    requires Taken(v0, j, cc, k2, i, rows2, v1, w0) && VOk(v0) && Perm(v1.qcol, v1.qrow) && Stored(v1, i, j, k2, work, eps, vn, d)
    requires |w0| == |work| && VShape(v1) && VShape(vn) && |vn.rows| == |v1.rows| == |work| == |v0.rows| && |d| == |work|
    requires Eliminated(v1, w0, f, k2, work) && FactorOk(Factor(i, f), |v0.rows|) && 0 <= i < |w0| && FileOk(hh, |w0|)
    requires VShape(v0) && 0 <= j < |w0|
    ensures FileOk(Extended(hh, f, i), |w0|)
    ensures forall c :: 0 <= c < |w0| ==> HMul(Extended(hh, f, i), Raised(VCol(vn, c), i, d[c])) == HMul(hh, NewCol(v0, j, cc, c))
  {
    hide VOk, FileOk, Taken, Stored, Eliminated, Perm, HMul, NewCol, FactorOk;
    FileGrows(hh, f, i, |w0|);
    forall c | 0 <= c < |w0| ensures HMul(Extended(hh, f, i), Raised(VCol(vn, c), i, d[c])) == HMul(hh, NewCol(v0, j, cc, c)) {
      ColumnRestored(v0, j, cc, k2, i, rows2, v1, w0, f, work, eps, vn, d, c);
      FileApplies(hh, f, i, Raised(VCol(vn, c), i, d[c]));
    }
  }

  /** The updated V is in order again. */
  lemma UpdatedOk(v0: Vmat, j: int, cc: Sparse, k2: int, i: int, rows2: seq<Sparse>, v1: Vmat, w0: seq<real>, work: seq<real>,
                  eps: real, vn: Vmat, d: seq<real>)
    requires Taken(v0, j, cc, k2, i, rows2, v1, w0) && VOk(v0) && Stored(v1, i, j, k2, work, eps, vn, d)
    requires Perm(v1.prow, v1.pcol) && Perm(v1.qcol, v1.qrow) && Agree(v1.rows, v1.cols) && Upper(v1.rows, v1.pcol, v1.qrow)
    requires VShape(v1) && VShape(vn) && |vn.rows| == |v1.rows| == |work| && 0 <= i < |v1.rows| && 0 <= j < |work|
    requires vn.prow == v1.prow && vn.qcol == v1.qcol && WithRow(v1.cols, i, vn.rows[i], vn.cols) && work[j] != 0.0
    ensures VOk(vn)
  {
    hide Taken, Perm, Agree, WithRow;
    TakenShape(v0, j, cc, k2, i, rows2, v1, w0);
    VOkPivots(v0);
    var row := vn.rows[i];
    forall c | c in row ensures 0 <= c < |work| && k2 < v1.qrow[c] {
      assert Kept(v1.qrow, work, eps, k2, |v1.qrow|, c);
    }
    StoredAgree(v1.rows, v1.cols, i, row, vn.cols);
  }

  // ----- the factorization

  class Inv {
    const m: nat
    const hhMax: nat
    const epsTol: real
    const updTol: real
    var valid: bool
    const vr: array<Sparse>
    const vc: array<Sparse>
    const piv: array<real>
    const prow: array<int>
    const pcol: array<int>
    const qrow: array<int>
    const qcol: array<int>
    var hh: seq<Factor>
    var cc: Column

    ghost predicate Shape() {
      && vr.Length == vc.Length == piv.Length == prow.Length == pcol.Length == qrow.Length == qcol.Length == m
      && vr != vc && prow != pcol && prow != qrow && prow != qcol && pcol != qrow && pcol != qcol && qrow != qcol
      && updTol > 0.0
    }

    ghost function Arrays(): set<object> {
      {vr as object, vc as object, piv as object, prow as object, pcol as object, qrow as object, qcol as object}
    }

    ghost function V(): (v: Vmat)
      requires Shape()
      reads vr, vc, piv, prow, pcol, qrow, qcol
      ensures VShape(v) && |v.rows| == m
    {
      Vmat(vr[..], vc[..], piv[..], prow[..], pcol[..], qrow[..], qcol[..])
    }

    ghost predicate Valid()
      reads this, Arrays()
    {
      && Shape() && valid && VOk(V()) && FileOk(hh, m) && epsTol >= 0.0
      && (cc.Prepared? ==> forall i :: i in cc.v ==> 0 <= i < m)
    }

    /** Replace column j of the lists by the prepared column. */
    method ReplaceColumn(j: int, col: Sparse) returns (k2: int)
      requires Shape() && VOk(V()) && 0 <= j < m && forall i :: i in col ==> 0 <= i < m
      modifies vr, vc
      ensures Replaced(old(vr[..]), old(vc[..]), j, col, vr[..], vc[..])
      ensures -1 <= k2 < m && forall i :: i in col ==> pcol[i] <= k2
      ensures k2 >= 0 ==> exists i :: i in col && pcol[i] == k2
    {
      ghost var v0 := V();
      PosBound(v0);
      RemoveColumn(vr, vc, j);
      k2 := AddColumn(vr, vc, j, col, pcol);
    }

    /** The permutations after the cyclic shift of positions k1..k2. */
    method ShiftBoth(k1: int, k2: int)
      requires Shape() && 0 <= k1 <= k2 < m && Perm(prow[..], pcol[..]) && Perm(qcol[..], qrow[..])
      modifies prow, pcol, qrow, qcol
      ensures Perm(prow[..], pcol[..]) && Perm(qcol[..], qrow[..])
      ensures ShiftedPos(k1, k2, old(pcol[..]), pcol[..]) && ShiftedPos(k1, k2, old(qrow[..]), qrow[..])
    {
      hide Perm, ShiftedPos;
      ShiftPositions(prow, pcol, k1, k2);
      ShiftPositions(qcol, qrow, k1, k2);
    }

    /** From the replaced column to the row that has to be transformed. */
    method Prepare(j: int, k2: int, ghost col: Sparse, ghost v0: Vmat)
      returns (i: int, work: array<real>, ghost rows2: seq<Sparse>)
      requires Shape() && VOk(v0) && |v0.rows| == m && 0 <= j < m && v0.qrow[j] <= k2 < m
      requires V() == v0.(rows := vr[..], cols := vc[..]) && Replaced(v0.rows, v0.cols, j, col, vr[..], vc[..])
      requires forall p :: p in col ==> 0 <= p < m && v0.pcol[p] <= k2
      modifies vr, vc, prow, pcol, qrow, qcol
      ensures fresh(work) && work.Length == m && 0 <= i < m && piv[..] == old(piv[..])
      ensures v0.prow[v0.qrow[j]] == i && v0.pcol[i] == v0.qrow[j]
      ensures Taken(v0, j, col, k2, i, rows2, V(), work[..])
      ensures Perm(prow[..], pcol[..]) && Perm(qcol[..], qrow[..]) && Agree(vr[..], vc[..])
    {
      hide Perm, Agree, ShiftedPos, Upper, WithoutRow;
      var k1 := qrow[j];
      VOkPerms(v0);
      PermItem(v0.qcol, v0.qrow, j);
      PermAt(v0.prow, v0.pcol, k1);
      i := prow[k1];
      rows2 := vr[..];
      VOkAgree(v0);
      ReplacedAgree(v0.rows, v0.cols, j, col, vr[..], vc[..]);
      ghost var cols2 := vc[..];
      ShiftBoth(k1, k2);
      work := TakeRow(vr, vc, i);
      TakenAgree(rows2, cols2, i, vc[..]);
    }

    /** inv_update. Code 0: V is upper triangular again, its lists agree, and H*V is the old H times the old V with
        column j replaced by the prepared column; d is what was dropped from the transformed row i as too small. */
    method Update(j: int) returns (ret: int, ghost i: int, ghost d: seq<real>)
      requires Valid() && cc.Prepared? && 0 <= j < m
      modifies this`valid, this`hh, this`cc, Arrays()
      ensures 0 <= ret <= 3 && valid == (ret == 0)
      ensures ret == 3 <==> |old(hh)| == hhMax
      ensures ret == 1 ==> StructurallySingular(old(V()), j, old(cc.v))
      ensures ret == 1 <==> |old(hh)| != hhMax && forall r :: r in old(cc.v) ==> old(pcol[r]) < old(qrow[j])
      ensures ret == 0 || ret == 2 ==> 0 <= i < m && 0 <= old(qrow[j]) < m && i == old(prow[..])[old(qrow[j])]
      ensures ret == 2 ==> 0 <= i < m && Abs(piv[i]) < updTol
      ensures ret == 0 ==> 0 <= i < m && Abs(piv[i]) >= updTol
      ensures ret == 0 ==> Valid() && cc == NoColumn && |d| == m && 0 <= i < m && |hh| <= |old(hh)| + 1
      ensures ret == 0 ==> 0 <= i < m && NoneSmall(vr[i], epsTol)
      ensures ret == 0 ==> forall c :: 0 <= c < m ==> Abs(d[c]) < epsTol || d[c] == 0.0
      ensures ret == 0 ==> Shape() && FileOk(hh, m) && |d| == m && 0 <= i < m && forall c :: 0 <= c < m ==>
                HMul(hh, Raised(VCol(V(), c), i, d[c])) == HMul(old(hh), NewCol(old(V()), j, old(cc.v), c))
    {
      hide VOk, FileOk, Taken, Stored, StructurallySingular, Replaced, Eliminated, Perm, Agree, Upper, FactorRows, HMul, RowStored,
        NewCol, FactorOk, VCol, Raised, Abs, NoneSmall;
      i, d := 0, [];
      if |hh| == hhMax {
        valid := false;
        return 3, i, d;
      }
      ghost var v0 := V();
      var col := cc.v;
      VOkPerms(v0);
      PermItem(v0.qcol, v0.qrow, j);
      var k1 := qrow[j];
      var k2 := ReplaceColumn(j, col);
      if k1 > k2 {
        VOkUpper(v0);
        TooHigh(v0, j, col, k2);
        valid := false;
        return 1, i, d;
      }
      var row, work, rows2 := Prepare(j, k2, col, v0);
      i := row;
      ret, d := Transform(j, col, k1, k2, row, work, v0, rows2);
    }

    /** Gaussian elimination of row i, the new factor, the new pivot and the new row. */
    method Transform(j: int, ghost col: Sparse, k1: int, k2: int, row: int, work: array<real>, ghost v0: Vmat,
                     ghost rows2: seq<Sparse>) returns (ret: int, ghost d: seq<real>)
      requires Shape() && valid && epsTol >= 0.0 && FileOk(hh, m) && VOk(v0) && |v0.rows| == m && work != piv && work.Length == m
      requires VShape(v0) && 0 <= j < m && 0 <= row < m && k1 == v0.qrow[j] && 0 <= k1 <= k2 < m
      requires Taken(v0, j, col, k2, row, rows2, V(), work[..])
      requires Perm(prow[..], pcol[..]) && Perm(qcol[..], qrow[..]) && Agree(vr[..], vc[..])
      modifies this`valid, this`hh, this`cc, vr, vc, piv, work
      ensures (ret == 0 || ret == 2) && valid == (ret == 0)
      ensures ret == 2 <==> Abs(piv[row]) < updTol
      ensures ret == 0 ==> Valid() && cc == NoColumn && |d| == m && |hh| <= |old(hh)| + 1
      ensures ret == 0 ==> NoneSmall(vr[row], epsTol)
      ensures ret == 0 ==> forall c :: 0 <= c < m ==> Abs(d[c]) < epsTol || d[c] == 0.0
      ensures ret == 0 ==> Shape() && FileOk(hh, m) && |d| == m && forall c :: 0 <= c < m ==>
                HMul(hh, Raised(VCol(V(), c), row, d[c])) == HMul(old(hh), NewCol(v0, j, col, c))
    {
      hide VOk, FileOk, Taken, Stored, Eliminated, Perm, Agree, Upper, FactorRows, HMul, RowStored, NewCol, FactorOk, NoneSmall;
      ghost var v1, w0, hh0 := V(), work[..], hh;
      d := [];
      TakenShape(v0, j, col, k2, row, rows2, v1, w0);
      TakenUpper(v0, j, col, k2, row, rows2, v1, w0);
      EliminateReady(v0, j, col, k2, row, rows2, v1, w0);
      AgreeRange(v1.rows, v1.cols);
      var f := Eliminate(v1, vr, piv, prow, qcol, k1, k2, work);
      NewFactorOk(f, v1.pcol, k1, k2, row);
      FileGrows(hh0, f, row, m);
      if f != map[] {
        hh := hh + [Factor(row, f)];
      }
      piv[row] := work[j];
      if Abs(piv[row]) < updTol {
        valid := false;
        return 2, d;
      }
      StoreRow(vr, vc, row, work, qcol, v1.qrow, k2, epsTol);
      NoSmallStored(v1.qrow, work[..], epsTol, k2, vr[row]);
      cc := NoColumn;
      d := Dropped(v1.qrow, work[..], epsTol, k2);
      ghost var vn := V();
      StoredIntro(v1, row, j, k2, work[..], epsTol, vn, d);
      UpdatedOk(v0, j, col, k2, row, rows2, v1, w0, work[..], epsTol, vn, d);
      AllRestored(v0, j, col, k2, row, rows2, v1, w0, f, work[..], epsTol, vn, d, hh0);
      ret := 0;
    }
  }
}
