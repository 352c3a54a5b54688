/** The Forrest-Tomlin update of the factorization after one column of the basis has been replaced. */
module InvUpdate {
  import opened Collections
  import opened Sums
  import opened InvEta
  import opened InvLists

  datatype Column = NoColumn | Prepared(v: Sparse)

  // ----- elimination of the row under the diagonal

  /** Element c of the transformed row after the rows in f have been subtracted. */
  ghost function Residual(v: Vmat, w0: seq<real>, f: Sparse, c: int): real
    requires |v.rows| == |v.piv| == |v.pcol| && 0 <= c < |v.qrow| == |w0|
  {
    w0[c] - Dot(f, VCol(v, c))
  }

  /** Columns at positions below k are eliminated; the others are in `work`. */
  ghost predicate Eliminated(v: Vmat, w0: seq<real>, f: Sparse, k: int, work: seq<real>)
    requires |v.rows| == |v.piv| == |v.pcol| && |v.qrow| == |w0| == |work|
  {
    forall c :: 0 <= c < |work| ==> if v.qrow[c] >= k then work[c] == Residual(v, w0, f, c) else Residual(v, w0, f, c) == 0.0
  }

  lemma DotExtend(f: Sparse, p: int, t: real, x: seq<real>)
    requires p !in f && 0 <= p < |x|
    ensures Dot(f[p := t], x) == Dot(f, x) + Times(t, x[p])
  {
    ZeroTimes(x[p]);
    SumOne(DotF(f[p := t], x), DotF(f, x), |x|, p);
  }

  lemma DotNone(x: seq<real>)
    ensures Dot(map[], x) == 0.0
  {
    forall p | 0 <= p < |x| ensures DotF(map[], x)(p) == 0.0 {
      ZeroTimes(x[p]);
    }
    SumZero(DotF(map[], x), |x|);
  }

  lemma PivotCancels(w: real, piv: real, t: real)
    requires piv != 0.0 && t == w / piv
    ensures Times(t, piv) == w
  {
  }

  lemma TimesSwap(x: real, y: real)
    ensures Times(x, -y) == -Times(y, x)
  {
  }

  /** One gaussian step on element c. */
  lemma EliminateElement(v: Vmat, w0: seq<real>, f: Sparse, k: int, work: seq<real>, p: int, q: int, t: real, c: int)
    requires VShape(v) && |w0| == |work| == |v.rows| && Upper(v.rows, v.pcol, v.qrow)
    requires 0 <= p < |v.rows| && 0 <= q < |work| && p !in f && v.pcol[p] == k == v.qrow[q] && v.piv[p] != 0.0
    requires Eliminated(v, w0, f, k, work) && t == work[q] / v.piv[p] && 0 <= c < |work| && (v.qrow[c] == k ==> c == q)
    ensures v.qrow[c] >= k + 1 ==> AddedAt(v.rows[p], work, -t, c) == Residual(v, w0, f[p := t], c)
    ensures v.qrow[c] < k + 1 ==> Residual(v, w0, f[p := t], c) == 0.0
  {
    hide Dot, Times;
    DotExtend(f, p, t, VCol(v, c));
    TimesSwap(At(v.rows[p], c), t);
    PivotCancels(work[q], v.piv[p], t);
    ZeroTimes(t);
  }

  lemma EliminateStep(v: Vmat, w0: seq<real>, f: Sparse, k: int, work: seq<real>, p: int, q: int, t: real, work': seq<real>)
    requires VShape(v) && |w0| == |work| == |v.rows| && Upper(v.rows, v.pcol, v.qrow) && Perm(v.qcol, v.qrow)
    requires 0 <= p < |v.rows| && 0 <= q < |work| && p !in f && v.pcol[p] == k == v.qrow[q] && v.piv[p] != 0.0
    requires Eliminated(v, w0, f, k, work) && t == work[q] / v.piv[p] && work' == Added(work, v.rows[p], -t)
    ensures Eliminated(v, w0, f[p := t], k + 1, work')
  {
    hide Dot, Times, Residual, AddedAt, Upper;
    forall c | 0 <= c < |work|
      ensures if v.qrow[c] >= k + 1 then work'[c] == Residual(v, w0, f[p := t], c) else Residual(v, w0, f[p := t], c) == 0.0
    {
      SamePosition(v.qcol, v.qrow, c, q);
      EliminateElement(v, w0, f, k, work, p, q, t, c);
    }
  }

  lemma SamePosition(at: seq<int>, pos: seq<int>, x: int, y: int)
    requires Perm(at, pos) && 0 <= x < |pos| && 0 <= y < |pos|
    ensures pos[x] == pos[y] ==> x == y
  {
    assert at[pos[x]] == x && at[pos[y]] == y;
  }

  lemma EliminateSkip(v: Vmat, w0: seq<real>, f: Sparse, k: int, work: seq<real>, q: int)
    requires VShape(v) && |w0| == |work| == |v.rows| && Perm(v.qcol, v.qrow) && 0 <= q < |work| && v.qrow[q] == k
    requires Eliminated(v, w0, f, k, work) && work[q] == 0.0
    ensures Eliminated(v, w0, f, k + 1, work)
  {
    hide Residual;
    forall c | 0 <= c < |work| && v.qrow[c] == k ensures Residual(v, w0, f, c) == 0.0 {
      SamePosition(v.qcol, v.qrow, c, q);
    }
  }

  lemma EliminateStart(v: Vmat, w0: seq<real>, k: int)
    requires VShape(v) && |w0| == |v.rows| && forall c :: 0 <= c < |w0| && v.qrow[c] < k ==> w0[c] == 0.0
    ensures Eliminated(v, w0, map[], k, w0)
  {
    forall c | 0 <= c < |w0| ensures Residual(v, w0, map[], c) == w0[c] {
      DotNone(VCol(v, c));
    }
  }

  /** The rows of a factor lie at positions k1..k-1. */
  ghost predicate FactorRows(f: Sparse, pcol: seq<int>, k1: int, k: int) {
    forall p :: p in f ==> 0 <= p < |pcol| && k1 <= pcol[p] < k
  }

  /** The loop that eliminates the subdiagonal elements; f is the new row-like factor. */
  method Eliminate(ghost v: Vmat, vr: array<Sparse>, piv: array<real>, prow: array<int>, qcol: array<int>, k1: int, k2: int,
                   work: array<real>) returns (f: Sparse)
    requires VShape(v) && v.rows == vr[..] && v.piv == piv[..] && v.prow == prow[..] && v.qcol == qcol[..] && piv != work
    requires 0 <= k1 <= k2 < work.Length == |v.rows| && Perm(v.prow, v.pcol) && Perm(v.qcol, v.qrow) && Upper(v.rows, v.pcol, v.qrow)
    requires forall p :: 0 <= p < piv.Length && v.pcol[p] < k2 ==> piv[p] != 0.0
    requires forall c :: 0 <= c < work.Length && v.qrow[c] < k1 ==> work[c] == 0.0
    requires forall p, c :: 0 <= p < vr.Length && c in vr[p] ==> 0 <= c < work.Length
    modifies work
    ensures FactorRows(f, v.pcol, k1, k2) && Eliminated(v, old(work[..]), f, k2, work[..])
  {
    hide Eliminated, Perm, Upper, Added, FactorRows;
    ghost var w0 := work[..];
    f := map[];
    EliminateStart(v, w0, k1);
    NoFactorRows(v.pcol, k1);
    var k := k1;
    while k < k2
      invariant k1 <= k <= k2 && piv[..] == v.piv
      invariant FactorRows(f, v.pcol, k1, k) && Eliminated(v, w0, f, k, work[..])
    {
      var p, q := prow[k], qcol[k];
      PermAt(v.prow, v.pcol, k);
      PermAt(v.qcol, v.qrow, k);
      NewFactorRow(f, v.pcol, k1, k, p);
      ghost var ws := work[..];
      if work[q] == 0.0 {
        EliminateSkip(v, w0, f, k, ws, q);
      } else {
        var t := work[q] / piv[p];
        SubtractFrom(work, vr[p], t);
        EliminateStep(v, w0, f, k, ws, p, q, t, work[..]);
        AddFactorRow(f, v.pcol, k1, k, p, t);
        f := f[p := t];
      }
      k := k + 1;
    }
  }

  lemma NoFactorRows(pcol: seq<int>, k1: int)
    ensures FactorRows(map[], pcol, k1, k1)
  {
  }

  lemma NewFactorRow(f: Sparse, pcol: seq<int>, k1: int, k: int, p: int)
    requires FactorRows(f, pcol, k1, k) && 0 <= p < |pcol| && pcol[p] == k >= k1
    ensures p !in f && FactorRows(f, pcol, k1, k + 1)
  {
  }

  lemma AddFactorRow(f: Sparse, pcol: seq<int>, k1: int, k: int, p: int, t: real)
    requires FactorRows(f, pcol, k1, k) && 0 <= p < |pcol| && pcol[p] == k >= k1
    ensures FactorRows(f[p := t], pcol, k1, k + 1)
  {
  }

  // ----- the lists

  /** Remove column j from row lists and column list. */
  method RemoveColumn(vr: array<Sparse>, vc: array<Sparse>, j: int)
    requires vr != vc && 0 <= j < vc.Length && Agree(vr[..], vc[..])
    modifies vr, vc
    ensures vc[..] == old(vc[..])[j := map[]]
    ensures forall i :: 0 <= i < vr.Length ==> vr[i] == old(vr[i]) - {j}
  {
    ghost var rows, cols := vr[..], vc[..];
    var todo := vc[j].Keys;
    AgreeColumn(rows, cols, j);
    while todo != {}
      invariant todo <= cols[j].Keys && vc[..] == cols
      invariant forall i :: 0 <= i < vr.Length ==> vr[i] == if i in todo then rows[i] else rows[i] - {j}
      decreases |todo|
    {
      Inhabited(todo);
      var i :| i in todo;
      vr[i] := vr[i] - {j};
      todo := todo - {i};
    }
    vc[j] := map[];
  }

  lemma AgreeColumn(rows: seq<Sparse>, cols: seq<Sparse>, j: int)
    requires Agree(rows, cols) && 0 <= j < |cols|
    ensures forall i :: i in cols[j] ==> 0 <= i < |rows|
    ensures forall i :: 0 <= i < |rows| && i !in cols[j] ==> rows[i] - {j} == rows[i]
  {
  }

  /** Add the new column j and find the position of its lowest element, -1 if it has none. */
  method AddColumn(vr: array<Sparse>, vc: array<Sparse>, j: int, cc: Sparse, pcol: array<int>) returns (k2: int)
    requires vr != vc && 0 <= j < vc.Length && vr.Length == pcol.Length
    requires (forall i :: i in cc ==> 0 <= i < vr.Length) && forall i :: 0 <= i < pcol.Length ==> 0 <= pcol[i]
    modifies vr, vc
    ensures vc[..] == old(vc[..])[j := cc]
    ensures forall i :: 0 <= i < vr.Length ==> vr[i] == if i in cc then old(vr[i])[j := cc[i]] else old(vr[i])
    ensures -1 <= k2 && forall i :: i in cc ==> pcol[i] <= k2
    ensures k2 >= 0 ==> exists i :: i in cc && pcol[i] == k2
  {
    ghost var rows, cols := vr[..], vc[..];
    k2 := -1;
    var todo := cc.Keys;
    while todo != {}
      invariant todo <= cc.Keys && vc[..] == cols
      invariant forall i :: 0 <= i < vr.Length ==> vr[i] == if i in cc && i !in todo then rows[i][j := cc[i]] else rows[i]
      invariant -1 <= k2 && forall i :: i in cc && i !in todo ==> pcol[i] <= k2
      invariant k2 >= 0 ==> exists i :: i in cc && pcol[i] == k2
      decreases |todo|
    {
      Inhabited(todo);
      var i :| i in todo;
      vr[i] := vr[i][j := cc[i]];
      if k2 < pcol[i] {
        k2 := pcol[i];
      }
      todo := todo - {i};
    }
    vc[j] := cc;
  }

  /** Column lists without row i. */
  ghost predicate WithoutRow(cols: seq<Sparse>, i: int, cols': seq<Sparse>) {
    |cols'| == |cols| && forall c :: 0 <= c < |cols| ==> cols'[c] == cols[c] - {i}
  }

  /** Move row i to the working array and take it out of V. */
  method TakeRow(vr: array<Sparse>, vc: array<Sparse>, i: int) returns (work: array<real>)
    requires vr != vc && 0 <= i < vr.Length == vc.Length && Agree(vr[..], vc[..])
    modifies vr, vc
    ensures fresh(work) && work.Length == vr.Length && work[..] == Dense(old(vr[i]), vr.Length)
    ensures vr[..] == old(vr[..])[i := map[]] && WithoutRow(old(vc[..]), i, vc[..])
  {
    hide Agree, Lifted, Dense, WithoutRow;
    ghost var rows, cols := vr[..], vc[..];
    work := new real[vr.Length](_ => 0.0);
    var row := vr[i];
    var todo := row.Keys;
    AgreeRow(rows, cols, i);
    LiftedNone(row, cols, i, work[..]);
    while todo != {}
      invariant todo <= row.Keys && vr[..] == rows && work.Length == vr.Length && Lifted(row, cols, i, todo, vc[..], work[..])
      decreases |todo|
    {
      Inhabited(todo);
      var c :| c in todo;
      LiftedStep(row, cols, i, todo, vc[..], work[..], c);
      work[c] := row[c];
      vc[c] := vc[c] - {i};
      todo := todo - {c};
    }
    LiftedAll(row, cols, i, vc[..], work[..]);
    vr[i] := map[];
  }

  /** The columns cs and the work array ws when all elements of the row but those in `todo` have been taken. */
  ghost predicate Lifted(row: Sparse, cols: seq<Sparse>, i: int, todo: set<int>, cs: seq<Sparse>, ws: seq<real>) {
    && |cs| == |cols| == |ws|
    && (forall c :: 0 <= c < |cs| ==> cs[c] == if c in todo then cols[c] else cols[c] - {i})
    && (forall c :: 0 <= c < |ws| ==> ws[c] == if c in todo then 0.0 else At(row, c))
  }

  lemma LiftedNone(row: Sparse, cols: seq<Sparse>, i: int, ws: seq<real>)
    requires |ws| == |cols| && (forall c :: 0 <= c < |ws| ==> ws[c] == 0.0)
    requires forall c :: 0 <= c < |cols| && c !in row ==> cols[c] - {i} == cols[c]
    ensures Lifted(row, cols, i, row.Keys, cols, ws)
  {
  }

  lemma LiftedStep(row: Sparse, cols: seq<Sparse>, i: int, todo: set<int>, cs: seq<Sparse>, ws: seq<real>, c: int)
    requires Lifted(row, cols, i, todo, cs, ws) && c in todo && c in row && 0 <= c < |cols|
    ensures |cs| == |cols| == |ws| && Lifted(row, cols, i, todo - {c}, cs[c := cs[c] - {i}], ws[c := row[c]])
  {
  }

  lemma LiftedAll(row: Sparse, cols: seq<Sparse>, i: int, cs: seq<Sparse>, ws: seq<real>)
    requires Lifted(row, cols, i, {}, cs, ws)
    ensures ws == Dense(row, |cols|) && WithoutRow(cols, i, cs)
  {
  }

  lemma AgreeRow(rows: seq<Sparse>, cols: seq<Sparse>, i: int)
    requires Agree(rows, cols) && 0 <= i < |rows|
    ensures forall c :: c in rows[i] ==> 0 <= c < |cols|
    ensures forall c :: 0 <= c < |cols| && c !in rows[i] ==> cols[c] - {i} == cols[c]
  {
  }

  lemma TakenAgree(rows: seq<Sparse>, cols: seq<Sparse>, i: int, cols': seq<Sparse>)
    requires Agree(rows, cols) && 0 <= i < |rows| && WithoutRow(cols, i, cols')
    ensures Agree(rows[i := map[]], cols')
  {
  }

  /** The elements of the transformed row that are kept: behind the diagonal and not close to zero. */
  predicate Kept(qrow: seq<int>, work: seq<real>, eps: real, k2: int, k: int, c: int) {
    0 <= c < |qrow| == |work| && k2 < qrow[c] < k && Abs(work[c]) >= eps
  }

  ghost predicate RowStored(qrow: seq<int>, work: seq<real>, eps: real, k2: int, k: int, row: Sparse) {
    && (forall c :: c in row <==> Kept(qrow, work, eps, k2, k, c))
    && (forall c :: c in row && 0 <= c < |work| ==> row[c] == work[c])
  }

  ghost predicate WithRow(cols: seq<Sparse>, i: int, row: Sparse, cols': seq<Sparse>) {
    && |cols'| == |cols|
    && forall c :: 0 <= c < |cols| ==> cols'[c] == if c in row then cols[c][i := row[c]] else cols[c]
  }

  lemma RowStoredNext(qcol: seq<int>, qrow: seq<int>, work: seq<real>, eps: real, k2: int, k: int, row: Sparse, c: int)
    requires Perm(qcol, qrow) && |qrow| == |work| && 0 <= k2 < k < |qcol| && c == qcol[k] && RowStored(qrow, work, eps, k2, k, row)
    ensures 0 <= c < |work| && c !in row
    ensures Abs(work[c]) < eps ==> RowStored(qrow, work, eps, k2, k + 1, row)
    ensures Abs(work[c]) >= eps ==> RowStored(qrow, work, eps, k2, k + 1, row[c := work[c]])
  {
    forall x | 0 <= x < |qrow| ensures qrow[x] == k <==> x == c {
      assert qcol[qrow[x]] == x;
    }
  }

  /** Store the transformed row i. */
  method StoreRow(vr: array<Sparse>, vc: array<Sparse>, i: int, work: array<real>, qcol: array<int>, ghost qrow: seq<int>,
                  k2: int, eps: real)
    requires vr != vc && 0 <= i < vr.Length == vc.Length == work.Length == qcol.Length == |qrow|
    requires Perm(qcol[..], qrow) && 0 <= k2
    modifies vr, vc
    ensures vr[..] == old(vr[..])[i := vr[i]] && RowStored(qrow, work[..], eps, k2, |qrow|, vr[i])
    ensures WithRow(old(vc[..]), i, vr[i], vc[..])
  {
    hide Perm, RowStored, WithRow;
    ghost var rows, cols := vr[..], vc[..];
    var row: Sparse := map[];
    NothingStored(qcol[..], qrow, work[..], eps, k2);
    WithNothing(cols, i);
    var k := k2 + 1;
    while k < qcol.Length
      invariant k2 < k && vr[..] == rows && (k <= qcol.Length || k == k2 + 1)
      invariant RowStored(qrow, work[..], eps, k2, k, row) && WithRow(cols, i, row, vc[..])
    {
      var c := qcol[k];
      RowStoredNext(qcol[..], qrow, work[..], eps, k2, k, row, c);
      if !(Abs(work[c]) < eps) {
        WithRowNext(cols, i, row, vc[..], c, work[c]);
        vc[c] := vc[c][i := work[c]];
        row := row[c := work[c]];
      }
      k := k + 1;
    }
    StoredAll(qcol[..], qrow, work[..], eps, k2, k, row);
    vr[i] := row;
  }

  lemma WithRowNext(cols: seq<Sparse>, i: int, row: Sparse, cols': seq<Sparse>, c: int, t: real)
    requires WithRow(cols, i, row, cols') && 0 <= c < |cols| && c !in row
    ensures |cols'| == |cols| && WithRow(cols, i, row[c := t], cols'[c := cols'[c][i := t]])
  {
  }

  lemma NothingStored(qcol: seq<int>, qrow: seq<int>, work: seq<real>, eps: real, k2: int)
    ensures RowStored(qrow, work, eps, k2, k2 + 1, map[])
  {
  }

  lemma WithNothing(cols: seq<Sparse>, i: int)
    ensures WithRow(cols, i, map[], cols)
  {
  }

  lemma StoredAll(qcol: seq<int>, qrow: seq<int>, work: seq<real>, eps: real, k2: int, k: int, row: Sparse)
    requires Perm(qcol, qrow) && RowStored(qrow, work, eps, k2, k, row) && k >= |qcol|
    ensures RowStored(qrow, work, eps, k2, |qrow|, row)
  {
    forall c ensures Kept(qrow, work, eps, k2, k, c) <==> Kept(qrow, work, eps, k2, |qrow|, c) {
    }
  }

  lemma StoredAgree(rows: seq<Sparse>, cols: seq<Sparse>, i: int, row: Sparse, cols': seq<Sparse>)
    requires Agree(rows, cols) && 0 <= i < |rows| && rows[i] == map[] && WithRow(cols, i, row, cols')
    requires forall c :: c in row ==> 0 <= c < |cols|
    ensures Agree(rows[i := row], cols')
  {
  }
}
