/** The presolver routines that apply one reduction to the workspace. */
module LpProcessPlain {
  import opened Sums
  import opened Collections
  import opened LpModel
  import opened LpRecover
  import opened LpReduce
  import opened LpKktRows
  import opened LpKktCols
  import opened LpKktForce
  import opened LpEquiv
  import opened LpEquivCols
  import opened LpDual
  import opened LpLocal
  import opened LpCompose
  import opened LpQueue
  import opened LpWorkspace

  ghost function Size(P: LP): nat {
    |P.row.Keys| + |P.col.Keys|
  }

  lemma RemoveRowSize(P: LP, p: int)
    requires p in P.row
    ensures Size(RemoveRow(P, p)) == Size(P) - 1
  {
    assert RemoveRow(P, p).row.Keys == P.row.Keys - {p};
  }

  lemma SubstColSize(P: LP, q: int, v: real)
    requires q in P.col
    ensures Size(SubstCol(P, q, v)) == Size(P) - 1
  {
    assert SubstCol(P, q, v).row.Keys == P.row.Keys;
    assert SubstCol(P, q, v).col.Keys == P.col.Keys - {q};
  }

  // ----- empty rows

  lemma EmptyRowReduces(P: LP, p: int, T: seq<Entry>)
    requires WellFormed(P) && p in P.row && EmptyRowAt(P, p) && P.row[p].Holds(0.0)
    ensures Reduces(P, T, RemoveRow(P, p), [EmptyRow(p)] + T)
  {
    hide WellFormed, EmptyRowAt, Restores, Equivalent, KeepsDual;
    EmptyRowEquiv(P, p);
    IdleRowDual(P, p);
    EmptyRowRestores(P, p);
    ReducesIntro(P, T, RemoveRow(P, p), [EmptyRow(p)]);
  }

  method ProcessEmptyRow(w: Workspace, p: int) returns (code: int)
    requires w.Valid() && p in w.row && EmptyRowAt(w.Problem(), p)
    modifies w
    ensures code == if old(w.row[p]).Holds(0.0) then 0 else 1
    ensures code == 1 <==> !RowMeets(old(w.Problem()), p)
    ensures code == 1 ==> Infeasible(old(w.Problem()))
    ensures code == 0 ==> w.Valid() && w.Problem() == RemoveRow(old(w.Problem()), p)
    ensures code == 0 ==> w.tqe == [EmptyRow(p)] + old(w.tqe)
    ensures code == 0 ==> Reduces(old(w.Problem()), old(w.tqe), w.Problem(), w.tqe)
    ensures code == 0 ==> Settled(old(w.Now()), w.Now(), {}, {})
  {
    hide WellFormed, EmptyRowAt, QueuesOk, Settled, Reduces, Infeasible, RemoveRow, Pop;
    ghost var P := w.Problem();
    EmptyMeets(P, p);
    var r := w.row[p];
    if (r.lb.Fin? && r.lb.v > 0.0) || (r.ub.Fin? && r.ub.v < 0.0) {
      EmptyRowInfeasible(P, p);
      return 1;
    }
    EmptyRowReduces(P, p, w.tqe);
    w.tqe := [EmptyRow(p)] + w.tqe;
    w.RemoveRowAt(p);
    code := 0;
  }

  // ----- free rows

  lemma FreeRowReduces(P: LP, p: int, T: seq<Entry>)
    requires WellFormed(P) && p in P.row && P.row[p].Free()
    ensures Reduces(P, T, RemoveRow(P, p), [FreeRow(p, RowVec(P, p))] + T)
  {
    hide WellFormed, Restores, Equivalent, RowVec, KeepsDual;
    FreeRowEquiv(P, p);
    IdleRowDual(P, p);
    FreeRowRestores(P, p);
    ReducesIntro(P, T, RemoveRow(P, p), [FreeRow(p, RowVec(P, p))]);
  }

  function RowPart(P: LP, p: int, J: set<int>): map<int, real> {
    map j | j in J && (p, j) in P.a :: P.a[(p, j)]
  }

  function ColPart(P: LP, q: int, I: set<int>): map<int, real> {
    map i | i in I && (i, q) in P.a :: P.a[(i, q)]
  }

  lemma RowPartStep(P: LP, p: int, J: set<int>, j: int)
    requires (p, j) in P.a
    ensures RowPart(P, p, J)[j := P.a[(p, j)]] == RowPart(P, p, J + {j})
  {
  }

  lemma ColPartStep(P: LP, q: int, I: set<int>, i: int)
    requires (i, q) in P.a
    ensures ColPart(P, q, I)[i := P.a[(i, q)]] == ColPart(P, q, I + {i})
  {
  }

  /** The coefficients of row p, collected element by element. */
  method SaveRow(w: Workspace, p: int) returns (lf: map<int, real>)
    requires w.Valid()
    ensures lf == RowVec(w.Problem(), p)
  {
    hide RowVec, RowPart, RowCols;
    RowColsFacts(w.Problem(), p);
    var elems := RowCols(w.row, w.col, w.a, p);
    var todo := elems;
    lf := map[];
    RowPartEnds(w.Problem(), p, elems);
    assert elems - todo == {};
    while todo != {}
      invariant todo <= elems && lf == RowPart(w.Problem(), p, elems - todo)
      decreases |todo|
    {
      Inhabited(todo);
      var j :| j in todo;
      RowPartStep(w.Problem(), p, elems - todo, j);
      lf := lf[j := w.a[(p, j)]];
      DoneNext(elems, todo, j);
      todo := todo - {j};
    }
    assert elems - {} == elems;
  }

  lemma RowPartEnds(P: LP, p: int, J: set<int>)
    requires WellFormed(P) && forall j :: j in J <==> (p, j) in P.a
    ensures RowPart(P, p, {}) == map[] && RowPart(P, p, J) == RowVec(P, p)
  {
    assert RowPart(P, p, {}).Keys == {};
    forall j | (p, j) in P.a ensures j in P.col {
    }
    SameSet(RowPart(P, p, J).Keys, RowVec(P, p).Keys);
  }

  method ProcessFreeRow(w: Workspace, p: int)
    requires w.Valid() && p in w.row && w.row[p].Free()
    modifies w
    ensures w.Valid() && w.Problem() == RemoveRow(old(w.Problem()), p)
    ensures w.tqe == [FreeRow(p, RowVec(old(w.Problem()), p))] + old(w.tqe)
    ensures Reduces(old(w.Problem()), old(w.tqe), w.Problem(), w.tqe)
    ensures Settled(old(w.Now()), w.Now(), {}, {})
    ensures forall j :: j in w.colQue <==> j in old(w.colQue) || (p, j) in old(w.a)
  {
    hide WellFormed, QueuesOk, Settled, Reduces, RemoveRow, Pop, RowVec;
    ghost var P := w.Problem();
    var lf := SaveRow(w, p);
    FreeRowReduces(P, p, w.tqe);
    w.tqe := [FreeRow(p, lf)] + w.tqe;
    w.RemoveRowAt(p);
  }

  // ----- fixed columns

  /** Row ranges after the column q at value v has been substituted into the rows I. */
  function ShiftPart(P: LP, q: int, v: real, I: set<int>): map<int, Range> {
    map i | i in P.row :: if i in I then ShiftedRow(P, q, v, i) else P.row[i]
  }

  lemma ShiftPartStep(P: LP, q: int, v: real, I: set<int>, i: int)
    requires i in P.row && i !in I
    ensures ShiftPart(P, q, v, I)[i := ShiftedRow(P, q, v, i)] == ShiftPart(P, q, v, I + {i})
    ensures i in ShiftPart(P, q, v, I) && ShiftPart(P, q, v, I)[i] == P.row[i]
  {
  }

  lemma ShiftPartEnds(P: LP, q: int, v: real, I: set<int>)
    requires q in P.col && forall i :: (i, q) in P.a ==> i in I
    ensures ShiftPart(P, q, v, {}) == P.row
    ensures ShiftPart(P, q, v, I) == SubstCol(P, q, v).row
  {
    forall i | i in P.row && i !in I ensures ShiftedRow(P, q, v, i) == P.row[i] {
      assert At(P.a, i, q) == 0.0;
    }
  }

  lemma ColPartEnds(P: LP, q: int, I: set<int>)
    requires WellFormed(P) && forall i :: i in I <==> (i, q) in P.a
    ensures ColPart(P, q, {}) == map[] && ColPart(P, q, I) == ColVec(P, q)
  {
    assert ColPart(P, q, {}).Keys == {};
    forall i | (i, q) in P.a ensures i in P.row {
    }
    SameSet(ColPart(P, q, I).Keys, ColVec(P, q).Keys);
  }

  /** lines (4) and (5) of the fixed column section: the new range of one row */
  method SubstituteInto(r: Range, val: real, v: real) returns (s: Range)
    ensures s == ShiftBy(r, val, v)
  {
    var d := val * v;
    if r.Fixed() {
      var b := r.lb.v - d;
      s := Range(Fin(b), Fin(b));
    } else {
      s := r;
      if s.lb.Fin? {
        s := s.(lb := Fin(s.lb.v - d));
      }
      if s.ub.Fin? {
        s := s.(ub := Fin(s.ub.v - d));
      }
    }
  }

  method SubstituteRows(w: Workspace, q: int, v: real) returns (lf: map<int, real>)
    requires w.Valid() && q in w.col
    modifies w`row
    ensures lf == ColVec(old(w.Problem()), q)
    ensures w.row == SubstCol(old(w.Problem()), q, v).row
  {
    hide ColVec, ColPart, ColRows, ShiftPart, SubstCol, ShiftBy, WellFormed, QueuesOk;
    ghost var P := w.Problem();
    ColRowsFacts(P, q);
    var elems := ColRows(w.row, w.col, w.a, q);
    var todo := elems;
    lf := map[];
    ColPartEnds(P, q, elems);
    ShiftPartEnds(P, q, v, elems);
    assert elems - todo == {};
    while todo != {}
      invariant todo <= elems && lf == ColPart(P, q, elems - todo)
      invariant w.row == ShiftPart(P, q, v, elems - todo)
      decreases |todo|
    {
      Inhabited(todo);
      var i :| i in todo;
      ColPartStep(P, q, elems - todo, i);
      ShiftPartStep(P, q, v, elems - todo, i);
      lf := lf[i := w.a[(i, q)]];
      assert At(P.a, i, q) == w.a[(i, q)];
      var s := SubstituteInto(w.row[i], w.a[(i, q)], v);
      w.row := w.row[i := s];
      DoneNext(elems, todo, i);
      todo := todo - {i};
    }
    assert elems - {} == elems;
  }

  lemma FixedColReduces(P: LP, q: int, T: seq<Entry>)
    requires WellFormed(P) && q in P.col && 0 <= q < P.n && P.col[q].rng.Fixed()
    ensures var v := P.col[q].rng.lb.v; Reduces(P, T, SubstCol(P, q, v), [FixedColEntry(P, q, v)] + T)
  {
    hide WellFormed, Restores, Equivalent, FixedColEntry, KeepsDual;
    FixedColEquiv(P, q);
    FixedColRestores(P, q);
    var v := P.col[q].rng.lb.v;
    SubstDual(P, q, v);
    ReducesIntro(P, T, SubstCol(P, q, v), [FixedColEntry(P, q, v)]);
  }

  lemma SettledSubst(v: View, w: View, q: int, val: real)
    requires WellFormed(v.P) && q in v.P.col && w.P == SubstCol(v.P, q, val)
    requires forall y :: y in w.cq <==> y in v.cq && y != q
    requires forall i :: i in w.rq <==> i in v.rq || (i, q) in v.P.a
    ensures Settled(v, w, {}, {})
  {
    forall i | i in w.P.row && i !in w.rq ensures RowKept(v.P, w.P, i) {
      assert At(v.P.a, i, q) == 0.0;
      assert w.P.row[i] == ShiftedRow(v.P, q, val, i);
    }
  }

  lemma SubstMidway(P: LP, q: int, v: real, c0: real)
    requires WellFormed(P) && q in P.col && c0 == P.c0 + P.col[q].c * v
    ensures var Q := P.(row := SubstCol(P, q, v).row, c0 := c0);
            WellFormed(Q) && RemoveCol(Q, q) == SubstCol(P, q, v)
  {
    SubstColFacts(P, q, v);
  }

  lemma WellFormedCol(P: LP, q: int)
    requires WellFormed(P) && q in P.col
    ensures 0 <= q < P.n && P.col[q].rng.Ordered()
  {
  }

  lemma WellFormedRow(P: LP, p: int)
    requires WellFormed(P) && p in P.row
    ensures 0 <= p < P.m && P.row[p].Ordered()
  {
  }

  lemma WellFormedElem(P: LP, p: int, q: int)
    requires WellFormed(P) && (p, q) in P.a
    ensures p in P.row && q in P.col && P.a[(p, q)] != 0.0
  {
  }

  lemma QueuesSameRows(v: View, w: View)
    requires QueuesOk(v) && w.rq == v.rq && w.cq == v.cq && w.P.row.Keys == v.P.row.Keys && w.P.col.Keys == v.P.col.Keys
    ensures QueuesOk(w)
  {
    hide NoDup;
  }

  method ProcessFixedCol(w: Workspace, q: int)
    requires w.Valid() && q in w.col && w.col[q].rng.Fixed()
    modifies w
    ensures w.Valid()
    ensures w.Problem() == SubstCol(old(w.Problem()), q, old(w.col[q].rng.lb.v))
    ensures w.tqe == [FixedColEntry(old(w.Problem()), q, old(w.col[q].rng.lb.v))] + old(w.tqe)
    ensures Reduces(old(w.Problem()), old(w.tqe), w.Problem(), w.tqe)
    ensures Settled(old(w.Now()), w.Now(), {}, {})
    ensures w.colQue == Pop(old(w.colQue), q)
    ensures forall i :: i in w.rowQue <==> i in old(w.rowQue) || (i, q) in old(w.a)
  {
    hide WellFormed, QueuesOk, Settled, Reduces, SubstCol, Pop, ColVec, RemoveCol, NoDup;
    ghost var u, P, T := w.Now(), w.Problem(), w.tqe;
    var v := w.col[q].rng.lb.v;
    WellFormedCol(P, q);
    FixedColReduces(P, q, T);
    SubstKeys(P, q, v);
    QueuesNoDup(u);
    var lf := SubstituteRows(w, q, v);
    w.tqe := [FixedCol(q, v, w.col[q].c, lf)] + w.tqe;
    w.c0 := w.c0 + w.col[q].c * v;
    SubstMidway(P, q, v, w.c0);
    QueuesSameRows(u, w.Now());
    w.RemoveColAt(q);
    PopFacts(u.cq, q);
    SettledSubst(u, w.Now(), q, v);
  }

  lemma SubstKeys(P: LP, q: int, v: real)
    requires q in P.col
    ensures SubstCol(P, q, v).row.Keys == P.row.Keys
  {
  }
}
