/** Column singletons. */
module LpProcessSlack {
  import opened Sums
  import opened Collections
  import opened LpModel
  import opened LpRecover
  import opened LpReduce
  import opened LpKktRows
  import opened LpKktCols
  import opened LpKktForce
  import opened LpEquiv
  import opened LpEquivCols
  import opened LpDual
  import opened LpCompose
  import opened LpQueue
  import opened LpWorkspace
  import opened LpProcessPlain
  import opened LpProcessSngton

  // ----- implied slack columns

  /** Columns after the slack has been substituted into the costs of the columns J. */
  function SlackCostPart(P: LP, p: int, q: int, apq: real, c: real, J: set<int>): map<int, Column>
    requires apq != 0.0
  {
    map j | j in P.col && j != q :: if j in J then SlackedCol(P, p, apq, c, j) else P.col[j]
  }

  lemma SlackCostStep(P: LP, p: int, q: int, apq: real, c: real, J: set<int>, j: int)
    requires apq != 0.0 && j in P.col && j != q && j !in J
    ensures j in SlackCostPart(P, p, q, apq, c, J) && SlackCostPart(P, p, q, apq, c, J)[j] == P.col[j]
    ensures SlackCostPart(P, p, q, apq, c, J)[j := SlackedCol(P, p, apq, c, j)] == SlackCostPart(P, p, q, apq, c, J + {j})
  {
  }

  lemma SlackCostEnds(P: LP, p: int, q: int, J: set<int>)
    requires p in P.row && q in P.col && P.row[p].Fixed() && (p, q) in P.a && P.a[(p, q)] != 0.0
    requires forall j :: (p, j) in P.a && j != q ==> j in J
    ensures SlackCostPart(P, p, q, P.a[(p, q)], P.col[q].c, {}) == P.col - {q}
    ensures SlackCostPart(P, p, q, P.a[(p, q)], P.col[q].c, J) == SlackProblem(P, p, q).col
  {
    var apq, c := P.a[(p, q)], P.col[q].c;
    forall j | j in P.col && j != q && j !in J ensures SlackedCol(P, p, apq, c, j) == P.col[j] {
      assert At(P.a, p, j) == 0.0;
      ZeroCost(P.col[j].c, c, apq);
    }
    assert SlackCostPart(P, p, q, apq, c, {}).Keys == (P.col - {q}).Keys;
    assert SlackCostPart(P, p, q, apq, c, J).Keys == SlackProblem(P, p, q).col.Keys;
  }

  lemma ZeroCost(cj: real, c: real, apq: real)
    requires apq != 0.0
    ensures cj - c * (0.0 / apq) == cj
  {
  }

  /** Formula (9) for one column. */
  function CostAfter(cj: real, c: real, val: real, apq: real): real
    requires apq != 0.0
  {
    cj - c * (val / apq)
  }

  lemma SlackedColIs(P: LP, p: int, apq: real, c: real, j: int)
    requires apq != 0.0 && j in P.col && (p, j) in P.a
    ensures SlackedCol(P, p, apq, c, j) == P.col[j].(c := CostAfter(P.col[j].c, c, P.a[(p, j)], apq))
  {
  }

  /** The loop at the end of process_col_sngton1 over what is left of row p. */
  method SubstituteCosts(w: Workspace, p: int, q: int, apq: real, c: real, ghost P: LP, elems: set<int>)
    requires apq != 0.0 && w.col == P.col - {q}
    requires forall j :: j in elems ==> j in P.col && j != q && (p, j) in P.a && (p, j) in w.a && w.a[(p, j)] == P.a[(p, j)]
    requires SlackCostPart(P, p, q, apq, c, {}) == P.col - {q}
    modifies w`col
    ensures w.col == SlackCostPart(P, p, q, apq, c, elems)
  {
    hide SlackCostPart, SlackedCol, CostAfter;
    var todo := elems;
    assert elems - todo == {};
    while todo != {}
      invariant todo <= elems && w.col == SlackCostPart(P, p, q, apq, c, elems - todo)
      decreases |todo|
    {
      Inhabited(todo);
      var j :| j in todo;
      SlackCostStep(P, p, q, apq, c, elems - todo, j);
      SlackedColIs(P, p, apq, c, j);
      w.col := w.col[j := w.col[j].(c := CostAfter(w.col[j].c, c, w.a[(p, j)], apq))];
      DoneNext(elems, todo, j);
      todo := todo - {j};
    }
    assert elems - {} == elems;
  }

  lemma ColSngton1Reduces(P: LP, p: int, q: int, T: seq<Entry>)
    requires WellFormed(P) && p in P.row && q in P.col && P.row[p].Fixed() && SingleInCol(P, p, q)
    requires (p, q) in P.a && P.a[(p, q)] != 0.0 && 0 <= p < P.m && 0 <= q < P.n && !P.col[q].rng.Fixed()
    ensures Reduces(P, T, SlackProblem(P, p, q), [ColSngton1(p, q, P.row[p].lb.v, P.col[q].c, P.a[(p, q)])] + T)
  {
    hide WellFormed, Restores, Equivalent, SingleInCol, SlackProblem, KeepsDual;
    SlackEquiv(P, p, q);
    SlackDual(P, p, q);
    ColSngton1Restores(P, p, q);
    ReducesIntro(P, T, SlackProblem(P, p, q), [ColSngton1(p, q, P.row[p].lb.v, P.col[q].c, P.a[(p, q)])]);
  }

  lemma SettledSlack(v: View, w: View, p: int, q: int)
    requires WellFormed(v.P) && p in v.P.row && q in v.P.col && v.P.row[p].Fixed() && (p, q) in v.P.a && v.P.a[(p, q)] != 0.0
    requires w.P == SlackProblem(v.P, p, q)
    requires forall y :: y in w.cq <==> y in v.cq && y != q
    requires forall i :: i in w.rq <==> i in v.rq || (i, q) in v.P.a
    ensures Settled(v, w, {}, {})
  {
    hide SlackRange;
    forall j | j in w.P.col && j !in w.cq ensures ColKept(v.P, w.P, j) {
      assert w.P.col[j] == SlackedCol(v.P, p, v.P.a[(p, q)], v.P.col[q].c, j);
    }
  }

  lemma SlackQueues(v: View, w: View, p: int, q: int)
    requires WellFormed(v.P) && QueuesOk(v) && p in v.P.row && q in v.P.col && v.P.row[p].Fixed()
    requires (p, q) in v.P.a && v.P.a[(p, q)] != 0.0 && w.P == SlackProblem(v.P, p, q)
    requires NoDup(w.rq) && NoDup(w.cq)
    requires forall y :: y in w.cq <==> y in v.cq && y != q
    requires forall i :: i in w.rq <==> i in v.rq || (i, q) in v.P.a
    ensures WellFormed(w.P) && QueuesOk(w) && Size(w.P) == Size(v.P) - 1
  {
    hide NoDup, SlackProblem;
    SlackFacts(v.P, p, q);
  }

  lemma SlackMidway(u: View, p: int, q: int, r: Range)
    requires WellFormed(u.P) && QueuesOk(u) && p in u.P.row && r.Ordered()
    ensures WellFormed(SetRowRange(u.P, p, r)) && QueuesOk(u.(P := SetRowRange(u.P, p, r)))
  {
    SetRowWellFormed(u.P, p, r);
    QueuesSameRows(u, u.(P := SetRowRange(u.P, p, r)));
  }

  lemma SlackParts(P: LP, p: int, q: int, R: LP, elems: set<int>, c0: real)
    requires p in P.row && q in P.col && P.row[p].Fixed() && (p, q) in P.a && P.a[(p, q)] != 0.0
    requires R.m == P.m && R.n == P.n && R.a == DropCol(P.a, q)
    requires R.row == P.row[p := SlackRange(P.col[q].rng, P.row[p].lb.v, P.a[(p, q)])]
    requires R.col == SlackProblem(P, p, q).col && R.c0 == c0 && c0 == P.c0 + P.col[q].c * (P.row[p].lb.v / P.a[(p, q)])
    ensures R == SlackProblem(P, p, q)
  {
  }

  method ProcessColSngton1(w: Workspace, p: int, q: int)
    requires w.Valid() && q in w.col && p in w.row && SingleInCol(w.Problem(), p, q) && (p, q) in w.a
    requires w.row[p].Fixed() && w.a[(p, q)] != 0.0
    modifies w
    ensures w.Valid() && Size(w.Problem()) == Size(old(w.Problem())) - 1
    ensures Reduces(old(w.Problem()), old(w.tqe), w.Problem(), w.tqe)
    ensures Settled(old(w.Now()), w.Now(), {}, {})
    ensures p in w.rowQue
    ensures !old(w.col[q].rng.Fixed()) ==> w.Problem() == SlackProblem(old(w.Problem()), p, q)
    ensures !old(w.col[q].rng.Fixed()) ==>
              w.tqe == [ColSngton1(p, q, old(w.row[p].lb.v), old(w.col[q].c), old(w.a[(p, q)]))] + old(w.tqe)
  {
    hide WellFormed, QueuesOk, Settled, Reduces, Pop, SingleInCol, Size, NoDup, SlackRange, SubstCol, FixedColEntry,
      SlackCostPart, DropCol, RowCols, RowVec, SlackProblem;
    ghost var u, P, T := w.Now(), w.Problem(), w.tqe;
    WellFormedRow(P, p);
    WellFormedCol(P, q);
    if w.col[q].rng.Fixed() {
      SubstColSize(P, q, w.col[q].rng.lb.v);
      ProcessFixedCol(w, q);
      return;
    }
    var rhs, c, apq, own := w.row[p].lb.v, w.col[q].c, w.a[(p, q)], w.col[q].rng;
    ColSngton1Reduces(P, p, q, T);
    w.tqe := [ColSngton1(p, q, rhs, c, apq)] + w.tqe;
    w.row := w.row[p := SlackRange(own, rhs, apq)];
    SlackRangeOrdered(own, rhs, apq);
    SlackMidway(u, p, q, SlackRange(own, rhs, apq));
    QueuesNoDup(u);
    w.RemoveColAt(q);
    PopFacts(u.cq, q);
    ghost var v1 := w.Now();
    QueuesNoDup(v1);
    RowColsFacts(v1.P, p);
    RemovedElems(P, q);
    var elems := RowCols(w.row, w.col, w.a, p);
    SlackCostEnds(P, p, q, elems);
    SubstituteCosts(w, p, q, apq, c, P, elems);
    w.c0 := w.c0 + c * (rhs / apq);
    SlackParts(P, p, q, w.Problem(), elems, w.c0);
    SettledSlack(u, w.Now(), p, q);
    SlackQueues(u, w.Now(), p, q);
  }

  lemma RemovedElems(P: LP, q: int)
    requires WellFormed(P)
    ensures forall i, j :: (i, j) in DropCol(P.a, q) <==> (i, j) in P.a && j != q
    ensures forall k :: k in DropCol(P.a, q) ==> DropCol(P.a, q)[k] == P.a[k]
    ensures forall i, j :: (i, j) in P.a ==> i in P.row && j in P.col
  {
  }
}
