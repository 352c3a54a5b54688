/** lpp_presolve: the queue-driven main loop. */
module LpPresolve {
  import opened Collections
  import opened LpModel
  import opened LpRecover
  import opened LpReduce
  import opened LpEquiv
  import opened LpDual
  import opened LpCompose
  import opened LpQueue
  import opened LpWorkspace
  import opened LpProcessPlain
  import opened LpProcessSngton
  import opened LpProcessSlack
  import opened LpProcessImplied
  import opened LpAnalyze
  import opened LpLocal
  import opened LpTrace
  import opened LpKktForce

  /** Lexicographic progress: items, then finite row bounds, then queue lengths. */
  ghost predicate Below(w: View, v: View) {
    || Size(w.P) < Size(v.P)
    || (Size(w.P) == Size(v.P) && Fins(w.P) < Fins(v.P))
    || (Size(w.P) == Size(v.P) && Fins(w.P) == Fins(v.P) && |w.rq| + |w.cq| < |v.rq| + |v.cq|)
  }

  lemma BelowTrans(u: View, v: View, w: View)
    requires Below(v, u) && Below(w, v)
    ensures Below(w, u)
  {
    hide Size, Fins;
  }

  lemma DequeRowView(u: View, v: View, p: int)
    requires QueuesOk(u) && p in u.rq && v == u.(rq := Pop(u.rq, p))
    ensures QueuesOk(v) && Below(v, u) && p in u.P.row
    ensures Clean(u, {}, {}) ==> Clean(v, {p}, {})
  {
    hide CleanRow, CleanCol;
    PopFacts(u.rq, p);
  }

  lemma DequeColView(u: View, v: View, q: int)
    requires QueuesOk(u) && q in u.cq && v == u.(cq := Pop(u.cq, q))
    ensures QueuesOk(v) && Below(v, u) && q in u.P.col
    ensures Clean(u, {}, {}) ==> Clean(v, {}, {q})
  {
    hide CleanRow, CleanCol;
    PopFacts(u.cq, q);
  }

  /** A row that was processed is gone, active again, or clean. */
  lemma CleanAfterRow(v: View, w: View, p: int)
    requires Clean(v, {p}, {}) && Settled(v, w, {}, {})
    requires p !in w.P.row || p in w.rq || (p in w.P.row && CleanRow(w.P, p))
    ensures Clean(w, {}, {})
  {
    hide CleanRow, CleanCol, RowKept, ColKept;
    SettledMore(v, w, {}, {}, {p}, {});
    CleanSettled(v, w, {p}, {});
  }

  lemma CleanAfterCol(v: View, w: View, q: int)
    requires Clean(v, {}, {q}) && Settled(v, w, {}, {})
    requires q !in w.P.col || q in w.cq || (q in w.P.col && CleanCol(w.P, q))
    ensures Clean(w, {}, {})
  {
    hide CleanRow, CleanCol, RowKept, ColKept;
    SettledMore(v, w, {}, {}, {}, {q});
    CleanSettled(v, w, {}, {q});
  }

  lemma GeneralRow(P: LP, p: int)
    requires WellFormed(P) && p in P.row && !P.row[p].Free()
    requires RowCols(P.row, P.col, P.a, p) != {} && |RowCols(P.row, P.col, P.a, p)| != 1
    ensures CleanRow(P, p)
  {
    var E := RowCols(P.row, P.col, P.a, p);
    RowColsFacts(P, p);
    Inhabited(E);
    var j :| j in E;
    assert (p, j) in P.a && (p, j).0 == p;
    forall q | (p, q) in P.a ensures !SingleInRow(P, p, q) {
      Another(E, q);
      var j' :| j' in E && j' != q;
      assert (p, j') in P.a && (p, j').0 == p;
    }
  }

  lemma GeneralCol(P: LP, q: int)
    requires WellFormed(P) && q in P.col && !P.col[q].rng.Fixed() && ColRows(P.row, P.col, P.a, q) != {}
    ensures CleanCol(P, q)
  {
    ColRowsFacts(P, q);
    Inhabited(ColRows(P.row, P.col, P.a, q));
    var i :| i in ColRows(P.row, P.col, P.a, q);
    assert (i, q) in P.a && (i, q).1 == q;
  }

  lemma EmptyCols(P: LP, q: int)
    requires WellFormed(P) && ColRows(P.row, P.col, P.a, q) == {}
    ensures EmptyColAt(P, q)
  {
    ColRowsFacts(P, q);
    forall k | k in P.a ensures k.1 != q {
      var (i, j) := k;
    }
  }

  lemma SingleRow(P: LP, p: int)
    requires WellFormed(P) && p in P.row && |RowCols(P.row, P.col, P.a, p)| == 1
    ensures !CleanRow(P, p) && !EmptyRowAt(P, p)
  {
    hide WellFormed, RowCols, CleanRow, EmptyRowAt, SingleInRow;
    Inhabited(RowCols(P.row, P.col, P.a, p));
    var q :| q in RowCols(P.row, P.col, P.a, p);
    SingleRowFacts(P, p, q);
    SingleNotClean(P, p, q);
  }

  /** The body of the inner row loop: take row p off the queue and process it. */
  method RowStep(w: Workspace) returns (code: int)
    requires w.Valid() && w.rowQue != [] && Clean(w.Now(), {}, {})
    modifies w
    ensures code == 0 || code == 1
    ensures old(w.rowQue)[0] in old(w.Problem()).row && (code == 1 <==> !RowMeets(old(w.Problem()), old(w.rowQue)[0]))
    ensures code == 1 ==> Infeasible(old(w.Problem()))
    ensures code == 0 ==> w.Valid() && Clean(w.Now(), {}, {}) && Below(w.Now(), old(w.Now())) && RowSpec(old(w.Now()), w.Now())
    ensures code == 0 ==> Reduces(old(w.Problem()), old(w.tqe), w.Problem(), w.tqe)
  {
    hide WellFormed, QueuesOk, Settled, Reduces, Size, Fins, Infeasible, Clean, CleanRow, RowCols, EmptyRowAt, RemoveRow,
      Pop, NoDup, RowMeets, Stuck, NeededRange, RowSpec;
    ghost var u := w.Now();
    var p := w.rowQue[0];
    w.DequeRow(p);
    ghost var v := w.Now();
    DequeRowView(u, v, p);
    var elems := RowCols(w.row, w.col, w.a, p);
    if elems == {} {
      EmptyRowCols(v.P, p);
      RemoveRowSize(v.P, p);
      RowGone(v.P, p);
      IdleNotClean(v.P, p);
      code := ProcessEmptyRow(w, p);
    } else if w.row[p].Free() {
      RemoveRowSize(v.P, p);
      RowGone(v.P, p);
      IdleNotClean(v.P, p);
      FreeMeets(v.P, p);
      ProcessFreeRow(w, p);
      code := 0;
    } else if |elems| == 1 && w.row[p].Fixed() {
      SingleRow(v.P, p);
      code := ProcessRowSngton1(w, p);
    } else if |elems| == 1 {
      SingleRow(v.P, p);
      code := ProcessRowSngton2(w, p);
    } else {
      GeneralRow(v.P, p);
      code := AnalyzeRow(w, p);
    }
    if code == 0 {
      CleanAfterRow(v, w.Now(), p);
      if w.Now() != v {
        BelowTrans(u, v, w.Now());
      }
      if CleanRow(u.P, p) {
        RowSpecGeneral(u, w.Now(), p);
      } else {
        RowSpecGone(u, w.Now(), p);
      }
    }
  }

  lemma RowGone(P: LP, p: int)
    ensures p !in RemoveRow(P, p).row
  {
  }

  lemma SeveralRows(P: LP, q: int)
    requires WellFormed(P) && q in P.col && ColRows(P.row, P.col, P.a, q) != {} && |ColRows(P.row, P.col, P.a, q)| != 1
    ensures forall p :: !Alone(P, p, q)
  {
    var E := ColRows(P.row, P.col, P.a, q);
    ColRowsFacts(P, q);
    forall p ensures !Alone(P, p, q) {
      if p in E {
        Another(E, p);
        var i :| i in E && i != p;
        assert (i, q) in P.a && (i, q).1 == q;
      }
    }
  }

  /** The body of the inner column loop. */
  method ColStep(w: Workspace) returns (code: int)
    requires w.Valid() && w.colQue != [] && Clean(w.Now(), {}, {})
    modifies w
    ensures code == 0 || code == 2
    ensures old(w.colQue)[0] in old(w.Problem()).col && (code == 2 <==> ColFails(old(w.Problem()), old(w.colQue)[0]))
    ensures code == 2 ==> NoOptimum(old(w.Problem())) && !DualFeasible(old(w.Problem()))
    ensures code == 0 ==> w.Valid() && Clean(w.Now(), {}, {}) && Below(w.Now(), old(w.Now())) && ColSpec(old(w.Now()), w.Now())
    ensures code == 0 ==> Reduces(old(w.Problem()), old(w.tqe), w.Problem(), w.tqe)
  {
    hide WellFormed, QueuesOk, Settled, Reduces, Size, Fins, NoOptimum, Clean, CleanCol, ColRows, EmptyColAt, SubstCol,
      Pop, NoDup, SlackProblem, SingleInCol, FixedColEntry, DualFeasible, ColFails, ColSpec, Implied, Missing, ImpliedFree;
    ghost var u, T := w.Now(), w.tqe;
    var q := w.colQue[0];
    w.DequeCol(q);
    ghost var v := w.Now();
    DequeColView(u, v, q);
    var elems := ColRows(w.row, w.col, w.a, q);
    code := 0;
    if elems == {} {
      EmptyCols(v.P, q);
      FailsEmpty(v.P, q);
      EmptyNotClean(v.P, q);
      code := ProcessEmptyCol(w, q);
      if code == 0 {
        SubstColSize(v.P, q, w.tqe[0].prim);
        SubstColGone(v.P, q, w.tqe[0].prim);
        ColSpecGone(u, w.Now(), q);
      }
    } else if w.col[q].rng.Fixed() {
      NotEmptyCol(v.P, q);
      FixedFineCol(v.P, q);
      FixedNotClean(v.P, q);
      SubstColSize(v.P, q, w.col[q].rng.lb.v);
      SubstColGone(v.P, q, w.col[q].rng.lb.v);
      ProcessFixedCol(w, q);
      ColSpecGone(u, w.Now(), q);
    } else if |elems| == 1 {
      Inhabited(elems);
      var p :| p in elems;
      code := SingleCol(w, u, v, p, q);
    } else {
      GeneralCol(v.P, q);
      NotEmptyCol(v.P, q);
      SeveralRows(v.P, q);
      FailsNone(v.P, q);
      ReducesRefl(v.P, T);
      SettledRefl(v);
      ColSpecSame(u, v, q);
    }
    if code == 0 {
      CleanAfterCol(v, w.Now(), q);
      if w.Now() != v {
        BelowTrans(u, v, w.Now());
      }
    }
  }

  /** The case of a column singleton. */
  method SingleCol(w: Workspace, ghost u: View, ghost v: View, p: int, q: int) returns (code: int)
    requires w.Valid() && w.Now() == v && q in w.col && !w.col[q].rng.Fixed() && |ColRows(w.row, w.col, w.a, q)| == 1
    requires p in ColRows(w.row, w.col, w.a, q) && u.cq != [] && u.cq[0] == q && v == u.(cq := Pop(u.cq, q))
    modifies w
    ensures code == 0 || code == 2
    ensures code == 2 <==> ColFails(u.P, q)
    ensures code == 2 ==> NoOptimum(u.P) && !DualFeasible(u.P)
    ensures code == 0 ==> w.Valid() && Settled(v, w.Now(), {}, {}) && ColSpec(u, w.Now())
    ensures code == 0 ==> Reduces(u.P, old(w.tqe), w.Problem(), w.tqe)
    ensures code == 0 ==> w.Now() == v || Size(w.Problem()) < Size(v.P)
    ensures code == 0 ==> q !in w.col || q in w.colQue || (q in w.col && CleanCol(w.Problem(), q))
  {
    hide WellFormed, QueuesOk, Settled, Reduces, Size, Fins, NoOptimum, Clean, CleanCol, ColRows, EmptyColAt, SubstCol,
      Pop, NoDup, SlackProblem, SingleInCol, FixedColEntry, DualFeasible, ColFails, ColSpec, Implied, Missing, ImpliedFree;
    SingleColFacts(v.P, q, p);
    WellFormedElem(v.P, p, q);
    Inhabited(ColRows(w.row, w.col, w.a, q));
    GeneralCol(v.P, q);
    NotEmptyCol(v.P, q);
    assert Alone(u.P, p, q);
    FailsAlone(u.P, p, q);
    code := 0;
    if w.row[p].Fixed() {
      SlackGone(v.P, p, q);
      ProcessColSngton1(w, p, q);
      ColSpecGone(u, w.Now(), q);
    } else {
      code := ProcessColSngton2(w, p, q);
      if code == 0 {
        if Implied(u.P, p, q) {
          ColSpecGone(u, w.Now(), q);
        } else {
          ColSpecStays(u, w.Now(), q, p);
        }
      }
    }
  }

  lemma EmptyNotClean(P: LP, q: int)
    requires q in P.col && EmptyColAt(P, q)
    ensures !CleanCol(P, q)
  {
  }

  lemma FixedNotClean(P: LP, q: int)
    requires q in P.col && P.col[q].rng.Fixed()
    ensures !CleanCol(P, q)
  {
  }

  lemma NotEmptyCol(P: LP, q: int)
    requires WellFormed(P) && ColRows(P.row, P.col, P.a, q) != {}
    ensures !EmptyColAt(P, q)
  {
    ColRowsFacts(P, q);
    Inhabited(ColRows(P.row, P.col, P.a, q));
    var i :| i in ColRows(P.row, P.col, P.a, q);
    assert (i, q) in P.a && (i, q).1 == q;
  }

  ghost predicate AllActive(v: View) {
    (forall i :: i in v.P.row ==> i in v.rq) && (forall j :: j in v.P.col ==> j in v.cq)
  }

  lemma CleanStart(v: View)
    requires AllActive(v)
    ensures Clean(v, {}, {})
  {
  }

  /** Nothing more to reduce: no empty, free or singleton row, and no empty or fixed column. */
  ghost predicate Reduced(P: LP) {
    && (forall i :: i in P.row ==> CleanRow(P, i))
    && (forall j :: j in P.col ==> CleanCol(P, j))
  }

  lemma CleanDone(v: View)
    requires Clean(v, {}, {}) && v.rq == [] && v.cq == []
    ensures Reduced(v.P)
  {
    hide CleanRow, CleanCol;
  }

  lemma InfeasibleBack(P: LP, T: seq<Entry>, R: LP, T': seq<Entry>)
    requires Reduces(P, T, R, T') && Infeasible(R)
    ensures Infeasible(P)
  {
    hide Infeasible, Restores, Equivalent;
    EquivalentOptima(P, R);
  }

  lemma NoOptimumBack(P: LP, T: seq<Entry>, R: LP, T': seq<Entry>)
    requires Reduces(P, T, R, T') && NoOptimum(R)
    ensures NoOptimum(P) && (!DualFeasible(R) ==> !DualFeasible(P))
  {
    hide NoOptimum, Restores, Equivalent, DualFeasible;
    EquivalentOptima(P, R);
  }

  /** What the loops keep: the run so far, the correctness of the reductions, and that everything outside the queues has been seen. */
  ghost predicate Going(start: View, run: seq<View>, v: View, T: seq<Entry>) {
    Clean(v, {}, {}) && Reduces(start.P, [], v.P, T) && IsRun(start, run, v) && Seen(run, v)
  }

  lemma GoingOnRow(start: View, run: seq<View>, v: View, T: seq<Entry>, w: View, T': seq<Entry>)
    requires Going(start, run, v, T) && QueuesOk(v) && RowSpec(v, w) && Clean(w, {}, {}) && Reduces(v.P, T, w.P, T')
    ensures Going(start, run + [v], w, T')
  {
    hide Clean, Reduces, IsRun, Seen, RowSpec;
    QueuesNoDup(v);
    ReducesTrans(start.P, [], v.P, T, w.P, T');
    RunGrows(start, run, v, w);
    SeenAfterRow(run, v, w);
  }

  lemma GoingOnCol(start: View, run: seq<View>, v: View, T: seq<Entry>, w: View, T': seq<Entry>)
    requires Going(start, run, v, T) && QueuesOk(v) && ColSpec(v, w) && Clean(w, {}, {}) && Reduces(v.P, T, w.P, T')
    ensures Going(start, run + [v], w, T')
  {
    hide Clean, Reduces, IsRun, Seen, ColSpec;
    QueuesNoDup(v);
    ReducesTrans(start.P, [], v.P, T, w.P, T');
    RunGrows(start, run, v, w);
    SeenAfterCol(run, v, w);
  }

  /** The run has stopped at a row that cannot be satisfied. */
  ghost predicate RowStops(start: View, run: seq<View>, v: View) {
    IsRun(start, run, v) && v.rq != [] && v.rq[0] in v.P.row && !RowMeets(v.P, v.rq[0])
  }

  /** The run has stopped at a column that fails. */
  ghost predicate ColStops(start: View, run: seq<View>, v: View) {
    IsRun(start, run, v) && v.cq != [] && v.cq[0] in v.P.col && ColFails(v.P, v.cq[0])
  }

  method PresolveRows(w: Workspace, ghost start: View, ghost before: seq<View>) returns (code: int, ghost run: seq<View>, ghost last: View)
    requires w.Valid() && Going(start, before, w.Now(), w.tqe)
    modifies w
    ensures code == 0 || code == 1
    ensures code == 1 ==> Infeasible(start.P) && RowStops(start, run, last)
    ensures code == 0 ==> w.Valid() && Going(start, run, w.Now(), w.tqe) && w.rowQue == []
    ensures code == 0 ==> w.Now() == old(w.Now()) || Below(w.Now(), old(w.Now()))
  {
    hide WellFormed, QueuesOk, Reduces, Size, Fins, Infeasible, Clean, IsRun, Seen, RowSpec, RowMeets, Going;
    ghost var first := w.Now();
    code, run, last := 0, before, first;
    while w.rowQue != []
      invariant w.Valid() && Going(start, run, w.Now(), w.tqe)
      invariant w.Now() == first || Below(w.Now(), first)
      decreases Size(w.Problem()), Fins(w.Problem()), |w.rowQue| + |w.colQue|
    {
      ghost var v, T := w.Now(), w.tqe;
      GoingParts(start, run, v, T);
      code := RowStep(w);
      if code != 0 {
        InfeasibleBack(start.P, [], v.P, T);
        last := v;
        return;
      }
      GoingOnRow(start, run, v, T, w.Now(), w.tqe);
      run := run + [v];
      if v != first {
        BelowTrans(first, v, w.Now());
      }
    }
  }

  lemma GoingParts(start: View, run: seq<View>, v: View, T: seq<Entry>)
    requires Going(start, run, v, T)
    ensures Clean(v, {}, {}) && Reduces(start.P, [], v.P, T) && IsRun(start, run, v)
  {
  }

  method PresolveCols(w: Workspace, ghost start: View, ghost before: seq<View>) returns (code: int, ghost run: seq<View>, ghost last: View)
    requires w.Valid() && Going(start, before, w.Now(), w.tqe)
    modifies w
    ensures code == 0 || code == 2
    ensures code == 2 ==> NoOptimum(start.P) && !DualFeasible(start.P) && ColStops(start, run, last)
    ensures code == 0 ==> w.Valid() && Going(start, run, w.Now(), w.tqe) && w.colQue == []
    ensures code == 0 ==> w.Now() == old(w.Now()) || Below(w.Now(), old(w.Now()))
  {
    hide WellFormed, QueuesOk, Reduces, Size, Fins, NoOptimum, Clean, DualFeasible, IsRun, Seen, ColSpec, ColFails, Going;
    ghost var first := w.Now();
    code, run, last := 0, before, first;
    while w.colQue != []
      invariant w.Valid() && Going(start, run, w.Now(), w.tqe)
      invariant w.Now() == first || Below(w.Now(), first)
      decreases Size(w.Problem()), Fins(w.Problem()), |w.rowQue| + |w.colQue|
    {
      ghost var v, T := w.Now(), w.tqe;
      GoingParts(start, run, v, T);
      code := ColStep(w);
      if code != 0 {
        NoOptimumBack(start.P, [], v.P, T);
        last := v;
        return;
      }
      GoingOnCol(start, run, v, T, w.Now(), w.tqe);
      run := run + [v];
      if v != first {
        BelowTrans(first, v, w.Now());
      }
    }
  }

  /** lpp_presolve. It terminates on every problem; code 0 leaves an equivalent problem with nothing left to reduce and a
      history that turns its basic optimal solutions into basic optimal solutions of the original; code 1 means that the
      original is primal infeasible, code 2 that it has no optimal solution and no multipliers. The views of the run tell when each code
      comes: 1 at the first row that values of its columns within their ranges cannot satisfy, 2 at the first column that fails, 0 when
      every row and column that is left has been analysed without result and has not changed since. */
  method Presolve(w: Workspace) returns (code: int, ghost run: seq<View>, ghost last: View)
    requires w.Valid() && w.tqe == [] && AllActive(w.Now())
    modifies w
    ensures code == 0 || code == 1 || code == 2
    ensures code == 0 ==> w.Valid() && Reduced(w.Problem()) && Reduces(old(w.Problem()), [], w.Problem(), w.tqe)
    ensures code == 0 ==> last == w.Now() && IsRun(old(w.Now()), run, last) && AllSeen(run, last.P)
    ensures code == 1 ==> Infeasible(old(w.Problem())) && RowStops(old(w.Now()), run, last)
    ensures code == 2 ==> NoOptimum(old(w.Problem())) && !DualFeasible(old(w.Problem())) && ColStops(old(w.Now()), run, last)
  {
    hide WellFormed, QueuesOk, Reduces, Size, Fins, NoOptimum, Infeasible, Clean, Reduced, DualFeasible, Going, IsRun, RowStops, ColStops, AllSeen;
    ghost var start := w.Now();
    GoingStart(start);
    code, run, last := 0, [], start;
    while w.rowQue != [] || w.colQue != []
      invariant w.Valid() && Going(start, run, w.Now(), w.tqe)
      decreases Size(w.Problem()), Fins(w.Problem()), |w.rowQue| + |w.colQue|
    {
      ghost var first := w.Now();
      code, run, last := PresolveRows(w, start, run);
      if code != 0 {
        return;
      }
      ghost var mid := w.Now();
      code, run, last := PresolveCols(w, start, run);
      if code != 0 {
        return;
      }
      if mid != first && w.Now() != mid {
        BelowTrans(first, mid, w.Now());
      }
    }
    last := w.Now();
    GoingEnds(start, run, last, w.tqe);
  }

  lemma GoingStart(v: View)
    requires AllActive(v)
    ensures Going(v, [], v, [])
  {
    hide Clean, Reduces, IsRun, Seen;
    CleanStart(v);
    ReducesRefl(v.P, []);
    RunStart(v);
  }

  lemma GoingEnds(start: View, run: seq<View>, v: View, T: seq<Entry>)
    requires Going(start, run, v, T) && v.rq == [] && v.cq == []
    ensures Reduced(v.P) && Reduces(start.P, [], v.P, T) && IsRun(start, run, v) && AllSeen(run, v.P)
  {
    hide Clean, Reduces, IsRun, RowSeen, ColSeen, Reduced;
    CleanDone(v);
  }
}
