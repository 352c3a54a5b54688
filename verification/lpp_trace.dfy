/** Runs of the presolver: what one step does to the row or column at the head of a queue, and what every row and column that remains
    has been through. */
module LpTrace {
  import opened Collections
  import opened LpModel
  import opened LpRecover
  import opened LpReduce
  import opened LpKktForce
  import opened LpQueue
  import opened LpWorkspace
  import opened LpLocal
  import opened LpProcessImplied

  /** A step on the row at the head of the queue that does not fail. The row goes, unless values of its columns within their ranges can be
      strictly inside all its bounds; then it keeps exactly the bounds that such values can violate. */
  ghost predicate RowSpec(v: View, w: View) {
    && v.rq != [] && v.rq[0] in v.P.row
    && var p := v.rq[0];
       && RowMeets(v.P, p) && Settled(v.(rq := Pop(v.rq, p)), w, {}, {})
       && (EmptyRowAt(v.P, p) || v.P.row[p].Free() ==> w.P == RemoveRow(v.P, p))
       && (!CleanRow(v.P, p) ==> p !in w.P.row)
       && (CleanRow(v.P, p) && Stuck(v.P, p) ==> p !in w.P.row && forall j :: (p, j) in v.P.a ==> j !in w.P.col)
       && (CleanRow(v.P, p) && !Stuck(v.P, p) ==> w.P == SetRowRange(v.P, p, NeededRange(v.P, p)))
  }

  /** Column q has its only element in a row that is neither an equality nor free, and that together with its other columns keeps the
      column within its bounds. */
  ghost predicate Implied(P: LP, p: int, q: int)
    requires q in P.col
  {
    && p in P.row && SingleInCol(P, p, q) && (p, q) in P.a && P.a[(p, q)] != 0.0 && !P.row[p].Fixed() && !P.row[p].Free()
    && ImpliedFree(P, p, q)
  }

  /** The cost of the column drives it, or the dual value of its only row, towards a bound that is not there. */
  ghost predicate ColFails(P: LP, q: int)
    requires q in P.col
  {
    || (EmptyColAt(P, q) && ((P.col[q].c > 0.0 && P.col[q].rng.lb.Inf?) || (P.col[q].c < 0.0 && P.col[q].rng.ub.Inf?)))
    || (!EmptyColAt(P, q) && !P.col[q].rng.Fixed() && exists p :: Implied(P, p, q) && Missing(P, p, q))
  }

  /** Row p holds the only element of column q. */
  ghost predicate Alone(P: LP, p: int, q: int) {
    p in P.row && SingleInCol(P, p, q) && (p, q) in P.a
  }

  /** A step on the column at the head of the queue that does not fail. */
  ghost predicate ColSpec(v: View, w: View) {
    && v.cq != [] && v.cq[0] in v.P.col
    && var q := v.cq[0];
       && !ColFails(v.P, q) && Settled(v.(cq := Pop(v.cq, q)), w, {}, {})
       && (!CleanCol(v.P, q) ==> q !in w.P.col)
       && (forall p :: CleanCol(v.P, q) && Alone(v.P, p, q) ==>
             if v.P.row[p].Fixed() || Implied(v.P, p, q) then q !in w.P.col
             else w.P == if v.P.row[p].Free() then RemoveRow(v.P, p) else v.P)
       && (CleanCol(v.P, q) && (forall p :: !Alone(v.P, p, q)) ==> w.P == v.P)
  }

  ghost predicate StepOk(v: View, w: View) {
    RowSpec(v, w) || ColSpec(v, w)
  }

  /** Row i was at the head of the queue and had nothing to give: it can be satisfied strictly inside its bounds, and each of its bounds
      can be violated by values of its columns within their ranges. */
  ghost predicate Analysed(v: View, i: int) {
    && v.rq != [] && v.rq[0] == i && i in v.P.row && CleanRow(v.P, i)
    && RowMeets(v.P, i) && !Stuck(v.P, i) && NeededRange(v.P, i) == v.P.row[i]
  }

  /** Column j was at the head of the queue and could not be dropped. */
  ghost predicate Tested(v: View, j: int) {
    && v.cq != [] && v.cq[0] == j && j in v.P.col && CleanCol(v.P, j) && !ColFails(v.P, j)
    && forall p :: Alone(v.P, p, j) ==> !v.P.row[p].Fixed() && !v.P.row[p].Free() && !Implied(v.P, p, j)
  }

  ghost predicate RowSeen(run: seq<View>, P: LP, i: int) {
    exists k :: 0 <= k < |run| && Analysed(run[k], i) && RowKept(run[k].P, P, i)
  }

  ghost predicate ColSeen(run: seq<View>, P: LP, j: int) {
    exists k :: 0 <= k < |run| && Tested(run[k], j) && ColKept(run[k].P, P, j)
  }

  /** Rows and columns outside the queues were analysed some time in the run and have not changed since. */
  ghost predicate Seen(run: seq<View>, v: View) {
    && (forall i :: i in v.P.row && i !in v.rq ==> RowSeen(run, v.P, i))
    && (forall j :: j in v.P.col && j !in v.cq ==> ColSeen(run, v.P, j))
  }

  /** The views before each step of a run that has come to v. */
  ghost predicate IsRun(start: View, run: seq<View>, v: View) {
    && (run == [] ==> v == start) && (run != [] ==> run[0] == start && StepOk(run[|run| - 1], v))
    && forall k :: 0 <= k < |run| - 1 ==> StepOk(run[k], run[k + 1])
  }

  lemma RunStart(v: View)
    requires (forall i :: i in v.P.row ==> i in v.rq) && forall j :: j in v.P.col ==> j in v.cq
    ensures IsRun(v, [], v) && Seen([], v)
  {
  }

  lemma RunGrows(start: View, run: seq<View>, v: View, w: View)
    requires IsRun(start, run, v) && StepOk(v, w)
    ensures IsRun(start, run + [v], w)
  {
    hide StepOk;
    var r := run + [v];
    forall k | 0 <= k < |r| - 1 ensures StepOk(r[k], r[k + 1]) {
      if k < |run| - 1 {
        assert r[k] == run[k] && r[k + 1] == run[k + 1];
      }
    }
  }

  // ----- what the routines establish

  lemma RowSpecGone(u: View, w: View, p: int)
    requires u.rq != [] && u.rq[0] == p && p in u.P.row && RowMeets(u.P, p) && Settled(u.(rq := Pop(u.rq, p)), w, {}, {})
    requires p !in w.P.row && !CleanRow(u.P, p) && (EmptyRowAt(u.P, p) || u.P.row[p].Free() ==> w.P == RemoveRow(u.P, p))
    ensures RowSpec(u, w)
  {
    hide RowMeets, Settled, CleanRow, Stuck, NeededRange;
  }

  lemma RowSpecGeneral(u: View, w: View, p: int)
    requires u.rq != [] && u.rq[0] == p && p in u.P.row && RowMeets(u.P, p) && Settled(u.(rq := Pop(u.rq, p)), w, {}, {}) && CleanRow(u.P, p)
    requires Stuck(u.P, p) ==> p !in w.P.row && forall j :: (p, j) in u.P.a ==> j !in w.P.col
    requires !Stuck(u.P, p) ==> w.P == SetRowRange(u.P, p, NeededRange(u.P, p))
    ensures RowSpec(u, w)
  {
    hide RowMeets, Settled, Stuck, NeededRange;
  }

  lemma SingleNotClean(P: LP, p: int, q: int)
    requires p in P.row && SingleInRow(P, p, q) && (p, q) in P.a
    ensures !CleanRow(P, p) && !EmptyRowAt(P, p)
  {
    assert (p, q).0 == p;
  }

  lemma IdleNotClean(P: LP, p: int)
    requires p in P.row && (EmptyRowAt(P, p) || P.row[p].Free())
    ensures !CleanRow(P, p)
  {
  }

  lemma ColSpecGone(u: View, w: View, q: int)
    requires u.cq != [] && u.cq[0] == q && q in u.P.col && !ColFails(u.P, q) && Settled(u.(cq := Pop(u.cq, q)), w, {}, {})
    requires q !in w.P.col && (!CleanCol(u.P, q) || exists p :: Alone(u.P, p, q) && (u.P.row[p].Fixed() || Implied(u.P, p, q)))
    ensures ColSpec(u, w)
  {
    hide Settled, ColFails, CleanCol, Implied;
    if CleanCol(u.P, q) {
      var p :| Alone(u.P, p, q) && (u.P.row[p].Fixed() || Implied(u.P, p, q));
      forall p' | Alone(u.P, p', q) ensures p' == p {
        OnlyRow(u.P, p, p', q);
      }
    }
  }

  lemma OnlyRow(P: LP, p: int, p': int, q: int)
    requires Alone(P, p, q) && Alone(P, p', q)
    ensures p' == p
  {
    assert (p', q).1 == q;
  }

  lemma ColSpecStays(u: View, w: View, q: int, p: int)
    requires u.cq != [] && u.cq[0] == q && q in u.P.col && !ColFails(u.P, q) && Settled(u.(cq := Pop(u.cq, q)), w, {}, {})
    requires CleanCol(u.P, q) && Alone(u.P, p, q) && !u.P.row[p].Fixed() && !Implied(u.P, p, q)
    requires w.P == if u.P.row[p].Free() then RemoveRow(u.P, p) else u.P
    ensures ColSpec(u, w)
  {
    hide Settled, ColFails, CleanCol, Implied;
    forall p' | Alone(u.P, p', q) ensures p' == p {
      OnlyRow(u.P, p, p', q);
    }
  }

  lemma ColSpecSame(u: View, w: View, q: int)
    requires u.cq != [] && u.cq[0] == q && q in u.P.col && !ColFails(u.P, q) && Settled(u.(cq := Pop(u.cq, q)), w, {}, {})
    requires CleanCol(u.P, q) && (forall p :: !Alone(u.P, p, q)) && w.P == u.P
    ensures ColSpec(u, w)
  {
    hide Settled, ColFails, CleanCol, Implied;
  }

  /** Failing is a matter of an empty column, or of the only row of the column. */
  lemma FailsEmpty(P: LP, q: int)
    requires q in P.col && EmptyColAt(P, q)
    ensures ColFails(P, q) <==> (P.col[q].c > 0.0 && P.col[q].rng.lb.Inf?) || (P.col[q].c < 0.0 && P.col[q].rng.ub.Inf?)
  {
    hide Implied;
  }

  lemma FixedFineCol(P: LP, q: int)
    requires q in P.col && P.col[q].rng.Fixed() && !EmptyColAt(P, q)
    ensures !ColFails(P, q)
  {
    hide Implied;
  }

  lemma FailsAlone(P: LP, p: int, q: int)
    requires q in P.col && Alone(P, p, q) && !EmptyColAt(P, q) && !P.col[q].rng.Fixed() && P.a[(p, q)] != 0.0
    ensures ColFails(P, q) <==> Implied(P, p, q) && Missing(P, p, q)
    ensures Implied(P, p, q) <==> !P.row[p].Fixed() && !P.row[p].Free() && ImpliedFree(P, p, q)
  {
    hide Missing, ImpliedFree, SingleInCol;
    if p' :| Implied(P, p', q) && Missing(P, p', q) {
      OnlyRow(P, p, p', q);
    }
  }

  lemma FailsNone(P: LP, q: int)
    requires q in P.col && !EmptyColAt(P, q) && forall p :: !Alone(P, p, q)
    ensures !ColFails(P, q)
  {
    hide ImpliedFree, Missing, SingleInCol;
    forall p ensures !Implied(P, p, q) {
      assert !Alone(P, p, q);
    }
  }

  // ----- seeing survives

  lemma RowKeptTrans(P: LP, Q: LP, R: LP, i: int)
    requires RowKept(P, Q, i) && RowKept(Q, R, i)
    ensures RowKept(P, R, i)
  {
  }

  lemma ColKeptTrans(P: LP, Q: LP, R: LP, j: int)
    requires ColKept(P, Q, j) && ColKept(Q, R, j)
    ensures ColKept(P, R, j)
  {
  }

  lemma RowSeenOn(run: seq<View>, v: View, R: LP, i: int)
    requires RowSeen(run, v.P, i) && RowKept(v.P, R, i)
    ensures RowSeen(run + [v], R, i)
  {
    hide RowKept, Analysed;
    var k :| 0 <= k < |run| && Analysed(run[k], i) && RowKept(run[k].P, v.P, i);
    RowKeptTrans(run[k].P, v.P, R, i);
    assert (run + [v])[k] == run[k];
  }

  lemma ColSeenOn(run: seq<View>, v: View, R: LP, j: int)
    requires ColSeen(run, v.P, j) && ColKept(v.P, R, j)
    ensures ColSeen(run + [v], R, j)
  {
    hide ColKept, Tested;
    var k :| 0 <= k < |run| && Tested(run[k], j) && ColKept(run[k].P, v.P, j);
    ColKeptTrans(run[k].P, v.P, R, j);
    assert (run + [v])[k] == run[k];
  }

  lemma RowSeenNow(run: seq<View>, v: View, R: LP, i: int)
    requires Analysed(v, i) && RowKept(v.P, R, i)
    ensures RowSeen(run + [v], R, i)
  {
    hide RowKept, Analysed;
    assert (run + [v])[|run|] == v;
  }

  lemma ColSeenNow(run: seq<View>, v: View, R: LP, j: int)
    requires Tested(v, j) && ColKept(v.P, R, j)
    ensures ColSeen(run + [v], R, j)
  {
    hide ColKept, Tested;
    assert (run + [v])[|run|] == v;
  }

  /** A row step: the head either is queued again, is gone, or had nothing to give. */
  lemma HeadAnalysed(v: View, w: View)
    requires RowSpec(v, w) && NoDup(v.rq) && v.rq[0] in w.P.row && v.rq[0] !in w.rq
    ensures Analysed(v, v.rq[0]) && RowKept(v.P, w.P, v.rq[0])
  {
    hide RowMeets, Stuck, NeededRange, CleanRow;
    var p := v.rq[0];
    PopFacts(v.rq, p);
  }

  lemma HeadTested(v: View, w: View)
    requires ColSpec(v, w) && NoDup(v.cq) && v.cq[0] in w.P.col && v.cq[0] !in w.cq
    ensures Tested(v, v.cq[0]) && ColKept(v.P, w.P, v.cq[0])
  {
    hide ColFails, CleanCol, Implied, SingleInCol;
    var q := v.cq[0];
    PopFacts(v.cq, q);
    forall p | Alone(v.P, p, q) ensures !v.P.row[p].Fixed() && !v.P.row[p].Free() && !Implied(v.P, p, q) {
      if v.P.row[p].Free() && !v.P.row[p].Fixed() && !Implied(v.P, p, q) {
        RemovedElem(v.P, p, q);
      }
    }
  }

  lemma RemovedElem(P: LP, p: int, q: int)
    ensures (p, q) !in RemoveRow(P, p).a
  {
  }

  lemma SettledRow(v: View, u: View, w: View, i: int)
    requires Settled(u, w, {}, {}) && u.P == v.P && i in w.P.row && i !in w.rq
    ensures i !in u.rq && RowKept(v.P, w.P, i) && i in v.P.row
  {
  }

  lemma SettledCol(v: View, u: View, w: View, j: int)
    requires Settled(u, w, {}, {}) && u.P == v.P && j in w.P.col && j !in w.cq
    ensures j !in u.cq && ColKept(v.P, w.P, j) && j in v.P.col
  {
  }

  lemma SeenAfterRow(run: seq<View>, v: View, w: View)
    requires Seen(run, v) && RowSpec(v, w) && NoDup(v.rq)
    ensures Seen(run + [v], w)
  {
    hide RowSeen, ColSeen, RowKept, ColKept, RowMeets, Stuck, NeededRange, CleanRow, Settled, Analysed;
    var p := v.rq[0];
    var u := v.(rq := Pop(v.rq, p));
    PopFacts(v.rq, p);
    forall i | i in w.P.row && i !in w.rq ensures RowSeen(run + [v], w.P, i) {
      SettledRow(v, u, w, i);
      if i == p {
        HeadAnalysed(v, w);
        RowSeenNow(run, v, w.P, i);
      } else {
        RowSeenOn(run, v, w.P, i);
      }
    }
    forall j | j in w.P.col && j !in w.cq ensures ColSeen(run + [v], w.P, j) {
      SettledCol(v, u, w, j);
      ColSeenOn(run, v, w.P, j);
    }
  }

  lemma SeenAfterCol(run: seq<View>, v: View, w: View)
    requires Seen(run, v) && ColSpec(v, w) && NoDup(v.cq)
    ensures Seen(run + [v], w)
  {
    hide RowSeen, ColSeen, RowKept, ColKept, ColFails, CleanCol, Settled, Tested, Implied, Alone;
    var q := v.cq[0];
    var u := v.(cq := Pop(v.cq, q));
    PopFacts(v.cq, q);
    forall i | i in w.P.row && i !in w.rq ensures RowSeen(run + [v], w.P, i) {
      SettledRow(v, u, w, i);
      RowSeenOn(run, v, w.P, i);
    }
    forall j | j in w.P.col && j !in w.cq ensures ColSeen(run + [v], w.P, j) {
      SettledCol(v, u, w, j);
      if j == q {
        HeadTested(v, w);
        ColSeenNow(run, v, w.P, j);
      } else {
        ColSeenOn(run, v, w.P, j);
      }
    }
  }

  /** At the end every row and column has been seen. */
  ghost predicate AllSeen(run: seq<View>, P: LP) {
    (forall i :: i in P.row ==> RowSeen(run, P, i)) && forall j :: j in P.col ==> ColSeen(run, P, j)
  }
}
