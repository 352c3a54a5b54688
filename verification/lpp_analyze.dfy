/** process_forcing_row and analyze_row. */
module LpAnalyze {
  import opened Sums
  import opened Collections
  import opened LpModel
  import opened LpRecover
  import opened LpReduce
  import opened LpKktRows
  import opened LpKktCols
  import opened LpKktForce
  import opened LpEquiv
  import opened LpEquivCols
  import opened LpDual
  import opened LpLocal
  import opened LpCompose
  import opened LpQueue
  import opened LpWorkspace
  import opened LpProcessPlain
  import opened LpProcessSngton
  import opened LpForcing

  lemma SettledPin(u: View, v: View, y: View, w: View, p: int, j: int)
    requires Settled(u, v, {p}, {}) && Settled(v, y, {p}, {j}) && Settled(y, w, {}, {}) && j !in w.P.col
    ensures Settled(u, w, {p}, {})
  {
    hide RowKept, ColKept;
    SettledMore(u, v, {p}, {}, {p}, {j});
    SettledMore(y, w, {}, {}, {p}, {j});
    SettledTrans(u, v, y, {p}, {j});
    SettledTrans(u, y, w, {p}, {j});
    SettledMore(u, w, {p}, {j}, {p}, {});
  }

  /** One column of the forcing row: fix it, take its element out of the row, substitute and remove it. */
  method PinOne(w: Workspace, p: int, at: int, j: int)
    requires w.Valid() && p in w.row && j in w.col && (p, j) in w.a
    modifies w
    ensures w.Valid()
    ensures var v := ForcedVal(old(w.col[j].rng), old(w.a[(p, j)]), at);
            var Y := PinColumn(old(w.Problem()), p, j, v);
            && w.Problem() == SubstCol(Y, j, v)
            && w.tqe == [FixedColEntry(Y, j, v)] + old(w.tqe)
            && j !in w.col && p in w.row && Size(w.Problem()) < Size(old(w.Problem()))
            && Settled(old(w.Now()), w.Now(), {p}, {})
  {
    hide WellFormed, QueuesOk, Settled, Reduces, SubstCol, FixedColEntry, Size, Pop, ForcedVal;
    ghost var u := w.Now();
    var v := ForcedVal(w.col[j].rng, w.a[(p, j)], at);
    PinFacts(u, p, j, v);
    w.col := w.col[j := w.col[j].(rng := FixAt(v))];
    w.a := w.a - {(p, j)};
    ghost var y := w.Now();
    ProcessFixedCol(w, j);
    SubstColSize(y.P, j, v);
    SubstColShape(y.P, j, v);
    SettledSelf(u, p);
    SettledPin(u, u, y, w.Now(), p, j);
  }

  lemma SettledSelf(u: View, p: int)
    requires WellFormed(u.P)
    ensures Settled(u, u, {p}, {})
  {
  }

  lemma SubstColShape(P: LP, q: int, v: real)
    requires q in P.col
    ensures q !in SubstCol(P, q, v).col && SubstCol(P, q, v).row.Keys == P.row.Keys
  {
  }

  lemma SettledTransRow(u: View, v: View, w: View, p: int)
    requires Settled(u, v, {p}, {}) && Settled(v, w, {p}, {})
    ensures Settled(u, w, {p}, {})
  {
    hide RowKept, ColKept, Settled;
    SettledTrans(u, v, w, {p}, {});
  }

  /** The second loop of process_forcing_row. The list in the entry of the row grows while entries for its columns are
      pushed on top of it. */
  method PinAll(w: Workspace, p: int, at: int, stat: Stat, bnd: real) returns (ghost l: seq<Lfx>, ghost es: seq<Entry>)
    requires w.Valid() && p in w.row
    modifies w
    ensures w.Valid() && p in w.row && Size(w.Problem()) <= Size(old(w.Problem()))
    ensures w.tqe == es + [ForcingRow(p, stat, bnd, l)] + old(w.tqe)
    ensures Pinning(old(w.Problem()), p, at, w.Problem(), {}, l, es) && StillIn(old(w.Problem()), w.Problem(), p)
    ensures Settled(old(w.Now()), w.Now(), {p}, {})
  {
    hide WellFormed, QueuesOk, Settled, Reduces, SubstCol, FixedColEntry, Size, ForcedVal, PinColumn, FlagOf, PinList,
      PinHistory, RowCols, RowVec, StillIn;
    ghost var u, P, T := w.Now(), w.Problem(), w.tqe;
    RowColsFacts(P, p);
    var todo := RowCols(w.row, w.col, w.a, p);
    PinningStart(P, p, at, todo);
    StillInSelf(P, p);
    SettledSelf(u, p);
    var list := [];
    var pushed := 0;
    w.tqe := [ForcingRow(p, stat, bnd, [])] + w.tqe;
    es := [];
    assert w.tqe == es + [ForcingRow(p, stat, bnd, list)] + T;
    while todo != {}
      invariant w.Valid() && p in w.row && Size(w.Problem()) <= Size(P)
      invariant pushed == |es| && w.tqe == es + [ForcingRow(p, stat, bnd, list)] + T
      invariant Pinning(P, p, at, w.Problem(), todo, list, es) && StillIn(P, w.Problem(), p)
      invariant Settled(u, w.Now(), {p}, {})
      decreases |todo|
    {
      Inhabited(todo);
      var j :| j in todo;
      ghost var now, v1 := w.Problem(), w.Now();
      var e := Lfx(j, FlagOf(w.a[(p, j)], at), w.a[(p, j)]);
      ghost var v := ForcedVal(w.col[j].rng, w.a[(p, j)], at);
      PinningStep(P, p, at, now, todo, list, es, j, v, e);
      list := [e] + list;
      w.tqe := w.tqe[pushed := ForcingRow(p, stat, bnd, list)];
      assert w.tqe == es + [ForcingRow(p, stat, bnd, list)] + T;
      PinOne(w, p, at, j);
      ghost var f := FixedColEntry(PinColumn(now, p, j, v), j, v);
      assert [f] + (es + [ForcingRow(p, stat, bnd, list)] + T) == ([f] + es) + [ForcingRow(p, stat, bnd, list)] + T;
      es := [f] + es;
      pushed := pushed + 1;
      SettledTransRow(u, v1, w.Now(), p);
      StillInPin(P, now, p, j, v);
      todo := todo - {j};
    }
    l := list;
  }

  lemma ForcesFacts(P: LP, p: int, at: int)
    requires Forces(P, p, at)
    ensures p in P.row && RowBound(P.row[p], at).Fin? && (at == 0 || at == 1)
  {
  }

  lemma SettledGone(u: View, v: View, w: View, p: int)
    requires Settled(u, v, {p}, {}) && Settled(v, w, {}, {}) && p !in w.P.row
    ensures Settled(u, w, {}, {})
  {
    hide RowKept, ColKept;
    SettledMore(v, w, {}, {}, {p}, {});
    SettledTrans(u, v, w, {p}, {});
    SettledMore(u, w, {p}, {}, {}, {});
  }

  lemma EmptyRowCols(P: LP, p: int)
    requires WellFormed(P) && RowCols(P.row, P.col, P.a, p) == {}
    ensures EmptyRowAt(P, p)
  {
    RowColsFacts(P, p);
    forall k | k in P.a ensures k.0 != p {
      var (i, j) := k;
    }
  }

  lemma PinnedRow(P: LP, p: int, at: int, now: LP, l: seq<Lfx>, es: seq<Entry>)
    requires Pinning(P, p, at, now, {}, l, es)
    ensures EmptyRowAt(now, p)
  {
    hide PinHistory, PinList, WellFormed;
    forall k | k in now.a ensures k.0 != p {
      var (i, j) := k;
    }
  }

  method ProcessForcingRow(w: Workspace, p: int, at: int)
    requires w.Valid() && Forces(w.Problem(), p, at) && p in w.row
    modifies w
    ensures w.Valid() && p !in w.row && Size(w.Problem()) < Size(old(w.Problem()))
    ensures forall j :: (p, j) in old(w.a) ==> j !in w.col
    ensures Reduces(old(w.Problem()), old(w.tqe), w.Problem(), w.tqe)
    ensures Settled(old(w.Now()), w.Now(), {}, {})
  {
    hide WellFormed, QueuesOk, Settled, Reduces, Forces, Size, RowCols, EmptyRowAt, FixedOf, Pinning, DropRow, Pop, StillIn;
    ghost var u, P, T := w.Now(), w.Problem(), w.tqe;
    SubstituteFixed(w, p, at);
    ghost var v1, T1 := w.Now(), w.tqe;
    if RowCols(w.row, w.col, w.a, p) == {} {
      EmptyRowCols(v1.P, p);
      ForcesEmpty(v1.P, p, at);
      NoneLeft(P, v1.P, p);
      RemoveRowSize(v1.P, p);
      DropSatisfied(w, p);
    } else {
      ForcesFacts(v1.P, p, at);
      var r := w.row[p];
      var stat, bnd := NS, 0.0;
      if r.Fixed() {
        bnd := r.lb.v;
      } else if at == 0 {
        stat, bnd := NL, r.lb.v;
      } else {
        stat, bnd := NU, r.ub.v;
      }
      ghost var l, es := PinAll(w, p, at, stat, bnd);
      ghost var v2 := w.Now();
      PinnedRow(v1.P, p, at, v2.P, l, es);
      StillInTrans(P, v1.P, v2.P, p);
      NoneLeft(P, v2.P, p);
      RemoveRowSize(v2.P, p);
      w.RemoveRowAt(p);
      PinningDone(v1.P, p, at, v2.P, l, es, T1);
      assert ForcingRow(p, stat, bnd, l) == ForcedEntry(v1.P, p, at, l);
      SettledGone(v1, v2, w.Now(), p);
    }
    ReducesTrans(P, T, v1.P, T1, w.Problem(), w.tqe);
    SettledTrans(u, v1, w.Now(), {}, {});
  }

  // ----- analyze_row

  ghost function LowerBounded(row: map<int, Range>): set<int> {
    set i | i in row && row[i].lb.Fin?
  }

  ghost function UpperBounded(row: map<int, Range>): set<int> {
    set i | i in row && row[i].ub.Fin?
  }

  /** Number of finite row bounds. */
  ghost function Fins(P: LP): nat {
    |LowerBounded(P.row)| + |UpperBounded(P.row)|
  }

  lemma StripFins(P: LP, p: int, r: Range)
    requires p in P.row
    requires (r == P.row[p].(lb := Inf) && P.row[p].lb.Fin?) || (r == P.row[p].(ub := Inf) && P.row[p].ub.Fin?)
    ensures Fins(SetRowRange(P, p, r)) == Fins(P) - 1 && Size(SetRowRange(P, p, r)) == Size(P)
  {
    var R := SetRowRange(P, p, r);
    assert R.row.Keys == P.row.Keys;
    if r.lb != P.row[p].lb {
      assert LowerBounded(R.row) == LowerBounded(P.row) - {p};
      assert UpperBounded(R.row) == UpperBounded(P.row);
    } else {
      assert UpperBounded(R.row) == UpperBounded(P.row) - {p};
      assert LowerBounded(R.row) == LowerBounded(P.row);
    }
  }

  lemma StripFinite(P: LP, p: int, r: Range)
    requires StripOk(P, p, r)
    requires (r == P.row[p].(lb := Inf) && P.row[p].lb.Fin?) || (r == P.row[p].(ub := Inf) && P.row[p].ub.Fin?)
    ensures ForcedFin(P, p, if r == P.row[p].(lb := Inf) then 1 else 0)
  {
    hide ForcedFin, ForcedSum;
  }

  lemma StripReduces(P: LP, p: int, r: Range, T: seq<Entry>)
    requires WellFormed(P) && StripOk(P, p, r) && !P.row[p].Fixed()
    requires (r == P.row[p].(lb := Inf) && P.row[p].lb.Fin?) || (r == P.row[p].(ub := Inf) && P.row[p].ub.Fin?)
    ensures Reduces(P, T, SetRowRange(P, p, r), T)
  {
    StripFinite(P, p, r);
    hide WellFormed, StripOk, Restores, Equivalent, KeepsDual, ForcedFin;
    StripDual(P, p, r, r == P.row[p].(lb := Inf));
    StripEquiv(P, p, r);
    StripRestores(P, p, r);
    ReducesIntro(P, T, SetRowRange(P, p, r), []);
    assert [] + T == T;
  }

  lemma SettledStrip(v: View, w: View, p: int, r: Range)
    requires p in v.P.row && w.P == SetRowRange(v.P, p, r) && w.rq == Push(v.rq, p) && w.cq == v.cq
    ensures Settled(v, w, {}, {})
  {
  }

  lemma StripQueues(v: View, w: View, p: int, r: Range)
    requires QueuesOk(v) && p in v.P.row && w.P == SetRowRange(v.P, p, r) && w.rq == Push(v.rq, p) && w.cq == v.cq
    ensures QueuesOk(w) && p in w.rq
  {
    PushFacts(v.rq, p);
  }

  /** Drop one bound of row p and put the row back in the queue. */
  method StripBound(w: Workspace, p: int, r: Range)
    requires w.Valid() && p in w.row && StripOk(w.Problem(), p, r) && !w.row[p].Fixed() && r.Ordered()
    requires (r == w.row[p].(lb := Inf) && w.row[p].lb.Fin?) || (r == w.row[p].(ub := Inf) && w.row[p].ub.Fin?)
    modifies w
    ensures w.Valid() && w.Problem() == SetRowRange(old(w.Problem()), p, r) && w.tqe == old(w.tqe)
    ensures p in w.rowQue && Fins(w.Problem()) < Fins(old(w.Problem())) && Size(w.Problem()) == Size(old(w.Problem()))
    ensures Reduces(old(w.Problem()), old(w.tqe), w.Problem(), w.tqe)
    ensures Settled(old(w.Now()), w.Now(), {}, {})
  {
    hide WellFormed, QueuesOk, Settled, Reduces, Size, Fins, StripOk, Push;
    ghost var u, P, T := w.Now(), w.Problem(), w.tqe;
    StripReduces(P, p, r, T);
    StripFins(P, p, r);
    SetRowWellFormed(P, p, r);
    w.row := w.row[p := r];
    w.EnqueRow(p);
    SettledStrip(u, w.Now(), p, r);
    StripQueues(u, w.Now(), p, r);
  }

  /** It can meet one of them with all columns at their bounds only. */
  predicate Touches(r: Range, lo: Bound, hi: Bound) {
    (r.lb.Fin? && hi.Fin? && hi.v <= r.lb.v) || (r.ub.Fin? && lo.Fin? && lo.v >= r.ub.v)
  }

  /** The bounds that the activity can violate. */
  function Needed(r: Range, lo: Bound, hi: Bound): Range {
    Range(if r.lb.Fin? && lo.Fin? && lo.v >= r.lb.v then Inf else r.lb, if r.ub.Fin? && hi.Fin? && hi.v <= r.ub.v then Inf else r.ub)
  }

  lemma SetRowTwice(P: LP, p: int, r: Range, s: Range)
    requires p in P.row
    ensures SetRowRange(SetRowRange(P, p, r), p, s) == SetRowRange(P, p, s) && SetRowRange(P, p, P.row[p]) == P
  {
    assert P.row[p := r][p := s] == P.row[p := s];
    assert P.row[p := P.row[p]] == P.row;
  }

  /** The comparisons of analyze_row decide what values of the columns within their ranges can do to the row. */
  lemma AnalysisMeans(P: LP, p: int)
    requires WellFormed(P) && p in P.row
    ensures var r, lo, hi := P.row[p], ExtremeValue(P, p, 1), ExtremeValue(P, p, 0);
            && (RowMeets(P, p) <==> !Misses(r, lo, hi)) && (Stuck(P, p) <==> Touches(r, lo, hi)) && NeededRange(P, p) == Needed(r, lo, hi)
  {
    hide WellFormed, RowMeets, ExtremeValue, RowBelow, RowAbove;
    MeetsIff(P, p);
    var r := P.row[p];
    if r.lb.Fin? {
      BelowIff(P, p, r.lb.v);
      AboveIff(P, p, r.lb.v);
    }
    if r.ub.Fin? {
      BelowIff(P, p, r.ub.v);
      AboveIff(P, p, r.ub.v);
    }
  }

  /** Every outcome of analyze_row. */
  method AnalyzeRow(w: Workspace, p: int) returns (code: int)
    requires w.Valid() && p in w.row
    modifies w
    ensures code == 0 || code == 1
    ensures code == 1 ==> Infeasible(old(w.Problem()))
    ensures code == 1 <==> !RowMeets(old(w.Problem()), p)
    ensures code == 0 && Stuck(old(w.Problem()), p) ==> p !in w.row && forall j :: (p, j) in old(w.a) ==> j !in w.col
    ensures code == 0 && !Stuck(old(w.Problem()), p) ==>
              w.Problem() == SetRowRange(old(w.Problem()), p, NeededRange(old(w.Problem()), p)) && w.tqe == old(w.tqe)
    ensures code == 0 ==> w.Valid() && Reduces(old(w.Problem()), old(w.tqe), w.Problem(), w.tqe)
    ensures code == 0 ==> Settled(old(w.Now()), w.Now(), {}, {})
    ensures code == 0 ==>
              || w.Now() == old(w.Now())
              || (p !in w.row && Size(w.Problem()) < Size(old(w.Problem())))
              || (p in w.rowQue && Size(w.Problem()) == Size(old(w.Problem())) && Fins(w.Problem()) < Fins(old(w.Problem())))
  {
    hide WellFormed, QueuesOk, Settled, Reduces, Size, Fins, StripOk, Infeasible, ForcedFin, ForcedSum, RowMeets, Stuck, NeededRange;
    ghost var u, P, T := w.Now(), w.Problem(), w.tqe;
    WellFormedRow(P, p);
    AnalysisMeans(P, p);
    var lo := ComputeExtreme(w, p, 1);
    var hi := ComputeExtreme(w, p, 0);
    var r := w.row[p];
    code := 0;
    if r.lb.Fin? && hi.Fin? && hi.v < r.lb.v {
      RowInfeasible(P, p, 0);
      return 1;
    }
    if r.ub.Fin? && lo.Fin? && lo.v > r.ub.v {
      RowInfeasible(P, p, 1);
      return 1;
    }
    if r.lb.Fin? && hi.Fin? && hi.v <= r.lb.v {
      ProcessForcingRow(w, p, 0);
      return;
    }
    if r.ub.Fin? && lo.Fin? && lo.v >= r.ub.v {
      ProcessForcingRow(w, p, 1);
      return;
    }
    ReducesRefl(P, T);
    SettledSame(u);
    SetRowTwice(P, p, r.(lb := Inf), Needed(r, lo, hi));
    if r.lb.Fin? && lo.Fin? && lo.v >= r.lb.v {
      // an equality row would have been forcing, so the row keeps its other bound or becomes free
      assert !r.Fixed();
      StripLow(P, p);
      StripBound(w, p, r.(lb := Inf));
    }
    ghost var v1, T1 := w.Now(), w.tqe;
    r := w.row[p];
    if r.ub.Fin? && hi.Fin? && hi.v <= r.ub.v {
      assert !r.Fixed();
      StripHigh(P, v1.P, p, P.row[p].lb, r.lb);
      StripBound(w, p, r.(ub := Inf));
      ReducesTrans(P, T, v1.P, T1, w.Problem(), w.tqe);
      SettledTrans(u, v1, w.Now(), {}, {});
    }
  }

  lemma StripLow(P: LP, p: int)
    requires p in P.row && P.row[p].lb.Fin? && ExtremeValue(P, p, 1).Fin? && ExtremeValue(P, p, 1).v >= P.row[p].lb.v
    ensures StripOk(P, p, P.row[p].(lb := Inf))
  {
  }

  lemma StripHigh(P: LP, R: LP, p: int, b: Bound, c: Bound)
    requires p in P.row && P.row[p].lb == b && R == SetRowRange(P, p, P.row[p].(lb := c))
    requires P.row[p].ub.Fin? && ExtremeValue(P, p, 0).Fin? && ExtremeValue(P, p, 0).v <= P.row[p].ub.v
    ensures StripOk(R, p, R.row[p].(ub := Inf))
  {
    SumCong(ForcedF(P, p, 0), ForcedF(R, p, 0), P.n);
  }
}
