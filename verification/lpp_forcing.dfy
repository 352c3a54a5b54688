/** Forcing rows and the general analysis of a row. */
module LpForcing {
  import opened Sums
  import opened Collections
  import opened LpModel
  import opened LpRecover
  import opened LpReduce
  import opened LpKktRows
  import opened LpKktCols
  import opened LpKktForce
  import opened LpEquiv
  import opened LpEquivCols
  import opened LpDual
  import opened LpLocal
  import opened LpCompose
  import opened LpQueue
  import opened LpWorkspace
  import opened LpProcessPlain
  import opened LpProcessSngton

  // ----- implied bounds of a row; the formulae (3) and (4)

  predicate ForcedOn(P: LP, p: int, at: int, J: set<int>) {
    forall j <- J :: (p, j) in P.a && j in P.col && ForcedBound(P.col[j].rng, P.a[(p, j)], at).Fin?
  }

  lemma ForcedOnAll(P: LP, p: int, at: int, J: set<int>)
    requires forall j :: j in J <==> (p, j) in P.a
    requires WellFormed(P)
    ensures ForcedOn(P, p, at, J) <==> ForcedFin(P, p, at)
    ensures SumPart(ForcedF(P, p, at), P.n, J) == ForcedSum(P, p, at)
    ensures ForcedOn(P, p, at, {})
  {
    hide ForcedBound, ForcedVal;
    if ForcedOn(P, p, at, J) {
      forall k | k in P.a && k.0 == p ensures k.1 in P.col && ForcedBound(P.col[k.1].rng, P.a[k], at).Fin? {
        var j := k.1;
        assert k == (p, j);
        assert (p, j) in P.a && j in J;
      }
    }
    if ForcedFin(P, p, at) {
      forall j | j in J ensures (p, j) in P.a && j in P.col && ForcedBound(P.col[j].rng, P.a[(p, j)], at).Fin? {
        assert (p, j).0 == p && (p, j).1 == j;
      }
    }
    SumPartAll(ForcedF(P, p, at), P.n, J);
  }

  lemma ForcedOnFails(P: LP, p: int, at: int, J: set<int>, j: int)
    requires j in J && (p, j) in P.a && j in P.col && ForcedBound(P.col[j].rng, P.a[(p, j)], at).Inf?
    ensures !ForcedOn(P, p, at, J)
  {
  }

  lemma ForcedOnStep(P: LP, p: int, at: int, J: set<int>, j: int)
    requires ForcedOn(P, p, at, J) && (p, j) in P.a && j in P.col && ForcedBound(P.col[j].rng, P.a[(p, j)], at).Fin?
    ensures ForcedOn(P, p, at, J + {j})
    ensures ForcedF(P, p, at)(j) == ForcedTerm(P.a[(p, j)], ForcedBound(P.col[j].rng, P.a[(p, j)], at).v)
  {
    hide ForcedBound;
  }

  function ForcedTerm(val: real, b: real): real {
    val * b
  }

  /** One of the two loops of analyze_row. */
  method ComputeExtreme(w: Workspace, p: int, at: int) returns (b: Bound)
    requires w.Valid()
    ensures b == ExtremeValue(w.Problem(), p, at)
  {
    hide WellFormed, QueuesOk, RowVec, RowCols, ForcedBound, ForcedFin, ForcedOn, ForcedSum, SumPart, ForcedF, ForcedTerm;
    ghost var P := w.Problem();
    RowColsFacts(P, p);
    var acc := 0.0;
    var elems := RowCols(w.row, w.col, w.a, p);
    var todo := elems;
    ghost var f := ForcedF(P, p, at);
    SumPartNone(f, P.n);
    ForcedOnAll(P, p, at, elems);
    assert elems - todo == {};
    while todo != {}
      invariant todo <= elems && ForcedOn(P, p, at, elems - todo)
      invariant acc == SumPart(f, P.n, elems - todo)
      decreases |todo|
    {
      Inhabited(todo);
      var j :| j in todo;
      WellFormedElem(P, p, j);
      WellFormedCol(P, j);
      var e := ForcedBound(w.col[j].rng, w.a[(p, j)], at);
      if e.Inf? {
        ForcedOnFails(P, p, at, elems, j);
        return Inf;
      }
      ForcedOnStep(P, p, at, elems - todo, j);
      SumPartStep(f, P.n, elems - todo, j);
      acc := acc + ForcedTerm(w.a[(p, j)], e.v);
      DoneNext(elems, todo, j);
      todo := todo - {j};
    }
    assert elems - {} == elems;
    b := Fin(acc);
  }

  // ----- forcing rows, first phase: fixed columns of the row are substituted

  lemma ForcedFSubst(P: LP, p: int, at: int, q: int, v: real, j: int)
    requires q in P.col && j != q
    ensures ForcedF(SubstCol(P, q, v), p, at)(j) == ForcedF(P, p, at)(j)
  {
    var R := SubstCol(P, q, v);
    assert (p, j) in R.a <==> (p, j) in P.a;
    assert j in R.col <==> j in P.col;
  }

  lemma ForcedFGone(P: LP, p: int, at: int, q: int, v: real)
    requires q in P.col && P.col[q].rng == FixAt(v)
    ensures ForcedF(SubstCol(P, q, v), p, at)(q) == 0.0
    ensures ForcedF(P, p, at)(q) == At(P.a, p, q) * v
  {
  }

  lemma ForcedSumSubst(P: LP, p: int, at: int, q: int, v: real)
    requires q in P.col && 0 <= q < P.n && P.col[q].rng == FixAt(v)
    ensures ForcedSum(SubstCol(P, q, v), p, at) == ForcedSum(P, p, at) - At(P.a, p, q) * v
  {
    hide ForcedF, SubstCol;
    var R := SubstCol(P, q, v);
    forall j | 0 <= j < P.n && j != q ensures ForcedF(R, p, at)(j) == ForcedF(P, p, at)(j) {
      ForcedFSubst(P, p, at, q, v, j);
    }
    SumOne(ForcedF(R, p, at), ForcedF(P, p, at), P.n, q);
    ForcedFGone(P, p, at, q, v);
    SubstDims(P, q, v);
  }

  lemma SubstDims(P: LP, q: int, v: real)
    requires q in P.col
    ensures SubstCol(P, q, v).n == P.n && SubstCol(P, q, v).m == P.m
  {
  }

  lemma ForcedFinSubst(P: LP, p: int, at: int, q: int, v: real)
    requires q in P.col && ForcedFin(P, p, at)
    ensures ForcedFin(SubstCol(P, q, v), p, at)
  {
    var R := SubstCol(P, q, v);
    forall k | k in R.a && k.0 == p ensures k.1 in R.col && ForcedBound(R.col[k.1].rng, R.a[k], at).Fin? {
      assert k in P.a;
    }
  }

  lemma ShiftedBound(P: LP, q: int, v: real, p: int, at: int)
    requires p in P.row && RowBound(P.row[p], at).Fin?
    ensures RowBound(ShiftedRow(P, q, v, p), at) == Fin(RowBound(P.row[p], at).v - At(P.a, p, q) * v)
  {
  }

  /** Substituting a fixed column keeps the row forcing. */
  lemma ForcesSubst(P: LP, p: int, at: int, q: int, v: real)
    requires WellFormed(P) && Forces(P, p, at) && q in P.col && P.col[q].rng == FixAt(v)
    ensures Forces(SubstCol(P, q, v), p, at)
  {
    hide ForcedFin, ForcedSum, ShiftedRow, At;
    WellFormedCol(P, q);
    ForcedFinSubst(P, p, at, q, v);
    ForcedSumSubst(P, p, at, q, v);
    assert SubstCol(P, q, v).row[p] == ShiftedRow(P, q, v, p);
    ShiftedBound(P, q, v, p, at);
  }

  function FixedOf(row: map<int, Range>, col: map<int, Column>, a: Matrix, p: int): set<int> {
    set j | j in col && (p, j) in a && col[j].rng.Fixed()
  }

  lemma FixedOfSubst(P: LP, p: int, q: int, v: real)
    requires q in P.col
    ensures var R := SubstCol(P, q, v); FixedOf(R.row, R.col, R.a, p) == FixedOf(P.row, P.col, P.a, p) - {q}
  {
  }

  lemma FixedIs(r: Range)
    requires r.Fixed()
    ensures r == FixAt(r.lb.v)
  {
  }

  // ----- the columns of a row leave it only by leaving the problem

  ghost predicate StillIn(P: LP, R: LP, p: int) {
    (forall j :: j in R.col ==> j in P.col) && forall j :: (p, j) in P.a && j in R.col ==> (p, j) in R.a
  }

  lemma StillInSelf(P: LP, p: int)
    ensures StillIn(P, P, p)
  {
  }

  lemma StillInTrans(P: LP, Q: LP, R: LP, p: int)
    requires StillIn(P, Q, p) && StillIn(Q, R, p)
    ensures StillIn(P, R, p)
  {
  }

  lemma StillInSubst(P: LP, R: LP, p: int, q: int, v: real)
    requires StillIn(P, R, p) && q in R.col
    ensures StillIn(P, SubstCol(R, q, v), p)
  {
  }

  lemma NotInEmpty(R: LP, p: int, j: int)
    requires EmptyRowAt(R, p)
    ensures (p, j) !in R.a
  {
  }

  lemma NoneLeft(P: LP, R: LP, p: int)
    requires StillIn(P, R, p) && EmptyRowAt(R, p)
    ensures forall j :: (p, j) in P.a ==> j !in R.col
  {
    forall j | (p, j) in P.a ensures j !in R.col {
      NotInEmpty(R, p, j);
    }
  }

  method SubstituteFixed(w: Workspace, p: int, at: int)
    requires w.Valid() && p in w.row && Forces(w.Problem(), p, at)
    modifies w
    ensures w.Valid() && p in w.row && Forces(w.Problem(), p, at)
    ensures FixedOf(w.row, w.col, w.a, p) == {} && StillIn(old(w.Problem()), w.Problem(), p)
    ensures Reduces(old(w.Problem()), old(w.tqe), w.Problem(), w.tqe)
    ensures Settled(old(w.Now()), w.Now(), {}, {})
    ensures Size(w.Problem()) <= Size(old(w.Problem()))
  {
    hide WellFormed, QueuesOk, Settled, Reduces, Forces, SubstCol, FixedColEntry, Size, Pop, FixedOf, StillIn;
    ghost var u, P, T := w.Now(), w.Problem(), w.tqe;
    StillInSelf(P, p);
    ReducesRefl(P, T);
    SettledSame(u);
    var todo := FixedOf(w.row, w.col, w.a, p);
    while todo != {}
      invariant w.Valid() && p in w.row && Forces(w.Problem(), p, at)
      invariant todo == FixedOf(w.row, w.col, w.a, p) && StillIn(P, w.Problem(), p)
      invariant Reduces(P, T, w.Problem(), w.tqe) && Settled(u, w.Now(), {}, {}) && Size(w.Problem()) <= Size(P)
      decreases |todo|
    {
      Inhabited(todo);
      var j :| j in todo;
      FixedOfIn(w.Problem(), p, j);
      ghost var v1, T1 := w.Now(), w.tqe;
      ghost var val := w.col[j].rng.lb.v;
      FixedIs(w.col[j].rng);
      ForcesSubst(v1.P, p, at, j, val);
      FixedOfSubst(v1.P, p, j, val);
      SubstColSize(v1.P, j, val);
      SubstKeys(v1.P, j, val);
      ProcessFixedCol(w, j);
      ReducesTrans(P, T, v1.P, T1, w.Problem(), w.tqe);
      SettledTrans(u, v1, w.Now(), {}, {});
      StillInSubst(P, v1.P, p, j, val);
      todo := todo - {j};
    }
  }

  lemma FixedOfIn(P: LP, p: int, j: int)
    requires j in FixedOf(P.row, P.col, P.a, p)
    ensures j in P.col && P.col[j].rng.Fixed() && (p, j) in P.a
  {
  }

  lemma SettledSame(v: View)
    ensures WellFormed(v.P) ==> Settled(v, v, {}, {})
  {
  }

  lemma ElemInRow(P: LP, p: int, j: int)
    ensures (p, j) in P.a ==> !EmptyRowAt(P, p)
  {
    if (p, j) in P.a {
      assert (p, j).0 == p;
    }
  }

  /** A forcing row without columns is satisfied. */
  lemma ForcesEmpty(P: LP, p: int, at: int)
    requires WellFormed(P) && Forces(P, p, at) && EmptyRowAt(P, p)
    ensures P.row[p].Holds(0.0)
  {
    forall j | 0 <= j < P.n ensures ForcedF(P, p, at)(j) == 0.0 {
      ElemInRow(P, p, j);
    }
    SumZero(ForcedF(P, p, at), P.n);
  }

  // ----- forcing rows, second phase: the columns are fixed at their forced bounds one by one

  lemma StillInPin(P: LP, R: LP, p: int, q: int, v: real)
    requires StillIn(P, R, p) && q in R.col
    ensures StillIn(P, SubstCol(PinColumn(R, p, q, v), q, v), p)
  {
  }

  /** Column j of row p fixed at v, its element taken out of the row. */
  function PinColumn(P: LP, p: int, j: int, v: real): (Q: LP)
    requires j in P.col
    ensures j in Q.col
  {
    SetColRange(P, j, FixAt(v)).(a := P.a - {(p, j)})
  }

  lemma PinFacts(u: View, p: int, j: int, v: real)
    requires WellFormed(u.P) && QueuesOk(u) && j in u.P.col
    ensures WellFormed(PinColumn(u.P, p, j, v)) && QueuesOk(u.(P := PinColumn(u.P, p, j, v)))
    ensures Settled(u, u.(P := PinColumn(u.P, p, j, v)), {p}, {j})
    ensures Size(PinColumn(u.P, p, j, v)) == Size(u.P)
  {
    hide WellFormed, QueuesOk, Settled, Size;
    PinShape(u.P, p, j, v);
    QueuesSameRows(u, u.(P := PinColumn(u.P, p, j, v)));
    PinSettled(u, p, j, v);
  }

  lemma PinShape(P: LP, p: int, j: int, v: real)
    requires WellFormed(P) && j in P.col
    ensures var Q := PinColumn(P, p, j, v);
            WellFormed(Q) && Q.row == P.row && Q.col.Keys == P.col.Keys && Size(Q) == Size(P)
  {
    assert PinColumn(P, p, j, v).col.Keys == P.col.Keys;
  }

  lemma PinSettled(u: View, p: int, j: int, v: real)
    requires j in u.P.col
    ensures WellFormed(u.P) && QueuesOk(u) ==> Settled(u, u.(P := PinColumn(u.P, p, j, v)), {p}, {j})
  {
  }

  lemma PinCols(P: LP, p: int, at: int, j: int, v: real)
    requires WellFormed(P) && p in P.row && j in P.col && (p, j) in P.a && v == ForcedVal(P.col[j].rng, P.a[(p, j)], at)
    ensures var Z := SubstCol(PinColumn(P, p, j, v), j, v);
            ForceProblem(Z, p, at).col == SubstCol(ForceProblem(P, p, at), j, v).col
  {
    var Y, F := PinColumn(P, p, j, v), ForceProblem(P, p, at);
    var Z := SubstCol(Y, j, v);
    var L, R := ForceProblem(Z, p, at).col, SubstCol(F, j, v).col;
    assert L.Keys == R.Keys;
    forall i | i in L ensures L[i] == R[i] {
      assert L[i] == ForceCol(Z, p, at, i) && R[i] == ForceCol(P, p, at, i);
    }
  }

  lemma PinRows(P: LP, p: int, at: int, j: int, v: real)
    requires p in P.row && j in P.col && (p, j) in P.a
    ensures var Z := SubstCol(PinColumn(P, p, j, v), j, v);
            ForceProblem(Z, p, at).row == SubstCol(ForceProblem(P, p, at), j, v).row
  {
    hide ShiftBy;
    var Y, F := PinColumn(P, p, j, v), ForceProblem(P, p, at);
    var Z := SubstCol(Y, j, v);
    var L, R := ForceProblem(Z, p, at).row, SubstCol(F, j, v).row;
    assert L.Keys == R.Keys;
    forall i | i in L ensures L[i] == R[i] {
      assert L[i] == ShiftedRow(Y, j, v, i) && R[i] == ShiftedRow(F, j, v, i);
      AtDropRow(P.a, p, i, j);
      assert At(Y.a, i, j) == At(P.a, i, j);
    }
  }

  /** Fixing and substituting one column of a forcing row commutes with forcing the rest. */
  lemma PinCommutes(P: LP, p: int, at: int, j: int, v: real)
    requires WellFormed(P) && p in P.row && j in P.col && (p, j) in P.a && v == ForcedVal(P.col[j].rng, P.a[(p, j)], at)
    ensures var Y, F := PinColumn(P, p, j, v), ForceProblem(P, p, at);
            && ForceProblem(SubstCol(Y, j, v), p, at) == SubstCol(F, j, v)
            && FixedColEntry(Y, j, v) == FixedColEntry(F, j, v)
            && F.col[j].rng == FixAt(v)
  {
    PinSubst(P, p, at, j, v);
    PinEntry(P, p, at, j, v);
  }

  lemma PinSubst(P: LP, p: int, at: int, j: int, v: real)
    requires WellFormed(P) && p in P.row && j in P.col && (p, j) in P.a && v == ForcedVal(P.col[j].rng, P.a[(p, j)], at)
    ensures ForceProblem(SubstCol(PinColumn(P, p, j, v), j, v), p, at) == SubstCol(ForceProblem(P, p, at), j, v)
  {
    PinCols(P, p, at, j, v);
    PinRows(P, p, at, j, v);
    PinMatrix(P, p, j, v, at);
  }

  lemma PinEntry(P: LP, p: int, at: int, j: int, v: real)
    requires WellFormed(P) && p in P.row && j in P.col && (p, j) in P.a && v == ForcedVal(P.col[j].rng, P.a[(p, j)], at)
    ensures var Y, F := PinColumn(P, p, j, v), ForceProblem(P, p, at);
            FixedColEntry(Y, j, v) == FixedColEntry(F, j, v) && F.col[j].rng == FixAt(v)
  {
    var F := ForceProblem(P, p, at);
    assert F.col[j] == ForceCol(P, p, at, j);
    PinVec(P, p, j, v, at);
  }

  lemma PinMatrix(P: LP, p: int, j: int, v: real, at: int)
    requires j in P.col
    ensures DropRow(DropCol(P.a - {(p, j)}, j), p) == DropCol(DropRow(P.a, p), j)
  {
  }

  lemma PinVec(P: LP, p: int, j: int, v: real, at: int)
    requires WellFormed(P) && j in P.col && p in P.row
    ensures ColVec(PinColumn(P, p, j, v), j) == ColVec(ForceProblem(P, p, at), j)
  {
    var A, B := ColVec(PinColumn(P, p, j, v), j), ColVec(ForceProblem(P, p, at), j);
    assert A.Keys == B.Keys;
  }

  /** The columns of row p still to be fixed are those in `todo`, as they were in P. */
  ghost predicate PinState(P: LP, p: int, now: LP, todo: set<int>) {
    && WellFormed(now) && p in now.row
    && (forall j :: (p, j) in now.a <==> j in todo)
    && (forall j :: j in todo ==> (p, j) in P.a && j in P.col && j in now.col &&
                                   now.a[(p, j)] == P.a[(p, j)] && now.col[j].rng == P.col[j].rng)
  }

  /** The list saved so far names the columns of row p outside `todo`. */
  ghost predicate PinList(P: LP, p: int, at: int, todo: set<int>, l: seq<Lfx>) {
    && (forall k :: 0 <= k < |l| ==>
          && (p, l[k].ref) in P.a && l[k].val == P.a[(p, l[k].ref)]
          && l[k].flag == FlagOf(l[k].val, at) && l[k].ref !in todo)
    && (forall j :: (p, j) in P.a && j !in todo ==> exists k :: 0 <= k < |l| && l[k].ref == j)
    && (forall k, k' :: 0 <= k < k' < |l| ==> l[k].ref != l[k'].ref)
  }

  /** The entries pushed so far lead back to the problem in which row p has forced all its columns. */
  ghost predicate PinHistory(P: LP, p: int, at: int, now: LP, l: seq<Lfx>, es: seq<Entry>) {
    && Equivalent(ForceProblem(P, p, at), ForceProblem(now, p, at)) && KeepsDual(ForceProblem(P, p, at), ForceProblem(now, p, at))
    && RestoresFixed(ForceProblem(P, p, at), ForceProblem(now, p, at), es, Refs(l))
  }

  /** The state of the second phase of process_forcing_row: `P` is the problem when the phase starts, `now` the current
      one with the columns outside `todo` gone, `l` the list saved so far, `es` the entries pushed so far. */
  ghost predicate Pinning(P: LP, p: int, at: int, now: LP, todo: set<int>, l: seq<Lfx>, es: seq<Entry>) {
    PinState(P, p, now, todo) && PinList(P, p, at, todo, l) && PinHistory(P, p, at, now, l, es)
  }

  function Refs(l: seq<Lfx>): set<int> {
    set k | 0 <= k < |l| :: l[k].ref
  }

  lemma PinningStart(P: LP, p: int, at: int, todo: set<int>)
    requires WellFormed(P) && p in P.row && forall j :: j in todo <==> (p, j) in P.a
    ensures Pinning(P, p, at, P, todo, [], [])
  {
    hide BasicOptimal, Simulates, RestoresFixed, ForceProblem;
    SimulatesRefl(ForceProblem(P, p, at));
    RestoresFixedStart(ForceProblem(P, p, at));
    assert Refs([]) == {};
  }

  lemma RefsCons(e: Lfx, l: seq<Lfx>)
    ensures Refs([e] + l) == Refs(l) + {e.ref}
  {
    var m := [e] + l;
    forall x | x in Refs(m) ensures x in Refs(l) + {e.ref} {
      var k :| 0 <= k < |m| && m[k].ref == x;
      if k > 0 {
        assert l[k - 1].ref == x;
      }
    }
    forall x | x in Refs(l) + {e.ref} ensures x in Refs(m) {
      if x == e.ref {
        assert m[0].ref == x;
      } else {
        var k :| 0 <= k < |l| && l[k].ref == x;
        assert m[k + 1].ref == x;
      }
    }
  }

  lemma PinStateStep(P: LP, p: int, now: LP, todo: set<int>, j: int, v: real)
    requires PinState(P, p, now, todo) && j in todo && j in now.col
    ensures PinState(P, p, SubstCol(PinColumn(now, p, j, v), j, v), todo - {j})
  {
    hide ShiftedRow;
    SubstColFacts(PinColumn(now, p, j, v), j, v);
  }

  lemma PinListStep(P: LP, p: int, at: int, todo: set<int>, l: seq<Lfx>, j: int)
    requires PinList(P, p, at, todo, l) && j in todo && (p, j) in P.a
    ensures PinList(P, p, at, todo - {j}, [Lfx(j, FlagOf(P.a[(p, j)], at), P.a[(p, j)])] + l)
  {
    hide FlagOf;
    var m := [Lfx(j, FlagOf(P.a[(p, j)], at), P.a[(p, j)])] + l;
    forall i | (p, i) in P.a && i !in todo - {j} ensures exists k :: 0 <= k < |m| && m[k].ref == i {
      if i == j {
        assert m[0].ref == i;
      } else {
        var k :| 0 <= k < |l| && l[k].ref == i;
        assert m[k + 1].ref == i;
      }
    }
  }

  lemma PinHistoryStep(P: LP, p: int, at: int, now: LP, l: seq<Lfx>, es: seq<Entry>, j: int, v: real, e: Lfx)
    requires PinHistory(P, p, at, now, l, es) && WellFormed(now) && p in now.row && j in now.col && (p, j) in now.a
    requires v == ForcedVal(now.col[j].rng, now.a[(p, j)], at) && e.ref == j
    ensures var Y := PinColumn(now, p, j, v);
            PinHistory(P, p, at, SubstCol(Y, j, v), [e] + l, [FixedColEntry(Y, j, v)] + es)
  {
    hide Simulates, RestoresFixed, FixedColEntry, ForcedVal, WellFormed, ForceProblem, PinColumn, SubstCol, Refs, KeepsDual;
    var F, G := ForceProblem(P, p, at), ForceProblem(now, p, at);
    PinCommutes(now, p, at, j, v);
    ForceWellFormed(now, p, at, j);
    WellFormedCol(now, j);
    FixedColEquiv(G, j);
    SubstDual(G, j, v);
    KeepsDualTrans(F, G, SubstCol(G, j, v));
    SimulatesTrans(F, G, SubstCol(G, j, v));
    SimulatesTrans(SubstCol(G, j, v), G, F);
    RestoresFixedStep(F, G, es, Refs(l), j);
    RefsCons(e, l);
  }

  lemma ForceWellFormed(P: LP, p: int, at: int, j: int)
    requires WellFormed(P) && p in P.row && j in P.col
    ensures WellFormed(ForceProblem(P, p, at)) && j in ForceProblem(P, p, at).col && ForceProblem(P, p, at).n == P.n
  {
    ForceFacts(P, p, at);
  }

  lemma PinningStep(P: LP, p: int, at: int, now: LP, todo: set<int>, l: seq<Lfx>, es: seq<Entry>, j: int, v: real, e: Lfx)
    requires Pinning(P, p, at, now, todo, l, es) && j in todo && j in now.col && (p, j) in now.a
    requires v == ForcedVal(now.col[j].rng, now.a[(p, j)], at)
    requires e == Lfx(j, FlagOf(now.a[(p, j)], at), now.a[(p, j)])
    ensures var Y := PinColumn(now, p, j, v);
            Pinning(P, p, at, SubstCol(Y, j, v), todo - {j}, [e] + l, [FixedColEntry(Y, j, v)] + es)
  {
    hide PinList, PinHistory, FixedColEntry, ForceProblem, ForcedVal, FlagOf, WellFormed, PinColumn, SubstCol;
    PinHistoryStep(P, p, at, now, l, es, j, v, e);
    PinListStep(P, p, at, todo, l, j);
    PinStateStep(P, p, now, todo, j, v);
  }

  /** When all columns are gone the history restores solutions of P. */
  lemma PinningDone(P: LP, p: int, at: int, now: LP, l: seq<Lfx>, es: seq<Entry>, T: seq<Entry>)
    requires WellFormed(P) && Forces(P, p, at) && Pinning(P, p, at, now, {}, l, es)
    requires FixedOf(P.row, P.col, P.a, p) == {}
    ensures Reduces(P, T, RemoveRow(now, p), es + [ForcedEntry(P, p, at, l)] + T)
  {
    hide Simulates, RestoresFixed, Restores, ForcedSum, ForcedFin, ForceProblem, KeepsDual;
    PinningReady(P, p, at, now, l, es);
    PinningEnd(P, p, at, now, l, es);
    ForceEquiv(P, p, at);
    ForceDual(P, p, at);
    KeepsDualTrans(P, ForceProblem(P, p, at), RemoveRow(now, p));
    var F, R := ForceProblem(P, p, at), RemoveRow(now, p);
    SimulatesTrans(P, F, R);
    SimulatesTrans(R, F, P);
    ForcingRestores(P, p, at, l, R, es, Refs(l));
    ReducesIntro(P, T, R, es + [ForcedEntry(P, p, at, l)]);
  }

  lemma PinningEnd(P: LP, p: int, at: int, now: LP, l: seq<Lfx>, es: seq<Entry>)
    requires Pinning(P, p, at, now, {}, l, es)
    ensures ForceProblem(now, p, at) == RemoveRow(now, p)
  {
    hide Equivalent, RestoresFixed;
    var F := ForceProblem(now, p, at);
    assert F.col.Keys == now.col.Keys;
    forall j | j in now.col ensures F.col[j] == now.col[j] {
      assert F.col[j] == ForceCol(now, p, at, j);
    }
  }

  lemma PinningReady(P: LP, p: int, at: int, now: LP, l: seq<Lfx>, es: seq<Entry>)
    requires WellFormed(P) && Forces(P, p, at) && Pinning(P, p, at, now, {}, l, es)
    requires FixedOf(P.row, P.col, P.a, p) == {}
    ensures ForceReady(P, p, at, l) && RefsIn(l, P.n) && p in P.row && RowBound(P.row[p], at).Fin?
    ensures forall k :: 0 <= k < |l| ==> l[k].ref in Refs(l)
  {
    hide Equivalent, RestoresFixed, ForcedSum, ForcedFin, ForceProblem;
    forall k | 0 <= k < |l| ensures l[k].ref in P.col && 0 <= l[k].ref < P.n && !P.col[l[k].ref].rng.Fixed() {
      assert (p, l[k].ref) in P.a;
      assert l[k].ref !in FixedOf(P.row, P.col, P.a, p);
    }
  }
}
