/** Queues of active rows and columns. A number is in a queue at most once. */
module LpQueue {
  import opened Collections

  function Push(s: seq<int>, x: int): seq<int> {
    if x in s then s else [x] + s
  }

  function Pop(s: seq<int>, x: int): seq<int> {
    if s == [] then [] else if s[0] == x then s[1..] else [s[0]] + Pop(s[1..], x)
  }

  lemma PushFacts(s: seq<int>, x: int)
    requires NoDup(s)
    ensures NoDup(Push(s, x))
    ensures forall y :: y in Push(s, x) <==> y in s || y == x
  {
  }

  lemma {:induction false} PopFacts(s: seq<int>, x: int)
    requires NoDup(s)
    ensures NoDup(Pop(s, x))
    ensures forall y :: y in Pop(s, x) <==> y in s && y != x
    ensures |Pop(s, x)| == |s| - if x in s then 1 else 0
  {
    if s == [] {
    } else if s[0] == x {
      assert x !in s[1..];
      assert forall y :: y in s <==> y == x || y in s[1..];
    } else {
      PopFacts(s[1..], x);
      assert forall y :: y in s <==> y == s[0] || y in s[1..];
      assert s[0] !in s[1..];
    }
  }
}

/** The presolver workspace: the current problem, the queues of active rows and columns, the history. */
module LpWorkspace {
  import opened Sums
  import opened Collections
  import opened LpModel
  import opened LpRecover
  import opened LpReduce
  import opened LpQueue

  datatype View = View(P: LP, rq: seq<int>, cq: seq<int>)

  /** Row i has the same range and the same coefficients in both problems. */
  ghost predicate RowKept(P: LP, R: LP, i: int) {
    && i in P.row && i in R.row && P.row[i] == R.row[i] && (forall j :: (i, j) in R.a <==> (i, j) in P.a)
    && forall j :: (i, j) in R.a && (i, j) in P.a ==> R.a[(i, j)] == P.a[(i, j)]
  }

  ghost predicate ColKept(P: LP, R: LP, j: int) {
    && j in P.col && j in R.col && P.col[j].rng == R.col[j].rng && (forall i :: (i, j) in R.a <==> (i, j) in P.a)
    && forall i :: (i, j) in R.a && (i, j) in P.a ==> R.a[(i, j)] == P.a[(i, j)]
  }

  /** Rows and columns outside the queues of w, except those in xr and xc, were outside those of v already and have
      not changed in between. */
  ghost predicate Settled(v: View, w: View, xr: set<int>, xc: set<int>) {
    && (forall i :: i in w.P.row && i !in w.rq && i !in xr ==> i !in v.rq && RowKept(v.P, w.P, i))
    && (forall j :: j in w.P.col && j !in w.cq && j !in xc ==> j !in v.cq && ColKept(v.P, w.P, j))
  }

  lemma SettledTrans(u: View, v: View, w: View, xr: set<int>, xc: set<int>)
    requires Settled(u, v, xr, xc) && Settled(v, w, xr, xc)
    ensures Settled(u, w, xr, xc)
  {
  }

  lemma SettledMore(v: View, w: View, xr: set<int>, xc: set<int>, yr: set<int>, yc: set<int>)
    requires Settled(v, w, xr, xc)
    requires forall i :: i in xr && i in w.P.row ==> i in yr
    requires forall j :: j in xc && j in w.P.col ==> j in yc
    ensures Settled(v, w, yr, yc)
  {
  }

  /** All cleanly processed rows and columns: neither empty, nor free, nor singleton rows; neither empty nor fixed columns. */
  ghost predicate CleanRow(P: LP, i: int)
    requires i in P.row
  {
    && !EmptyRowAt(P, i) && !P.row[i].Free()
    && forall q :: (i, q) in P.a ==> !SingleInRow(P, i, q)
  }

  ghost predicate CleanCol(P: LP, j: int)
    requires j in P.col
  {
    !EmptyColAt(P, j) && !P.col[j].rng.Fixed()
  }

  ghost predicate Clean(v: View, xr: set<int>, xc: set<int>) {
    && (forall i :: i in v.P.row && i !in v.rq && i !in xr ==> CleanRow(v.P, i))
    && (forall j :: j in v.P.col && j !in v.cq && j !in xc ==> CleanCol(v.P, j))
  }

  lemma CleanRowKept(P: LP, R: LP, i: int)
    requires RowKept(P, R, i) && CleanRow(P, i)
    ensures CleanRow(R, i)
  {
    hide SingleInRow, EmptyRowAt;
    NonEmptyKept(P, R, i);
    forall q | (i, q) in R.a ensures !SingleInRow(R, i, q) {
      SeveralKept(P, R, i, q);
    }
  }

  lemma NonEmptyKept(P: LP, R: LP, i: int)
    requires RowKept(P, R, i) && !EmptyRowAt(P, i)
    ensures !EmptyRowAt(R, i)
  {
    var k :| k in P.a && k.0 == i;
    var (k0, k1) := k;
    assert (i, k1) in R.a && (i, k1).0 == i;
  }

  lemma SeveralKept(P: LP, R: LP, i: int, q: int)
    requires RowKept(P, R, i) && (i, q) in R.a && !SingleInRow(P, i, q)
    ensures !SingleInRow(R, i, q)
  {
    var k :| k in P.a && k.0 == i && k.1 != q;
    var (k0, k1) := k;
    assert (i, k1) in R.a && (i, k1).0 == i;
  }

  lemma CleanColKept(P: LP, R: LP, j: int)
    requires ColKept(P, R, j) && CleanCol(P, j)
    ensures CleanCol(R, j)
  {
    var k :| k in P.a && k.1 == j;
    var (k0, k1) := k;
    assert (k0, j) in R.a && (k0, j).1 == j;
  }

  /** What is settled stays clean. */
  lemma CleanSettled(v: View, w: View, xr: set<int>, xc: set<int>)
    requires Clean(v, xr, xc) && Settled(v, w, xr, xc)
    ensures Clean(w, xr, xc)
  {
    hide RowKept, ColKept, CleanRow, CleanCol;
    forall i | i in w.P.row && i !in w.rq && i !in xr ensures CleanRow(w.P, i) {
      RowKeptIn(v.P, w.P, i);
      CleanRowKept(v.P, w.P, i);
    }
    forall j | j in w.P.col && j !in w.cq && j !in xc ensures CleanCol(w.P, j) {
      ColKeptIn(v.P, w.P, j);
      CleanColKept(v.P, w.P, j);
    }
  }

  lemma RowKeptIn(P: LP, R: LP, i: int)
    requires RowKept(P, R, i)
    ensures i in P.row
  {
  }

  lemma ColKeptIn(P: LP, R: LP, j: int)
    requires ColKept(P, R, j)
    ensures j in P.col
  {
  }

  // ----- removal of rows and columns

  function RowCols(row: map<int, Range>, col: map<int, Column>, a: Matrix, p: int): set<int> {
    set j | j in col && (p, j) in a
  }

  function ColRows(row: map<int, Range>, col: map<int, Column>, a: Matrix, q: int): set<int> {
    set i | i in row && (i, q) in a
  }

  lemma RowColsFacts(P: LP, p: int)
    requires WellFormed(P)
    ensures forall j :: j in RowCols(P.row, P.col, P.a, p) <==> (p, j) in P.a
    ensures RowCols(P.row, P.col, P.a, p) <= P.col.Keys
    ensures RowCols(P.row, P.col, P.a, p) == RowVec(P, p).Keys
  {
  }

  lemma ColRowsFacts(P: LP, q: int)
    requires WellFormed(P)
    ensures forall i :: i in ColRows(P.row, P.col, P.a, q) <==> (i, q) in P.a
    ensures ColRows(P.row, P.col, P.a, q) <= P.row.Keys
    ensures ColRows(P.row, P.col, P.a, q) == ColVec(P, q).Keys
  {
  }

  /** The matrix without the elements of row p in the columns J. */
  function DropPart(a: Matrix, p: int, J: set<int>): Matrix {
    map k | k in a && !(k.0 == p && k.1 in J) :: a[k]
  }

  /** The matrix without the elements of column q in the rows I. */
  function DropColPart(a: Matrix, q: int, I: set<int>): Matrix {
    map k | k in a && !(k.1 == q && k.0 in I) :: a[k]
  }

  lemma DropPartNone(a: Matrix, p: int)
    ensures DropPart(a, p, {}) == a
  {
  }

  lemma DropPartStep(a: Matrix, p: int, J: set<int>, j: int)
    ensures DropPart(a, p, J) - {(p, j)} == DropPart(a, p, J + {j})
  {
  }

  lemma DropPartAll(P: LP, p: int, J: set<int>)
    requires forall j :: (p, j) in P.a ==> j in J
    ensures DropPart(P.a, p, J) == DropRow(P.a, p)
  {
    forall k | k in P.a ensures k.0 == p ==> k.1 in J {
      var (i, j) := k;
    }
  }

  lemma DropColPartNone(a: Matrix, q: int)
    ensures DropColPart(a, q, {}) == a
  {
  }

  lemma DropColPartStep(a: Matrix, q: int, I: set<int>, i: int)
    ensures DropColPart(a, q, I) - {(i, q)} == DropColPart(a, q, I + {i})
  {
  }

  lemma DropColPartAll(P: LP, q: int, I: set<int>)
    requires forall i :: (i, q) in P.a ==> i in I
    ensures DropColPart(P.a, q, I) == DropCol(P.a, q)
  {
    forall k | k in P.a ensures k.1 == q ==> k.0 in I {
      var (i, j) := k;
    }
  }

  lemma SettledRemoveRow(v: View, w: View, p: int)
    requires w.P == RemoveRow(v.P, p)
    requires forall y :: y in w.rq <==> y in v.rq && y != p
    requires forall j :: j in w.cq <==> j in v.cq || (p, j) in v.P.a
    ensures Settled(v, w, {}, {})
  {
  }

  lemma SettledRemoveCol(v: View, w: View, q: int)
    requires w.P == RemoveCol(v.P, q)
    requires forall y :: y in w.cq <==> y in v.cq && y != q
    requires forall i :: i in w.rq <==> i in v.rq || (i, q) in v.P.a
    ensures Settled(v, w, {}, {})
  {
  }

  lemma RemoveRowWellFormed(P: LP, p: int)
    requires WellFormed(P)
    ensures WellFormed(RemoveRow(P, p))
  {
    RemoveRowFacts(P, p);
  }

  lemma RemoveColWellFormed(P: LP, q: int)
    requires WellFormed(P)
    ensures WellFormed(RemoveCol(P, q))
  {
    RemoveColFacts(P, q);
  }

  ghost predicate QueuesOk(v: View) {
    && NoDup(v.rq) && NoDup(v.cq)
    && (forall i :: i in v.rq ==> i in v.P.row)
    && (forall j :: j in v.cq ==> j in v.P.col)
  }

  lemma QueuesNoDup(v: View)
    requires QueuesOk(v)
    ensures NoDup(v.rq) && NoDup(v.cq)
  {
  }

  lemma QueuesRemoveRow(v: View, w: View, p: int)
    requires WellFormed(v.P) && QueuesOk(v) && w.P == RemoveRow(v.P, p) && NoDup(w.rq) && NoDup(w.cq)
    requires forall y :: y in w.rq <==> y in v.rq && y != p
    requires forall j :: j in w.cq <==> j in v.cq || (p, j) in v.P.a
    ensures QueuesOk(w)
  {
    hide NoDup;
  }

  lemma QueuesRemoveCol(v: View, w: View, q: int)
    requires WellFormed(v.P) && QueuesOk(v) && w.P == RemoveCol(v.P, q) && NoDup(w.rq) && NoDup(w.cq)
    requires forall y :: y in w.cq <==> y in v.cq && y != q
    requires forall i :: i in w.rq <==> i in v.rq || (i, q) in v.P.a
    ensures QueuesOk(w)
  {
    hide NoDup;
  }

  class Workspace {
    const m: nat
    const n: nat
    var row: map<int, Range>
    var col: map<int, Column>
    var a: Matrix
    var c0: real
    var rowQue: seq<int>
    var colQue: seq<int>
    var tqe: seq<Entry>

    ghost function Problem(): LP
      reads this
    {
      LP(m, n, row, col, a, c0)
    }

    ghost function Now(): View
      reads this
    {
      View(Problem(), rowQue, colQue)
    }

    ghost predicate Valid()
      reads this
    {
      WellFormed(Problem()) && QueuesOk(Now())
    }

    /** The workspace as lpp_load_orig leaves it: the original problem, everything active, no history. */
    constructor (P: LP, rowOrder: seq<int>, colOrder: seq<int>)
      requires WellFormed(P)
      requires NoDup(rowOrder) && (forall i :: i in rowOrder <==> i in P.row)
      requires NoDup(colOrder) && (forall j :: j in colOrder <==> j in P.col)
      ensures Valid() && Problem() == P && tqe == []
      ensures rowQue == rowOrder && colQue == colOrder
    {
      m, n, row, col, a, c0 := P.m, P.n, P.row, P.col, P.a, P.c0;
      rowQue, colQue, tqe := rowOrder, colOrder, [];
    }

    method EnqueRow(i: int)
      modifies this`rowQue
      ensures rowQue == Push(old(rowQue), i)
    {
      if i !in rowQue {
        rowQue := [i] + rowQue;
      }
    }

    method EnqueCol(j: int)
      modifies this`colQue
      ensures colQue == Push(old(colQue), j)
    {
      if j !in colQue {
        colQue := [j] + colQue;
      }
    }

    method DequeRow(i: int)
      modifies this`rowQue
      ensures rowQue == Pop(old(rowQue), i)
    {
      rowQue := Pop(rowQue, i);
    }

    method DequeCol(j: int)
      modifies this`colQue
      ensures colQue == Pop(old(colQue), j)
    {
      colQue := Pop(colQue, j);
    }

    /** the loop of lpp_remove_row: unlink the elements and activate what they belong to */
    method UnlinkRow(p: int, elems: set<int>)
      requires NoDup(colQue)
      modifies this`a, this`colQue
      ensures a == DropPart(old(a), p, elems) && NoDup(colQue)
      ensures forall j :: j in colQue <==> j in old(colQue) || j in elems
    {
      hide DropPart, NoDup, Push;
      var todo := elems;
      DropPartNone(a, p);
      assert elems - todo == {};
      while todo != {}
        invariant todo <= elems && a == DropPart(old(a), p, elems - todo) && NoDup(colQue)
        invariant forall j :: j in colQue <==> j in old(colQue) || j in elems - todo
        decreases |todo|
      {
        Inhabited(todo);
        var j :| j in todo;
        PushFacts(colQue, j);
        EnqueCol(j);
        DropPartStep(old(a), p, elems - todo, j);
        a := a - {(p, j)};
        DoneNext(elems, todo, j);
        todo := todo - {j};
      }
      assert elems - {} == elems;
    }

    /** lpp_remove_row */
    method RemoveRowAt(p: int)
      requires Valid() && p in row
      modifies this`row, this`a, this`rowQue, this`colQue
      ensures Valid() && Problem() == RemoveRow(old(Problem()), p)
      ensures rowQue == Pop(old(rowQue), p)
      ensures forall j :: j in colQue <==> j in old(colQue) || (p, j) in old(a)
      ensures Settled(old(Now()), Now(), {}, {})
    {
      hide Settled, WellFormed, DropRow, DropPart, Pop, NoDup, RowCols, RowVec, QueuesOk, RowKept, ColKept;
      ghost var v := Now();
      RowColsFacts(v.P, p);
      QueuesNoDup(v);
      DequeRow(p);
      var elems := RowCols(row, col, a, p);
      UnlinkRow(p, elems);
      row := row - {p};
      DropPartAll(v.P, p, elems);
      PopFacts(v.rq, p);
      RemoveRowWellFormed(v.P, p);
      SettledRemoveRow(v, Now(), p);
      QueuesRemoveRow(v, Now(), p);
    }

    /** the loop of lpp_remove_col: unlink the elements and activate what they belong to */
    method UnlinkCol(q: int, elems: set<int>)
      requires NoDup(rowQue)
      modifies this`a, this`rowQue
      ensures a == DropColPart(old(a), q, elems) && NoDup(rowQue)
      ensures forall i :: i in rowQue <==> i in old(rowQue) || i in elems
    {
      hide DropColPart, NoDup, Push;
      var todo := elems;
      DropColPartNone(a, q);
      assert elems - todo == {};
      while todo != {}
        invariant todo <= elems && a == DropColPart(old(a), q, elems - todo) && NoDup(rowQue)
        invariant forall i :: i in rowQue <==> i in old(rowQue) || i in elems - todo
        decreases |todo|
      {
        Inhabited(todo);
        var i :| i in todo;
        PushFacts(rowQue, i);
        EnqueRow(i);
        DropColPartStep(old(a), q, elems - todo, i);
        a := a - {(i, q)};
        DoneNext(elems, todo, i);
        todo := todo - {i};
      }
      assert elems - {} == elems;
    }

    /** lpp_remove_col */
    method RemoveColAt(q: int)
      requires Valid() && q in col
      modifies this`col, this`a, this`rowQue, this`colQue
      ensures Valid() && Problem() == RemoveCol(old(Problem()), q)
      ensures colQue == Pop(old(colQue), q)
      ensures forall i :: i in rowQue <==> i in old(rowQue) || (i, q) in old(a)
      ensures Settled(old(Now()), Now(), {}, {})
    {
      hide Settled, WellFormed, DropCol, DropColPart, Pop, NoDup, ColRows, ColVec, QueuesOk, RowKept, ColKept;
      ghost var v := Now();
      ColRowsFacts(v.P, q);
      QueuesNoDup(v);
      DequeCol(q);
      var elems := ColRows(row, col, a, q);
      UnlinkCol(q, elems);
      col := col - {q};
      DropColPartAll(v.P, q, elems);
      PopFacts(v.cq, q);
      RemoveColWellFormed(v.P, q);
      SettledRemoveCol(v, Now(), q);
      QueuesRemoveCol(v, Now(), q);
    }
  }
}
