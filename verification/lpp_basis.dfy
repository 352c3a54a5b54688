/** The basis that belongs to a basic solution is non-singular, and every recovery step keeps it so. */
module LpBasis {
  import opened Sums
  import opened LpModel
  import opened LpRecover
  import opened LpReduce
  import opened LpKktRows
  import opened LpKktCols
  import opened LpKktForce

  predicate Basic(s: seq<Stat>, k: int) {
    0 <= k < |s| && s[k] == BS
  }

  /** x solves the homogeneous system in which all non-basic rows and columns are zero. */
  ghost predicate Kernel(P: LP, S: Sol, x: seq<real>) {
    && |x| == P.n && (forall j :: 0 <= j < P.n && !(j in P.col && Basic(S.cs, j)) ==> x[j] == 0.0)
    && (forall i :: i in P.row && !Basic(S.rs, i) ==> RowAct(P, i, x) == 0.0)
  }

  /** The basis matrix, which consists of the columns of (I | -A) for the basic rows and columns, has a trivial kernel: if all non-basic
      variables are zero, so are the basic columns, and with them the basic rows. With as many basic variables as rows this means
      that it can be inverted. */
  ghost predicate Nonsingular(P: LP, S: Sol) {
    forall x :: Kernel(P, S, x) ==> forall j :: 0 <= j < |x| ==> x[j] == 0.0
  }

  lemma RowActAt(P: LP, R: LP, i: int, x: seq<real>)
    requires P.n == R.n && forall j :: 0 <= j < P.n ==> At(R.a, i, j) == At(P.a, i, j) || Val(x, j) == 0.0
    ensures RowAct(R, i, x) == RowAct(P, i, x)
  {
    RowActEq(R, i, x, P, x);
  }

  /** The activity of a row at a point with at most one non-zero among its columns. */
  lemma RowActLone(P: LP, i: int, x: seq<real>, q: int)
    requires 0 <= q < P.n && forall j :: 0 <= j < P.n && j != q ==> At(P.a, i, j) == 0.0 || Val(x, j) == 0.0
    ensures RowAct(P, i, x) == At(P.a, i, q) * Val(x, q)
  {
    SumSingle(RowF(P.a, i, x), P.n, q);
  }

  // ----- how kernels are related

  /** One more row, basic or not. */
  lemma RowAdded(P: LP, R: LP, S: Sol, T: Sol, p: int)
    requires R.n == P.n && (forall j :: j in R.col <==> j in P.col) && (forall i :: i in R.row <==> i in P.row && i != p)
    requires forall i, j :: i != p ==> At(R.a, i, j) == At(P.a, i, j)
    requires (forall j :: Basic(T.cs, j) <==> Basic(S.cs, j)) && (forall i :: i != p ==> (Basic(T.rs, i) <==> Basic(S.rs, i)))
    requires Nonsingular(R, S)
    ensures Nonsingular(P, T)
  {
    hide RowAct, Basic, At;
    forall x | Kernel(P, T, x) ensures forall j :: 0 <= j < |x| ==> x[j] == 0.0 {
      forall i | i in R.row && !Basic(S.rs, i) ensures RowAct(R, i, x) == 0.0 {
        RowActAt(P, R, i, x);
      }
      assert Kernel(R, S, x);
    }
  }

  /** One more row, non-basic, in which column q is the only basic one; q is basic for it. */
  lemma RowTakes(P: LP, R: LP, S: Sol, T: Sol, p: int, q: int)
    requires R.n == P.n && (forall j :: j in R.col <==> j in P.col) && (forall i :: i in R.row <==> i in P.row && i != p)
    requires forall i, j :: i != p ==> At(R.a, i, j) == At(P.a, i, j)
    requires (forall j :: j != q ==> (Basic(T.cs, j) <==> Basic(S.cs, j))) && (forall i :: i != p ==> (Basic(T.rs, i) <==> Basic(S.rs, i)))
    requires p in P.row && !Basic(T.rs, p) && 0 <= q < P.n && At(P.a, p, q) != 0.0
    requires forall j :: 0 <= j < P.n && j != q && At(P.a, p, j) != 0.0 ==> !Basic(T.cs, j)
    requires Nonsingular(R, S)
    ensures Nonsingular(P, T)
  {
    hide RowAct, Basic, At;
    forall x | Kernel(P, T, x) ensures forall j :: 0 <= j < |x| ==> x[j] == 0.0 {
      RowActLone(P, p, x, q);
      assert x[q] == 0.0;
      forall i | i in R.row && !Basic(S.rs, i) ensures RowAct(R, i, x) == 0.0 {
        RowActAt(P, R, i, x);
      }
      assert Kernel(R, S, x);
    }
  }

  /** One more column, non-basic. */
  lemma ColAdded(P: LP, R: LP, S: Sol, T: Sol, q: int)
    requires R.n == P.n && (forall j :: j in R.col <==> j in P.col && j != q) && (forall i :: i in R.row <==> i in P.row)
    requires (forall i, j :: j != q ==> At(R.a, i, j) == At(P.a, i, j)) && 0 <= q < P.n && !Basic(T.cs, q)
    requires (forall j :: j != q ==> (Basic(T.cs, j) <==> Basic(S.cs, j))) && (forall i :: Basic(T.rs, i) <==> Basic(S.rs, i))
    requires Nonsingular(R, S)
    ensures Nonsingular(P, T)
  {
    hide RowAct, Basic, At;
    forall x | Kernel(P, T, x) ensures forall j :: 0 <= j < |x| ==> x[j] == 0.0 {
      assert x[q] == 0.0;
      forall i | i in R.row && !Basic(S.rs, i) ensures RowAct(R, i, x) == 0.0 {
        RowActAt(P, R, i, x);
      }
      assert Kernel(R, S, x);
    }
  }

  /** One more column q, which occurs in row p only and takes the place of that row. */
  lemma SlackAdded(P: LP, R: LP, S: Sol, T: Sol, p: int, q: int)
    requires R.n == P.n && (forall j :: j in R.col <==> j in P.col && j != q) && (forall i :: i in R.row <==> i in P.row)
    requires (forall i, j :: j != q ==> At(R.a, i, j) == At(P.a, i, j)) && 0 <= q < P.n && p in P.row && !Basic(T.rs, p)
    requires At(P.a, p, q) != 0.0 && forall i :: i != p ==> At(P.a, i, q) == 0.0
    requires forall j :: j != q ==> (Basic(T.cs, j) <==> Basic(S.cs, j))
    requires (forall i :: i != p ==> (Basic(T.rs, i) <==> Basic(S.rs, i))) && (Basic(T.cs, q) <==> Basic(S.rs, p))
    requires Nonsingular(R, S)
    ensures Nonsingular(P, T)
  {
    hide RowAct, Basic, At;
    forall x | Kernel(P, T, x) ensures forall j :: 0 <= j < |x| ==> x[j] == 0.0 {
      var y := x[q := 0.0];
      forall i | i in R.row && !Basic(S.rs, i) ensures RowAct(R, i, y) == 0.0 {
        SlackRow(P, R, p, q, x, i);
      }
      assert Kernel(R, S, y);
      forall j | 0 <= j < |x| && j != q ensures x[j] == 0.0 {
        assert y[j] == 0.0;
      }
      RowActLone(P, p, x, q);
    }
  }

  lemma SlackRow(P: LP, R: LP, p: int, q: int, x: seq<real>, i: int)
    requires R.n == P.n == |x| && 0 <= q < P.n && (forall j :: j != q ==> At(R.a, i, j) == At(P.a, i, j))
    requires i != p ==> At(P.a, i, q) == 0.0
    requires i != p || x[q] == 0.0
    ensures RowAct(R, i, x[q := 0.0]) == RowAct(P, i, x)
  {
    RowActEq(R, i, x[q := 0.0], P, x);
  }

  /** The same rows, columns and coefficients with the same basic ones. */
  lemma SameBasis(P: LP, R: LP, S: Sol, T: Sol)
    requires R.n == P.n && (forall j :: j in R.col <==> j in P.col) && (forall i :: i in R.row <==> i in P.row) && R.a == P.a
    requires (forall j :: Basic(T.cs, j) <==> Basic(S.cs, j)) && (forall i :: Basic(T.rs, i) <==> Basic(S.rs, i))
    requires Nonsingular(R, S)
    ensures Nonsingular(P, T)
  {
    hide RowAct, Basic;
    forall x | Kernel(P, T, x) ensures forall j :: 0 <= j < |x| ==> x[j] == 0.0 {
      forall i | i in R.row && !Basic(S.rs, i) ensures RowAct(R, i, x) == 0.0 {
        RowActSameMatrix(P, R, i, x);
      }
      assert Kernel(R, S, x);
    }
  }

  // ----- the recovery steps

  lemma BasicRowBack(P: LP, p: int, S: Sol, prim: real)
    requires WellFormed(P) && Shaped(S) && 0 <= p < |S.rs| && Nonsingular(RemoveRow(P, p), S)
    ensures Nonsingular(P, SetRow(S, p, BS, prim, 0.0))
  {
    hide WellFormed, Nonsingular, At;
    RemoveRowFacts(P, p);
    RowAdded(P, RemoveRow(P, p), S, SetRow(S, p, BS, prim, 0.0), p);
  }

  lemma EmptyRowBasis(P: LP, p: int, S: Sol)
    requires WellFormed(P) && Shaped(S) && RecoverOne(EmptyRow(p), S).Some? && Nonsingular(RemoveRow(P, p), S)
    ensures Nonsingular(P, RecoverOne(EmptyRow(p), S).value)
  {
    hide Nonsingular;
    BasicRowBack(P, p, S, 0.0);
  }

  lemma FreeRowBasis(P: LP, p: int, lf: map<int, real>, S: Sol)
    requires WellFormed(P) && Shaped(S) && RecoverOne(FreeRow(p, lf), S).Some? && Nonsingular(RemoveRow(P, p), S)
    ensures Nonsingular(P, RecoverOne(FreeRow(p, lf), S).value)
  {
    hide Nonsingular;
    BasicRowBack(P, p, S, Dot(lf, S.cp));
  }

  lemma EmptyColBasis(P: LP, q: int, v: real, st: Stat, d: real, S: Sol)
    requires WellFormed(P) && q in P.col && 0 <= q < P.n && Shaped(S) && st != BS && RecoverOne(EmptyCol(q, st, v, d), S).Some?
    requires Nonsingular(SubstCol(P, q, v), S)
    ensures Nonsingular(P, RecoverOne(EmptyCol(q, st, v, d), S).value)
  {
    hide WellFormed, Nonsingular, At;
    SubstColFacts(P, q, v);
    SubstColKeys(P, q, v);
    ColAdded(P, SubstCol(P, q, v), S, RecoverOne(EmptyCol(q, st, v, d), S).value, q);
  }

  lemma SubstColKeys(P: LP, q: int, v: real)
    requires q in P.col
    ensures var R := SubstCol(P, q, v);
            R.n == P.n && (forall j :: j in R.col <==> j in P.col && j != q) && forall i :: i in R.row <==> i in P.row
  {
  }

  lemma FixedColBasis(P: LP, q: int, v: real, S: Sol)
    requires WellFormed(P) && q in P.col && 0 <= q < P.n && Shaped(S) && RecoverOne(FixedColEntry(P, q, v), S).Some?
    requires Nonsingular(SubstCol(P, q, v), S)
    ensures Nonsingular(P, RecoverOne(FixedColEntry(P, q, v), S).value)
  {
    hide WellFormed, Nonsingular, At, AddScaled, Dot;
    SubstColFacts(P, q, v);
    SubstColKeys(P, q, v);
    ColAdded(P, SubstCol(P, q, v), S, RecoverOne(FixedColEntry(P, q, v), S).value, q);
  }

  lemma RowInRange(P: LP, p: int)
    requires WellFormed(P) && p in P.row
    ensures 0 <= p < P.m
  {
  }

  lemma InRange(P: LP, p: int, q: int)
    requires WellFormed(P) && p in P.row && q in P.col
    ensures 0 <= p < P.m && 0 <= q < P.n
  {
  }

  lemma SngtonKeys(P: LP, p: int, q: int, r: Range)
    requires WellFormed(P) && q in P.col
    ensures var R := SngtonProblem(P, p, q, r);
            && R.n == P.n && (forall j :: j in R.col <==> j in P.col) && (forall i :: i in R.row <==> i in P.row && i != p)
            && forall i, j :: i != p ==> At(R.a, i, j) == At(P.a, i, j)
  {
    RemoveRowFacts(P, p);
  }

  lemma OnlyInRow(P: LP, p: int, q: int, j: int)
    requires SingleInRow(P, p, q) && (p, q) in P.a
    ensures At(P.a, p, q) == P.a[(p, q)] && (j != q ==> At(P.a, p, j) == 0.0)
  {
  }

  lemma SngtonTakes(P: LP, p: int, q: int, r: Range, S: Sol, st: Stat)
    requires WellFormed(P) && p in P.row && SingleInRow(P, p, q) && (p, q) in P.a && P.a[(p, q)] != 0.0 && q in P.col && 0 <= q < P.n
    requires Shaped(S) && 0 <= p < |S.rs| && |S.cs| == P.n && st != BS && Nonsingular(SngtonProblem(P, p, q, r), S)
    ensures Nonsingular(P, RowTakesOver(S, p, q, P.a[(p, q)], st))
  {
    hide WellFormed, Nonsingular, At, SingleInRow;
    SngtonKeys(P, p, q, r);
    forall j ensures At(P.a, p, q) == P.a[(p, q)] && (j != q ==> At(P.a, p, j) == 0.0) {
      OnlyInRow(P, p, q, j);
    }
    RowTakes(P, SngtonProblem(P, p, q, r), S, RowTakesOver(S, p, q, P.a[(p, q)], st), p, q);
  }

  lemma SngtonStays(P: LP, p: int, q: int, r: Range, S: Sol, st: Stat)
    requires WellFormed(P) && p in P.row && (p, q) in P.a && q in P.col && 0 <= q < P.n
    requires Shaped(S) && 0 <= p < |S.rs| && |S.cs| == P.n && (st == BS <==> S.cs[q] == BS) && Nonsingular(SngtonProblem(P, p, q, r), S)
    ensures Nonsingular(P, RowInactive(S, p, q, P.a[(p, q)], st))
  {
    hide WellFormed, Nonsingular, At;
    SngtonKeys(P, p, q, r);
    RowAdded(P, SngtonProblem(P, p, q, r), S, RowInactive(S, p, q, P.a[(p, q)], st), p);
  }

  lemma RowSngton1Basis(P: LP, p: int, q: int, r: Range, S: Sol)
    requires WellFormed(P) && p in P.row && SingleInRow(P, p, q) && (p, q) in P.a && P.a[(p, q)] != 0.0 && q in P.col && 0 <= q < P.n
    requires Shape(P, S) && RecoverOne(RowSngton1(p, q, P.a[(p, q)]), S).Some? && Nonsingular(SngtonProblem(P, p, q, r), S)
    ensures Nonsingular(P, RecoverOne(RowSngton1(p, q, P.a[(p, q)]), S).value)
  {
    hide WellFormed, Nonsingular, SingleInRow;
    SngtonTakes(P, p, q, r, S, NS);
  }

  lemma RowSngton2Basis(P: LP, p: int, q: int, r: Range, S: Sol, lbc: bool, ubc: bool)
    requires WellFormed(P) && p in P.row && SingleInRow(P, p, q) && (p, q) in P.a && P.a[(p, q)] != 0.0 && q in P.col
    requires Shape(P, S) && RecoverOne(RowSngton2(p, q, P.a[(p, q)], lbc, ubc), S).Some? && Nonsingular(SngtonProblem(P, p, q, r), S)
    ensures Nonsingular(P, RecoverOne(RowSngton2(p, q, P.a[(p, q)], lbc, ubc), S).value)
  {
    hide WellFormed, Nonsingular, SingleInRow, RowTakesOver, RowInactive;
    InRange(P, p, q);
    if S.cs[q] == BS {
      SngtonStays(P, p, q, r, S, BS);
    } else {
      SngtonTakes(P, p, q, r, S, NL);
      SngtonTakes(P, p, q, r, S, NU);
      SngtonStays(P, p, q, r, S, NL);
      SngtonStays(P, p, q, r, S, NU);
    }
  }

  lemma OnlyInCol(P: LP, p: int, q: int, i: int)
    requires SingleInCol(P, p, q) && (p, q) in P.a
    ensures At(P.a, p, q) == P.a[(p, q)] && (i != p ==> At(P.a, i, q) == 0.0)
  {
  }

  lemma ColSngton1Basis(P: LP, p: int, q: int, rhs: real, c: real, S: Sol)
    requires WellFormed(P) && p in P.row && q in P.col && P.row[p].Fixed() && SingleInCol(P, p, q) && (p, q) in P.a && P.a[(p, q)] != 0.0
    requires 0 <= p < P.m && 0 <= q < P.n && Shape(P, S) && RecoverOne(ColSngton1(p, q, rhs, c, P.a[(p, q)]), S).Some?
    requires Nonsingular(SlackProblem(P, p, q), S)
    ensures Nonsingular(P, RecoverOne(ColSngton1(p, q, rhs, c, P.a[(p, q)]), S).value)
  {
    hide WellFormed, Nonsingular, At, SingleInCol;
    SlackFacts(P, p, q);
    forall i ensures At(P.a, p, q) == P.a[(p, q)] && (i != p ==> At(P.a, i, q) == 0.0) {
      OnlyInCol(P, p, q, i);
    }
    SlackKeys(P, p, q);
    SlackAdded(P, SlackProblem(P, p, q), S, RecoverOne(ColSngton1(p, q, rhs, c, P.a[(p, q)]), S).value, p, q);
  }

  lemma SlackKeys(P: LP, p: int, q: int)
    requires p in P.row && q in P.col && P.row[p].Fixed() && (p, q) in P.a && P.a[(p, q)] != 0.0
    ensures var R := SlackProblem(P, p, q);
            R.n == P.n && (forall j :: j in R.col <==> j in P.col && j != q) && forall i :: i in R.row <==> i in P.row
  {
  }

  lemma ColSngton2Basis(P: LP, p: int, q: int, v: real, st: Stat, S: Sol)
    requires p in P.row && q in P.col && Shape(P, S) && st != BS && RecoverOne(ColSngton2(p, q, st), S).Some?
    requires Nonsingular(FreedProblem(P, p, q, v), S)
    ensures Nonsingular(P, RecoverOne(ColSngton2(p, q, st), S).value)
  {
    hide Nonsingular;
    SameBasis(P, FreedProblem(P, p, q, v), S, RecoverOne(ColSngton2(p, q, st), S).value);
  }

  lemma StripBasis(P: LP, p: int, r: Range, S: Sol)
    requires p in P.row && Nonsingular(SetRowRange(P, p, r), S)
    ensures Nonsingular(P, S)
  {
    hide Nonsingular;
    SameBasis(P, SetRowRange(P, p, r), S, S);
  }

  // ----- forcing rows

  lemma ForceKeys(P: LP, p: int, at: int)
    requires WellFormed(P) && p in P.row
    ensures var R := ForceProblem(P, p, at);
            && R.n == P.n && (forall j :: j in R.col <==> j in P.col) && (forall i :: i in R.row <==> i in P.row && i != p)
            && forall i, j :: i != p ==> At(R.a, i, j) == At(P.a, i, j)
  {
    RemoveRowFacts(P, p);
  }

  /** The list names exactly the columns of the row, once each, with their coefficients. */
  lemma ListedCols(P: LP, p: int, at: int, l: seq<Lfx>)
    requires LfxOf(P, p, at, l) && WellFormed(P)
    ensures Distinct(l) && forall k :: 0 <= k < |l| ==> At(P.a, p, l[k].ref) == l[k].val && l[k].val != 0.0 && l[k].flag != BS
    ensures forall j :: At(P.a, p, j) != 0.0 ==> exists k :: 0 <= k < |l| && l[k].ref == j
  {
    forall k | 0 <= k < |l| ensures l[k].val != 0.0 {
      assert (p, l[k].ref) in P.a;
    }
  }

  /** Which rows and columns are basic after the recovery. */
  lemma ForceStatuses(S: Sol, p: int, stat: Stat, bnd: real, l: seq<Lfx>, j: int)
    requires Shaped(S) && 0 <= p < |S.rs| && Distinct(l) && RefsIn(l, |S.cs|) && stat != BS
    requires forall k :: 0 <= k < |l| ==> S.cs[l[k].ref] == NS && l[k].flag != BS
    ensures var T, that := ForceBack(S, p, stat, bnd, l), PickIndex(l, S.cd);
            && (forall i :: i != p ==> (Basic(T.rs, i) <==> Basic(S.rs, i))) && (that != -1 ==> !Basic(T.rs, p))
            && (Basic(T.cs, j) <==> Basic(S.cs, j) || (that != -1 && j == l[that].ref))
            && ((exists k :: 0 <= k < |l| && l[k].ref == j) && (that == -1 || j != l[that].ref) ==> !Basic(T.cs, j))
  {
    hide ReleaseStat, ReleaseDual, Distinct, PickPi;
    var that := PickIndex(l, S.cd);
    ReleaseStatSpec(l, that, S.cs, |l|);
    if k :| 0 <= k < |l| && l[k].ref == j {
      DistinctAt(l, k, that);
    }
  }

  lemma DistinctAt(l: seq<Lfx>, k: int, t: int)
    requires Distinct(l) && 0 <= k < |l|
    ensures 0 <= t < |l| && l[k].ref == l[t].ref ==> k == t
  {
  }

  /** A forcing row: its columns were all non-basic; one of them may become basic, and the row is non-basic then. */
  lemma ForcingRowBasis(P: LP, p: int, at: int, l: seq<Lfx>, S: Sol)
    requires WellFormed(P) && ForceReady(P, p, at, l) && p in P.row && RowBound(P.row[p], at).Fin?
    requires BasicOptimal(ForceProblem(P, p, at), S) && Shape(P, S)
    requires RefsIn(l, P.n) && forall k :: 0 <= k < |l| ==> S.cs[l[k].ref] == NS
    requires Nonsingular(ForceProblem(P, p, at), S)
    ensures var r := RecoverOne(ForcedEntry(P, p, at, l), S); r.Some? && Nonsingular(P, r.value)
  {
    hide WellFormed, Nonsingular, BasicOptimal, At, ForceBack, ForcedSum, ForcedFin, ForceProblem, Basic, LfxOf, Distinct, RecoverOne;
    RowInRange(P, p);
    var stat, bnd := ForceStat(P.row[p], at), RowBound(P.row[p], at).v;
    var T, that := ForceBack(S, p, stat, bnd, l), PickIndex(l, S.cd);
    ForcingDefined(P, p, at, l, S);
    ForceKeys(P, p, at);
    ListedCols(P, p, at, l);
    forall j
      ensures (Basic(T.cs, j) <==> Basic(S.cs, j) || (that != -1 && j == l[that].ref))
      ensures (exists k :: 0 <= k < |l| && l[k].ref == j) && (that == -1 || j != l[that].ref) ==> !Basic(T.cs, j)
    {
      ForceStatuses(S, p, stat, bnd, l, j);
    }
    ForceStatuses(S, p, stat, bnd, l, 0);
    if that == -1 {
      RowAdded(P, ForceProblem(P, p, at), S, T, p);
    } else {
      RowTakes(P, ForceProblem(P, p, at), S, T, p, l[that].ref);
    }
  }
}
