/** ipm1: scaling, the run with its tests, and unscaling. */
module IpmMain {
  import opened Sums
  import opened Ipm
  import opened IpmNormal
  import opened IpmMeasure
  import opened IpmCodes

  // ----- scale_lp and unscale_lp

  function RowScaled(A: Matrix, R: seq<real>): Matrix {
    (i: int, j: int) => Times(Val(R, i), A(i, j))
  }

  /** R*y */
  function Products(R: seq<real>, y: seq<real>): (s: seq<real>)
    requires |R| == |y|
    ensures |s| == |y|
  {
    seq(|y|, i requires 0 <= i < |y| => Times(R[i], y[i]))
  }

  function EntrySquareF(A: Matrix, i: int): int -> real {
    (j: int) => Times(A(i, j), A(i, j))
  }

  function RowSquares(A: Matrix, i: int, n: nat): real {
    Sum(EntrySquareF(A, i), n)
  }

  const TINY := 0.0000000000000001

  /** The squared norm of row i, or one if that is almost zero. */
  function Size(A: Matrix, i: int, n: nat): real {
    var sum := RowSquares(A, i, n);
    if sum < TINY then 1.0 else sum
  }

  /** The factors are positive and give every row norm one; a row that is almost zero keeps its size. */
  ghost predicate Normalizes(A: Matrix, R: seq<real>, n: nat) {
    forall i :: 0 <= i < |R| ==>
      R[i] > 0.0 && if RowSquares(A, i, n) < 0.0000000000000001 then R[i] == 1.0 else Times(Times(R[i], R[i]), RowSquares(A, i, n)) == 1.0
  }

  lemma ScaledAx(A: Matrix, R: seq<real>, x: seq<real>, i: int)
    ensures Ax(RowScaled(A, R), x, i) == Times(Val(R, i), Ax(A, x, i))
  {
    hide Times;
    forall j | 0 <= j < |x| ensures RowF(RowScaled(A, R), i, x)(j) == Times(Val(R, i), RowF(A, i, x)(j)) {
      Regrouped(Val(R, i), A(i, j), 0.0, Val(x, j));
    }
    SumScaled(RowF(RowScaled(A, R), i, x), RowF(A, i, x), Val(R, i), |x|);
  }

  lemma ScaledAty(A: Matrix, R: seq<real>, y: seq<real>, j: int)
    requires |R| == |y|
    ensures Aty(RowScaled(A, R), y, j) == Aty(A, Products(R, y), j)
  {
    hide Times;
    var M := RowScaled(A, R);
    forall i | 0 <= i < |y| ensures ColF(M, j, y)(i) == ColF(A, j, Products(R, y))(i) {
      assert M(i, j) == Times(Val(R, i), A(i, j));
      assert ColF(M, j, y)(i) == Times(M(i, j), Val(y, i));
      Shuffled(R[i], A(i, j), y[i]);
    }
    SumCong(ColF(M, j, y), ColF(A, j, Products(R, y)), |y|);
  }

  lemma Shuffled(r: real, a: real, y: real)
    ensures Times(Times(r, a), y) == Times(a, Times(r, y))
  {
  }

  lemma ScaledDot(R: seq<real>, b: seq<real>, y: seq<real>)
    requires |R| == |b| == |y|
    ensures Dot(Products(R, b), y) == Dot(b, Products(R, y))
  {
    hide Times;
    forall i | 0 <= i < |y| ensures DotF(Products(R, b), y)(i) == DotF(b, Products(R, y))(i) {
      Shuffled(R[i], b[i], y[i]);
    }
    SumCong(DotF(Products(R, b), y), DotF(b, Products(R, y)), |y|);
  }

  /** Scaling keeps the feasible points. */
  lemma ScaledFeasible(A: Matrix, R: seq<real>, b: seq<real>, x: seq<real>)
    requires |R| == |b| && Feasible(A, b, x)
    ensures Feasible(RowScaled(A, R), Products(R, b), x)
  {
    hide Ax, Times;
    forall i | 0 <= i < |b| ensures Ax(RowScaled(A, R), x, i) == Products(R, b)[i] {
      ScaledAx(A, R, x, i);
    }
  }

  /** Scaling keeps full row rank, so that the scaled normal equations can be solved, too. */
  lemma ScaledRank(A: Matrix, R: seq<real>, n: nat)
    requires FullRank(A, |R|, n) && Positive(R)
    ensures FullRank(RowScaled(A, R), |R|, n)
  {
    hide Aty, Times;
    forall y: seq<real> | |y| == |R| && Cancels(RowScaled(A, R), y, n) ensures AllZero(y) {
      var w := Products(R, y);
      forall j | 0 <= j < n ensures Aty(A, w, j) == 0.0 {
        ScaledAty(A, R, y, j);
      }
      assert Cancels(A, w, n);
      forall i | 0 <= i < |y| ensures y[i] == 0.0 {
        assert w[i] == 0.0;
        ZeroFactor(R[i], y[i]);
      }
    }
  }

  lemma ZeroFactor(r: real, y: real)
    requires r > 0.0 && Times(r, y) == 0.0
    ensures y == 0.0
  {
  }

  // ----- the routine

  function FactorAt(A: Matrix, root: real -> real, n: nat, i: int): real {
    Quot(1.0, root(Size(A, i, n)))
  }

  function Factors(A: Matrix, root: real -> real, m: nat, n: nat): (R: seq<real>)
    ensures |R| == m
  {
    seq(m, (i: int) => FactorAt(A, root, n, i))
  }

  lemma InverseRoot(s: real, t: real)
    requires s > 0.0 && t >= 0.0 && t * t == s
    ensures Quot(1.0, t) > 0.0 && Times(Times(Quot(1.0, t), Quot(1.0, t)), s) == 1.0
  {
    var q := 1.0 / t;
    assert q * t == 1.0;
    assert (q * q) * (t * t) == (q * t) * (q * t);
  }

  /** Every row gets norm one; a row that is almost zero keeps its size. */
  lemma FactorsNormalize(A: Matrix, root: real -> real, m: nat, n: nat)
    requires IsRoot(root)
    ensures Normalizes(A, Factors(A, root, m, n), n) && Positive(Factors(A, root, m, n))
  {
    hide Times, RowSquares, Quot, Size;
    var R := Factors(A, root, m, n);
    forall i | 0 <= i < m
      ensures R[i] > 0.0 && if RowSquares(A, i, n) < 0.0000000000000001 then R[i] == 1.0 else Times(Times(R[i], R[i]), RowSquares(A, i, n)) == 1.0
    {
      SizeIs(A, i, n);
      InverseRoot(Size(A, i, n), root(Size(A, i, n)));
      if Size(A, i, n) == 1.0 {
        UnitRoot(R[i]);
      }
    }
  }

  lemma SizeIs(A: Matrix, i: int, n: nat)
    ensures Size(A, i, n) > 0.0
    ensures Size(A, i, n) == if RowSquares(A, i, n) < 0.0000000000000001 then 1.0 else RowSquares(A, i, n)
  {
  }

  lemma UnitRoot(r: real)
    requires r > 0.0 && Times(Times(r, r), 1.0) == 1.0
    ensures r == 1.0
  {
    BySquares(r, 1.0);
    BySquares(1.0, r);
  }

  /** The hypothesis on the solver can be met for every matrix of full row rank. */
  lemma SolverExists(A: Matrix, root: real -> real, m: nat, n: nat)
    requires IsRoot(root) && FullRank(A, m, n)
    ensures exists solve: (seq<real>, seq<real>) -> seq<real> :: Exact(RowScaled(A, Factors(A, root, m, n)), solve, m, n)
  {
    hide IsRoot, FullRank, Exact, Positive;
    FactorsNormalize(A, root, m, n);
    ScaledRank(A, Factors(A, root, m, n), n);
    ExactExists(RowScaled(A, Factors(A, root, m, n)), m, n);
  }

  /** scale_lp: the factors of the rows; columns are not scaled. */
  method ScaleFactors(A: Matrix, root: real -> real, m: nat, n: nat) returns (R: array<real>)
    ensures fresh(R) && R.Length == m && R[..] == Factors(A, root, m, n)
  {
    hide Times, Quot;
    R := new real[m](_ => 1.0);
    var i := 0;
    while i < m
      invariant 0 <= i <= m && forall k :: 0 <= k < i ==> R[k] == FactorAt(A, root, n, k)
    {
      var sum, j := 0.0, 0;
      while j < n
        invariant 0 <= j <= n && sum == RowSquares(A, i, j)
      {
        sum := sum + Times(A(i, j), A(i, j));
        j := j + 1;
      }
      if sum < TINY {
        sum := 1.0;
      }
      R[i] := Quot(1.0, root(sum));
      i := i + 1;
    }
  }

  /** a := R*a */
  method MultiplyBy(a: array<real>, R: array<real>)
    requires a.Length == R.Length && a != R
    modifies a
    ensures a[..] == Products(R[..], old(a[..]))
  {
    var i := 0;
    while i < a.Length
      invariant 0 <= i <= a.Length
      invariant forall k :: 0 <= k < i ==> a[k] == Times(R[k], old(a[k]))
      invariant forall k :: i <= k < a.Length ==> a[k] == old(a[k])
    {
      a[i] := Times(R[i], a[i]);
      i := i + 1;
    }
  }

  /** a := inv(R)*a, which undoes the multiplication. */
  method DivideBy(a: array<real>, R: array<real>, ghost was: seq<real>)
    requires a.Length == R.Length == |was| && a != R && Positive(R[..]) && a[..] == Products(R[..], was)
    modifies a
    ensures a[..] == was
  {
    var i := 0;
    while i < a.Length
      invariant 0 <= i <= a.Length
      invariant forall k :: 0 <= k < i ==> a[k] == was[k]
      invariant forall k :: i <= k < a.Length ==> a[k] == old(a[..])[k]
    {
      assert R[..][i] > 0.0;
      assert old(a[..])[i] == Times(R[i], was[i]);
      Undone(R[i], was[i]);
      a[i] := Quot(a[i], R[i]);
      i := i + 1;
    }
  }

  lemma Undone(r: real, x: real)
    requires r > 0.0
    ensures Quot(Times(r, x), r) == x
  {
    var q := (r * x) / r;
    assert q * r == r * x;
    assert (q - x) * r == 0.0;
  }

  /** What the returned point of the scaled problem says of the problem as it was given. */
  lemma Unscaled(root: real -> real, A: Matrix, R: seq<real>, b: seq<real>, c: seq<real>, p: Point, q: Point)
    requires IsRoot(root) && |R| == |b| && Sized(b, c, p) && Positive(p.z)
    requires q == Point(p.x, Products(R, p.y), p.z) && Solves(root, RowScaled(A, R), Products(R, b), c, p)
    ensures Norm(root, DualResidual(A, c, q.y, q.z)) < 0.00000001 * (1.0 + Norm(root, c))
    ensures GapBelow(b, c, q)
    ensures forall x :: |x| == |c| && Feasible(A, b, x) ==> WithinTolerance(root, c, q.x, x)
  {
    hide Dot, Norm, IsRoot, Ax, Aty, Times, Feasible, WithinTolerance;
    var M := RowScaled(A, R);
    assert DualResidual(A, c, q.y, q.z) == DualResidual(M, c, p.y, p.z) by {
      forall j | 0 <= j < |p.z| ensures Dual(A, c, q.y, q.z, j) == Dual(M, c, p.y, p.z, j) {
        ScaledAty(A, R, p.y, j);
      }
    }
    ScaledDot(R, b, p.y);
    OptimalSolves(root, M, Products(R, b), c, p);
    forall x | |x| == |c| && Feasible(A, b, x) ensures WithinTolerance(root, c, q.x, x) {
      ScaledFeasible(A, R, b, x);
      NearlyOptimal(root, M, Products(R, b), c, p, x);
    }
  }

  /** ipm1. The run is one of the scaled problem; v holds the values of y before they are unscaled. If the routine reports an optimal
      solution then, for the problem as given, the dual infeasibility and the gap are within the tolerance and no feasible point is
      cheaper by more than the tolerances. Code 4 does not occur, because the normal equations are solved exactly. */
  method Ipm1(A: Matrix, b: array<real>, c: seq<real>, x: array<real>, y: array<real>, z: array<real>, root: real -> real,
              solve: (seq<real>, seq<real>) -> seq<real>) returns (status: int, ghost path: seq<Point>, ghost v: seq<real>)
    requires |c| >= 1 && x.Length == z.Length == |c| && y.Length == b.Length && x != y && x != z && y != z && b !in {x, y, z}
    requires IsRoot(root) && Exact(RowScaled(A, Factors(A, root, b.Length, |c|)), solve, b.Length, |c|)
    modifies b, x, y, z
    ensures b[..] == old(b[..]) && 0 <= status <= 3 && Positive(x[..]) && Positive(z[..])
    ensures var R := Factors(A, root, b.Length, |c|);
            && |v| == b.Length && y[..] == Products(R, v)
            && RunOf(root, RowScaled(A, R), Products(R, b[..]), c, path, Point(x[..], v, z[..]), status)
    ensures status == 0 ==> Norm(root, DualResidual(A, c, y[..], z[..])) < 0.00000001 * (1.0 + Norm(root, c))
    ensures status == 0 ==> GapBelow(b[..], c, Point(x[..], y[..], z[..]))
    ensures status == 0 ==> forall o :: |o| == |c| && Feasible(A, b[..], o) ==> WithinTolerance(root, c, x[..], o)
  {
    hide IsRoot, Exact, Positive, Test, Phi, Within, AllWithin, PathOk, IsStart, WithinTolerance, Feasible, Mins, RunOf, Solves, GapBelow, Norm;
    ghost var b0 := b[..];
    var R := ScaleFactors(A, root, b.Length, |c|);
    FactorsNormalize(A, root, b.Length, |c|);
    MultiplyBy(b, R);
    var M, bs := RowScaled(A, R[..]), b[..];
    var s := new Solver(M, bs, c, x, y, z, solve);
    status, path := Iterate(s, PhiOf(root, M, bs, c), TestOf(root, M, bs, c));
    v := y[..];
    ghost var p := Point(x[..], v, z[..]);
    RunMeans(root, M, bs, c, path, p, status);
    MultiplyBy(y, R);
    DivideBy(b, R, b0);
    if status == 0 {
      RunSolves(root, M, bs, c, path, p);
      Unscaled(root, A, R[..], b0, c, p, Point(x[..], y[..], z[..]));
    }
  }
}
