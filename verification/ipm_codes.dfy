/** The measures along a run, and the conditions under which the main loop stops with each code. */
module IpmCodes {
  import opened Sums
  import opened Ipm
  import opened IpmNormal
  import opened IpmMeasure

  // ----- the measures along a run

  lemma NormScales(root: real -> real, v: seq<real>, w: seq<real>, f: real)
    requires IsRoot(root) && |v| == |w| && f >= 0.0 && forall i :: 0 <= i < |v| ==> v[i] == Times(f, w[i])
    ensures Norm(root, v) == Times(f, Norm(root, w))
  {
    hide IsRoot, Norm, Times;
    forall i | 0 <= i < |v| ensures DotF(v, v)(i) == Times(f * f, DotF(w, w)(i)) {
      SquareOut(f, w[i]);
    }
    SumScaled(DotF(v, v), DotF(w, w), f * f, |v|);
    NormFacts(root, v);
    NormFacts(root, w);
    RootScales(f, Norm(root, v), Norm(root, w), Dot(v, v), Dot(w, w));
  }

  lemma RootScales(f: real, x: real, y: real, s: real, t: real)
    requires f >= 0.0 && x >= 0.0 && y >= 0.0 && x * x == s && y * y == t && s == Times(f * f, t)
    ensures x == Times(f, y)
  {
    var z := f * y;
    ProductSign(f, y);
    assert z * z == (f * f) * (y * y);
    BySquares(x, z);
    BySquares(z, x);
  }

  lemma SquareOut(f: real, w: real)
    ensures Times(Times(f, w), Times(f, w)) == Times(f * f, Times(w, w))
  {
  }

  /** The residual norms of a point of the run are fractions of those of the first point. */
  lemma NormsShrink(root: real -> real, A: Matrix, b: seq<real>, c: seq<real>, first: Point, p: Point)
    requires IsRoot(root) && Within(A, b, c, first, p)
    ensures PrimalNorm(root, A, b, p) <= PrimalNorm(root, A, b, first) && DualNorm(root, A, c, p) <= DualNorm(root, A, c, first)
  {
    hide IsRoot, Norm, Primal, Dual, Times;
    var f, g :| Reached(A, b, c, first, p, f, g);
    var r, q := Residual(A, b, first.x), DualResidual(A, c, first.y, first.z);
    NormScales(root, Residual(A, b, p.x), r, f);
    NormScales(root, DualResidual(A, c, p.y, p.z), q, g);
    NormFacts(root, r);
    NormFacts(root, q);
    Fraction(f, Norm(root, r));
    Fraction(g, Norm(root, q));
  }

  lemma Fraction(f: real, x: real)
    requires 0.0 < f <= 1.0 && x >= 0.0
    ensures Times(f, x) <= x
  {
    ProductSign(1.0 - f, x);
    assert (1.0 - f) * x == x - f * x;
  }

  lemma QuotMonotone(x: real, y: real, d: real)
    requires x <= y && d > 0.0
    ensures Quot(x, d) <= Quot(y, d)
  {
    assert (x / d) * d == x && (y / d) * d == y;
    if x / d > y / d {
      ProductPositive(x / d - y / d, d);
    }
  }

  /** Relative infeasibilities never grow. */
  lemma NeverWorse(root: real -> real, A: Matrix, b: seq<real>, c: seq<real>, first: Point, p: Point)
    requires IsRoot(root) && Within(A, b, c, first, p)
    ensures Rpi(root, A, b, p) <= Rpi(root, A, b, first) && Rdi(root, A, c, p) <= Rdi(root, A, c, first)
  {
    hide IsRoot, Norm, Times, Within, Residual, DualResidual, Quot;
    NormsShrink(root, A, b, c, first, p);
    NormFacts(root, b);
    NormFacts(root, c);
    QuotMonotone(PrimalNorm(root, A, b, p), PrimalNorm(root, A, b, first), 1.0 + Norm(root, b));
    QuotMonotone(DualNorm(root, A, c, p), DualNorm(root, A, c, first), 1.0 + Norm(root, c));
  }

  /** The ratio rmu/rmu0 is computed only where rmu0 is positive: a run that starts feasible stays feasible. */
  lemma NoZeroDivision(root: real -> real, A: Matrix, b: seq<real>, c: seq<real>, first: Point, p: Point)
    requires IsRoot(root) && Within(A, b, c, first, p) && |first.x| == |first.z| >= 1 && Positive(first.x) && Positive(first.z)
    requires Rpi(root, A, b, p) >= TOL || Rdi(root, A, c, p) >= TOL
    ensures Rmu(root, A, b, c, first) > 0.0
  {
    hide IsRoot, Norm, Times, Within, Residual, DualResidual, Quot, Dot;
    NeverWorse(root, A, b, c, first, p);
    NormFacts(root, Residual(A, b, first.x));
    NormFacts(root, DualResidual(A, c, first.y, first.z));
    NormFacts(root, b);
    NormFacts(root, c);
    QuotSign(PrimalNorm(root, A, b, first), 1.0 + Norm(root, b));
    QuotSign(DualNorm(root, A, c, first), 1.0 + Norm(root, c));
    DotAbove(first.x, first.z);
    QuotSign(Dot(first.x, first.z), |first.x| as real);
    var mu := Quot(Dot(first.x, first.z), |first.x| as real);
    QuotSign(Max(PrimalNorm(root, A, b, first), DualNorm(root, A, c, first)), mu);
  }

  lemma StartInfeasible(root: real -> real, A: Matrix, b: seq<real>, c: seq<real>, first: Point, p: Point)
    requires IsRoot(root) && Within(A, b, c, first, p) && (Rpi(root, A, b, p) >= TOL || Rdi(root, A, c, p) >= TOL)
    ensures Infeasibility(root, A, b, c, first) > 0.0
  {
    hide IsRoot, Norm, Times, Within, Residual, DualResidual, Quot;
    NeverWorse(root, A, b, c, first, p);
    NormFacts(root, Residual(A, b, first.x));
    NormFacts(root, DualResidual(A, c, first.y, first.z));
    NormFacts(root, b);
    NormFacts(root, c);
    QuotSign(PrimalNorm(root, A, b, first), 1.0 + Norm(root, b));
    QuotSign(DualNorm(root, A, c, first), 1.0 + Norm(root, c));
  }

  lemma QuotSign(x: real, d: real)
    requires x >= 0.0 && d > 0.0
    ensures if x == 0.0 then Quot(x, d) == 0.0 else Quot(x, d) > 0.0
  {
    assert (x / d) * d == x;
  }

  lemma DotAbove(x: seq<real>, z: seq<real>)
    requires |x| == |z| >= 1 && Positive(x) && Positive(z)
    ensures Dot(x, z) > 0.0
  {
    hide Times;
    forall j | 0 <= j < |x| ensures DotF(x, z)(j) > 0.0 {
      ProductPositive(x[j], z[j]);
    }
    SumPositive(DotF(x, z), |x|);
  }

  function PhiOf(root: real -> real, A: Matrix, b: seq<real>, c: seq<real>): Point -> real {
    (p: Point) => Phi(root, A, b, c, p)
  }

  function TestOf(root: real -> real, A: Matrix, b: seq<real>, c: seq<real>): (Point, Point, seq<real>) -> int {
    (first: Point, p: Point, mins: seq<real>) => Test(root, A, b, c, first, p, mins)
  }

  // ----- the conditions of the return codes

  /** The merit function written out. */
  function Merit(root: real -> real, A: Matrix, b: seq<real>, c: seq<real>, p: Point): real {
    var bnorm, cnorm := Norm(root, b), Norm(root, c);
    var larger := if bnorm > 1.0 then bnorm else 1.0;
    Norm(root, Residual(A, b, p.x)) / (if bnorm > 1.0 then bnorm else 1.0)
    + Norm(root, DualResidual(A, c, p.y, p.z)) / (if cnorm > 1.0 then cnorm else 1.0)
    + Distance(Dot(c, p.x), Dot(b, p.y)) / (if cnorm > larger then cnorm else larger)
  }

  function Distance(x: real, y: real): real {
    if x < y then y - x else x - y
  }

  /** Code 0: both residuals and the gap are within 1e-8. */
  ghost predicate Solves(root: real -> real, A: Matrix, b: seq<real>, c: seq<real>, p: Point) {
    && Norm(root, Residual(A, b, p.x)) < 0.00000001 * (1.0 + Norm(root, b))
    && Norm(root, DualResidual(A, c, p.y, p.z)) < 0.00000001 * (1.0 + Norm(root, c))
    && GapBelow(b, c, p)
  }

  ghost predicate GapBelow(b: seq<real>, c: seq<real>, p: Point) {
    Distance(Dot(c, p.x), Dot(b, p.y)) < 0.00000001 * (1.0 + Distance(Dot(c, p.x), 0.0))
  }

  /** Code 1: the merit is not negligible, and some earlier point has one 1e5 times smaller. */
  ghost predicate Worsens(root: real -> real, A: Matrix, b: seq<real>, c: seq<real>, path: seq<Point>, k: int)
    requires 0 <= k < |path|
  {
    var phi := Merit(root, A, b, c, path[k]);
    phi >= 0.00000001 && exists i :: 0 <= i < k && phi >= 100000.0 * Merit(root, A, b, c, path[i])
  }

  /** Some of the points 0..k has at most twice the merit of p. */
  ghost predicate HalfOf(root: real -> real, A: Matrix, b: seq<real>, c: seq<real>, path: seq<Point>, k: int, p: Point)
    requires 0 <= k < |path|
  {
    exists j :: 0 <= j <= k && Merit(root, A, b, c, p) >= 0.5 * Merit(root, A, b, c, path[j])
  }

  /** Code 2, first reason: over the last thirty steps the least merit has not been halved. */
  ghost predicate Stagnates(root: real -> real, A: Matrix, b: seq<real>, c: seq<real>, path: seq<Point>, k: int)
    requires 0 <= k < |path|
  {
    k >= 30 && forall i :: 0 <= i <= k ==> HalfOf(root, A, b, c, path, k - 30, path[i])
  }

  /** The larger one of the residual norms. */
  function Infeasibility(root: real -> real, A: Matrix, b: seq<real>, c: seq<real>, p: Point): real {
    var r, q := Norm(root, Residual(A, b, p.x)), Norm(root, DualResidual(A, c, p.y, p.z));
    if r > q then r else q
  }

  /** Code 2, second reason: at a point that is not feasible the ratio of infeasibility to x'z is 1e6 times that of the first point. */
  ghost predicate DriftsOff(root: real -> real, A: Matrix, b: seq<real>, c: seq<real>, first: Point, p: Point) {
    && (Norm(root, Residual(A, b, p.x)) >= 0.00000001 * (1.0 + Norm(root, b))
        || Norm(root, DualResidual(A, c, p.y, p.z)) >= 0.00000001 * (1.0 + Norm(root, c)))
    && Infeasibility(root, A, b, c, p) * Dot(first.x, first.z) >= 1000000.0 * (Infeasibility(root, A, b, c, first) * Dot(p.x, p.z))
  }

  /** The code that the tests give at point k of a run; -1 if the run goes on. */
  ghost predicate CodeAt(root: real -> real, A: Matrix, b: seq<real>, c: seq<real>, path: seq<Point>, k: int, code: int)
    requires 0 <= k < |path|
  {
    code == if Solves(root, A, b, c, path[k]) then 0
            else if Worsens(root, A, b, c, path, k) then 1
            else if Stagnates(root, A, b, c, path, k) || DriftsOff(root, A, b, c, path[0], path[k]) then 2
            else -1
  }

  /** No test succeeds at point k, and the next point is one step away. */
  ghost predicate GoesOn(root: real -> real, A: Matrix, b: seq<real>, c: seq<real>, path: seq<Point>, k: int)
    requires 0 <= k < |path| - 1
  {
    IsStep(A, b, c, path[k], path[k + 1]) && CodeAt(root, A, b, c, path, k, -1)
  }

  /** The run of ipm1 on a scaled problem: it starts at Mehrotra's point, makes one Mehrotra step after another while no test succeeds,
      at most a hundred, and returns the last point if it is optimal and the one of least merit otherwise; no point is less feasible
      than the first. */
  ghost predicate RunOf(root: real -> real, A: Matrix, b: seq<real>, c: seq<real>, path: seq<Point>, p: Point, status: int) {
    && 1 <= |path| <= 101 && IsStart(A, b, c, path[0]) && AllWithin(A, b, c, path)
    && (forall k :: 0 <= k < |path| - 1 ==> GoesOn(root, A, b, c, path, k))
    && (if status == 3 then |path| == 101 && CodeAt(root, A, b, c, path, |path| - 1, -1)
        else status != -1 && CodeAt(root, A, b, c, path, |path| - 1, status))
    && if status == 0 then p == path[|path| - 1]
       else p in path && forall k :: 0 <= k < |path| ==> Merit(root, A, b, c, p) <= Merit(root, A, b, c, path[k])
  }

  // ----- the tests are these conditions

  lemma QuotLess(x: real, y: real, t: real)
    requires y > 0.0
    ensures Quot(x, y) < t <==> x < t * y
    ensures Quot(x, y) == x / y
  {
    var q := x / y;
    assert q * y == x;
    if q < t {
      ProductPositive(t - q, y);
    } else {
      ProductSign(q - t, y);
    }
  }

  lemma DistanceIs(x: real, y: real)
    ensures Abs(x - y) == Distance(x, y) && Abs(x) == Distance(x, 0.0) >= 0.0
  {
  }

  lemma PhiIsMerit(root: real -> real, A: Matrix, b: seq<real>, c: seq<real>, p: Point)
    ensures Phi(root, A, b, c, p) == Merit(root, A, b, c, p)
  {
    hide Norm, Dot, Residual, DualResidual;
    DistanceIs(Dot(c, p.x), Dot(b, p.y));
  }

  lemma OptimalSolves(root: real -> real, A: Matrix, b: seq<real>, c: seq<real>, p: Point)
    requires IsRoot(root)
    ensures Optimal(root, A, b, c, p) <==> Solves(root, A, b, c, p)
    ensures Rpi(root, A, b, p) < TOL <==> Norm(root, Residual(A, b, p.x)) < 0.00000001 * (1.0 + Norm(root, b))
    ensures Rdi(root, A, c, p) < TOL <==> Norm(root, DualResidual(A, c, p.y, p.z)) < 0.00000001 * (1.0 + Norm(root, c))
  {
    hide Norm, IsRoot, Dot, Residual, DualResidual, Quot, Abs;
    NormFacts(root, b);
    NormFacts(root, c);
    QuotLess(Norm(root, Residual(A, b, p.x)), 1.0 + Norm(root, b), TOL);
    QuotLess(Norm(root, DualResidual(A, c, p.y, p.z)), 1.0 + Norm(root, c), TOL);
    DistanceIs(Dot(c, p.x), Dot(b, p.y));
    DistanceIs(Dot(c, p.x), 0.0);
    QuotLess(Abs(Dot(c, p.x) - Dot(b, p.y)), 1.0 + Abs(Dot(c, p.x)), TOL);
  }

  lemma {:induction false} MinsAt(merit: Point -> real, path: seq<Point>, k: nat, i: nat)
    requires i < k <= |path|
    ensures Mins(merit, path, k)[i] == Least(merit, path, i + 1)
  {
    if i < k - 1 {
      MinsAt(merit, path, k - 1, i);
    }
  }

  lemma {:induction false} LeastAttained(merit: Point -> real, path: seq<Point>, k: nat) returns (i: nat)
    requires 1 <= k <= |path|
    ensures i < k && merit(path[i]) == Least(merit, path, k)
  {
    if k == 1 || Least(merit, path, k - 1) > merit(path[k - 1]) {
      i := k - 1;
    } else {
      i := LeastAttained(merit, path, k - 1);
    }
  }

  lemma WorsensTest(root: real -> real, A: Matrix, b: seq<real>, c: seq<real>, path: seq<Point>, k: nat)
    requires IsRoot(root) && k < |path|
    ensures var mins := Mins(PhiOf(root, A, b, c), path, k + 1);
            Phi(root, A, b, c, path[k]) >= Max(100000.0 * mins[k], TOL) <==> Worsens(root, A, b, c, path, k)
  {
    hide IsRoot, Phi, Merit, Mins, Least;
    var merit := PhiOf(root, A, b, c);
    MinsAt(merit, path, k + 1, k);
    forall i | 0 <= i < |path| ensures merit(path[i]) == Merit(root, A, b, c, path[i]) {
      PhiIsMerit(root, A, b, c, path[i]);
    }
    var least := LeastAttained(merit, path, k + 1);
    if i :| 0 <= i < k && Merit(root, A, b, c, path[k]) >= 100000.0 * Merit(root, A, b, c, path[i]) {
      LeastIsLeast(merit, path, k + 1, i);
    }
  }

  ghost predicate HalfIn(merit: Point -> real, path: seq<Point>, k: int, p: Point)
    requires 0 <= k < |path|
  {
    exists j :: 0 <= j <= k && merit(p) >= 0.5 * merit(path[j])
  }

  lemma NoneHalved(merit: Point -> real, path: seq<Point>, k: nat, h: nat)
    requires h <= k < |path| && Least(merit, path, k + 1) >= 0.5 * Least(merit, path, h + 1)
    ensures forall i :: 0 <= i <= k ==> HalfIn(merit, path, h, path[i])
  {
    hide Least;
    var j := LeastAttained(merit, path, h + 1);
    forall i | 0 <= i <= k ensures HalfIn(merit, path, h, path[i]) {
      LeastIsLeast(merit, path, k + 1, i);
      assert merit(path[i]) >= 0.5 * merit(path[j]);
    }
  }

  lemma LeastHalved(merit: Point -> real, path: seq<Point>, k: nat, h: nat)
    requires h <= k < |path| && forall i :: 0 <= i <= k ==> HalfIn(merit, path, h, path[i])
    ensures Least(merit, path, k + 1) >= 0.5 * Least(merit, path, h + 1)
  {
    hide Least, HalfIn;
    var m := LeastAttained(merit, path, k + 1);
    var j := HalfAt(merit, path, h, path[m]);
    LeastIsLeast(merit, path, h + 1, j);
  }

  lemma HalfAt(merit: Point -> real, path: seq<Point>, k: nat, p: Point) returns (j: nat)
    requires k < |path| && HalfIn(merit, path, k, p)
    ensures j <= k && merit(p) >= 0.5 * merit(path[j])
  {
    j :| 0 <= j <= k && merit(p) >= 0.5 * merit(path[j]);
  }

  lemma SameHalf(root: real -> real, A: Matrix, b: seq<real>, c: seq<real>, path: seq<Point>, k: int, p: Point)
    requires 0 <= k < |path|
    ensures HalfIn(PhiOf(root, A, b, c), path, k, p) <==> HalfOf(root, A, b, c, path, k, p)
  {
    hide Phi, Merit;
    PhiIsMerit(root, A, b, c, p);
    forall j | 0 <= j <= k ensures PhiOf(root, A, b, c)(path[j]) == Merit(root, A, b, c, path[j]) {
      PhiIsMerit(root, A, b, c, path[j]);
    }
  }

  lemma StallsTest(root: real -> real, A: Matrix, b: seq<real>, c: seq<real>, path: seq<Point>, k: nat)
    requires k < |path|
    ensures Stalls(Mins(PhiOf(root, A, b, c), path, k + 1)) <==> Stagnates(root, A, b, c, path, k)
  {
    hide PhiOf, Mins, Least, HalfIn, HalfOf;
    if k >= 30 {
      var merit, h := PhiOf(root, A, b, c), k - 30;
      MinsAt(merit, path, k + 1, k);
      MinsAt(merit, path, k + 1, h);
      forall i | 0 <= i <= k ensures HalfIn(merit, path, h, path[i]) <==> HalfOf(root, A, b, c, path, h, path[i]) {
        SameHalf(root, A, b, c, path, h, path[i]);
      }
      if Least(merit, path, k + 1) >= 0.5 * Least(merit, path, h + 1) {
        NoneHalved(merit, path, k, h);
      }
      if Stagnates(root, A, b, c, path, k) {
        LeastHalved(merit, path, k, h);
      }
    }
  }

  /** Dividing both infeasibilities by x'z/n and the results by each other. */
  lemma RatioTest(f: real, d: real, f0: real, d0: real, n: real)
    requires d > 0.0 && d0 > 0.0 && n > 0.0 && f0 > 0.0
    ensures Quot(f0, Quot(d0, n)) > 0.0
    ensures Quot(Quot(f, Quot(d, n)), Quot(f0, Quot(d0, n))) >= 1000000.0 <==> f * d0 >= 1000000.0 * (f0 * d)
  {
    hide Quot;
    var mu, mu0 := Quot(d, n), Quot(d0, n);
    QuotIs(d, n);
    QuotIs(d0, n);
    var r, r0 := Quot(f, mu), Quot(f0, mu0);
    QuotIs(f, mu);
    QuotIs(f0, mu0);
    QuotLess(r, r0, 1000000.0);
    CrossTest(r, r0, mu, mu0, f, f0, d, d0, n);
  }

  lemma QuotIs(x: real, y: real)
    requires y > 0.0
    ensures Quot(x, y) * y == x && (x > 0.0 ==> Quot(x, y) > 0.0)
  {
    var q := x / y;
    assert q * y == x;
    if x > 0.0 && q <= 0.0 {
      ProductSign(-q, y);
    }
  }

  lemma CrossTest(r: real, r0: real, mu: real, mu0: real, f: real, f0: real, d: real, d0: real, n: real)
    requires mu > 0.0 && mu0 > 0.0 && n > 0.0 && r * mu == f && r0 * mu0 == f0 && mu * n == d && mu0 * n == d0
    ensures r < 1000000.0 * r0 <==> f * d0 < 1000000.0 * (f0 * d)
  {
    var g := mu * mu0 * n;
    ProductPositive(mu, mu0);
    ProductPositive(mu * mu0, n);
    assert f * d0 == r * g && f0 * d == r0 * g;
    Order(r, 1000000.0 * r0, g);
  }

  lemma Order(x: real, y: real, g: real)
    requires g > 0.0
    ensures x < y <==> x * g < y * g
  {
    if x < y {
      ProductPositive(y - x, g);
    } else {
      ProductSign(x - y, g);
    }
  }

  lemma DivergesTest(root: real -> real, A: Matrix, b: seq<real>, c: seq<real>, first: Point, p: Point)
    requires IsRoot(root) && Within(A, b, c, first, p) && |first.x| == |first.z| == |p.x| == |p.z| >= 1
    requires Positive(first.x) && Positive(first.z) && Positive(p.x) && Positive(p.z)
    ensures Diverges(root, A, b, c, first, p) <==> DriftsOff(root, A, b, c, first, p)
  {
    hide IsRoot, Norm, Times, Within, Residual, DualResidual, Quot, Dot, Positive, Rpi, Rdi;
    OptimalSolves(root, A, b, c, p);
    if Rpi(root, A, b, p) >= TOL || Rdi(root, A, c, p) >= TOL {
      DotAbove(first.x, first.z);
      DotAbove(p.x, p.z);
      StartInfeasible(root, A, b, c, first, p);
      RatioTest(Infeasibility(root, A, b, c, p), Dot(p.x, p.z), Infeasibility(root, A, b, c, first), Dot(first.x, first.z), |p.x| as real);
    }
  }

  lemma TestMeans(root: real -> real, A: Matrix, b: seq<real>, c: seq<real>, path: seq<Point>, k: nat)
    requires IsRoot(root) && AllWithin(A, b, c, path) && |c| >= 1 && k < |path|
    ensures CodeAt(root, A, b, c, path, k, TestOf(root, A, b, c)(path[0], path[k], Mins(PhiOf(root, A, b, c), path, k + 1)))
  {
    hide IsRoot, AllWithin, Optimal, Solves, Phi, Merit, Mins, Diverges, DriftsOff, Stalls, Stagnates, Worsens, Within;
    RunPoint(A, b, c, path, k);
    RunPoint(A, b, c, path, 0);
    OptimalSolves(root, A, b, c, path[k]);
    WorsensTest(root, A, b, c, path, k);
    StallsTest(root, A, b, c, path, k);
    DivergesTest(root, A, b, c, path[0], path[k]);
  }

  lemma RunPoint(A: Matrix, b: seq<real>, c: seq<real>, path: seq<Point>, k: nat)
    requires AllWithin(A, b, c, path) && k < |path|
    ensures Within(A, b, c, path[0], path[k]) && Positive(path[k].x) && Positive(path[k].z) && |path[k].x| == |path[k].z| == |c|
  {
  }

  lemma RunMeans(root: real -> real, A: Matrix, b: seq<real>, c: seq<real>, path: seq<Point>, p: Point, status: int)
    requires IsRoot(root) && AllWithin(A, b, c, path) && IsStart(A, b, c, path[0]) && |c| >= 1 && 1 <= |path| <= 101
    requires PathOk(A, b, c, PhiOf(root, A, b, c), TestOf(root, A, b, c), path)
    requires var st := TestOf(root, A, b, c)(path[0], path[|path| - 1], Mins(PhiOf(root, A, b, c), path, |path|));
             if st != -1 then status == st else status == 3 && |path| == 101
    requires if status == 0 then p == path[|path| - 1]
             else p in path && forall k :: 0 <= k < |path| ==> PhiOf(root, A, b, c)(p) <= PhiOf(root, A, b, c)(path[k])
    ensures RunOf(root, A, b, c, path, p, status)
  {
    hide IsRoot, AllWithin, IsStart, CodeAt, Mins, PhiOf, TestOf, Merit, PathOk, GoesOn;
    forall k | 0 <= k < |path| - 1 ensures GoesOn(root, A, b, c, path, k) {
      StepGoesOn(root, A, b, c, path, k);
    }
    TestMeans(root, A, b, c, path, |path| - 1);
    TestRange(root, A, b, c, path[0], path[|path| - 1], Mins(PhiOf(root, A, b, c), path, |path|));
    PhiOfIs(root, A, b, c, p);
    forall k | 0 <= k < |path| ensures PhiOf(root, A, b, c)(path[k]) == Merit(root, A, b, c, path[k]) {
      PhiOfIs(root, A, b, c, path[k]);
    }
  }

  lemma PhiOfIs(root: real -> real, A: Matrix, b: seq<real>, c: seq<real>, p: Point)
    ensures PhiOf(root, A, b, c)(p) == Merit(root, A, b, c, p)
  {
    hide Phi, Merit;
    PhiIsMerit(root, A, b, c, p);
  }

  lemma StepGoesOn(root: real -> real, A: Matrix, b: seq<real>, c: seq<real>, path: seq<Point>, k: nat)
    requires IsRoot(root) && AllWithin(A, b, c, path) && |c| >= 1 && k < |path| - 1
    requires PathOk(A, b, c, PhiOf(root, A, b, c), TestOf(root, A, b, c), path)
    ensures GoesOn(root, A, b, c, path, k)
  {
    hide IsRoot, AllWithin, IsStep, CodeAt, Mins, PhiOf, TestOf;
    assert StepAt(A, b, c, PhiOf(root, A, b, c), TestOf(root, A, b, c), path, k + 1);
    TestMeans(root, A, b, c, path, k);
  }

  lemma TestRange(root: real -> real, A: Matrix, b: seq<real>, c: seq<real>, first: Point, p: Point, mins: seq<real>)
    ensures -1 <= TestOf(root, A, b, c)(first, p, mins) <= 2
  {
  }

  lemma RunSolves(root: real -> real, A: Matrix, b: seq<real>, c: seq<real>, path: seq<Point>, p: Point)
    requires RunOf(root, A, b, c, path, p, 0)
    ensures Solves(root, A, b, c, p)
  {
    hide Solves, Worsens, Stagnates, DriftsOff, AllWithin, IsStart, GoesOn;
  }

  /** Code 1 never comes at the first point. */
  lemma NotAtOnce(root: real -> real, A: Matrix, b: seq<real>, c: seq<real>, path: seq<Point>, p: Point)
    requires RunOf(root, A, b, c, path, p, 1)
    ensures |path| >= 2
  {
    hide Solves, Stagnates, DriftsOff, AllWithin, IsStart, GoesOn, Merit;
  }
}
