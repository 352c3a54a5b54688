/** Norms, the quantities computed at a point, and what the optimality test means. */
module IpmMeasure {
  import opened Sums
  import opened Ipm
  import opened IpmNormal

  ghost predicate IsRoot(root: real -> real) {
    forall t :: t >= 0.0 ==> root(t) >= 0.0 && root(t) * root(t) == t
  }

  function DotF(u: seq<real>, v: seq<real>): int -> real {
    (j: int) => Times(Val(u, j), Val(v, j))
  }

  /** u'*v over the first n components. */
  function DotTo(u: seq<real>, v: seq<real>, n: nat): real {
    Sum(DotF(u, v), n)
  }

  function Dot(u: seq<real>, v: seq<real>): real {
    DotTo(u, v, |u|)
  }

  function Norm(root: real -> real, v: seq<real>): real {
    root(Dot(v, v))
  }

  // ----- the inequality of Cauchy and Schwarz

  lemma CauchyStep(s: real, p: real, q: real, a: real, b: real)
    requires s * s <= p * q && p >= 0.0 && q >= 0.0
    ensures (s + a * b) * (s + a * b) <= (p + a * a) * (q + b * b)
  {
    MixedTerm(s, p, q, a, b);
    assert (s + a * b) * (s + a * b) == s * s + 2.0 * (s * (a * b)) + (a * b) * (a * b);
    assert (p + a * a) * (q + b * b) == p * q + (p * (b * b) + q * (a * a)) + (a * a) * (b * b);
    assert (a * b) * (a * b) == (a * a) * (b * b);
  }

  lemma MixedTerm(s: real, p: real, q: real, a: real, b: real)
    requires s * s <= p * q && p >= 0.0 && q >= 0.0
    ensures 2.0 * (s * (a * b)) <= p * (b * b) + q * (a * a)
  {
    var x, y := p * (b * b), q * (a * a);
    ProductSign(p, b * b);
    ProductSign(q, a * a);
    var t := s * (a * b);
    assert t * t == (s * s) * ((a * b) * (a * b));
    assert x * y == (p * q) * ((a * b) * (a * b));
    Monotone(s * s, p * q, (a * b) * (a * b));
    assert (x + y) * (x + y) >= 4.0 * (x * y) by {
      assert (x - y) * (x - y) >= 0.0;
    }
    BySquares(2.0 * t, x + y);
  }

  lemma ProductSign(p: real, q: real)
    requires p >= 0.0 && q >= 0.0
    ensures p * q >= 0.0
  {
  }

  lemma Monotone(x: real, y: real, f: real)
    requires x <= y && f >= 0.0
    ensures x * f <= y * f
  {
  }

  lemma BySquares(x: real, y: real)
    requires x * x <= y * y && y >= 0.0
    ensures x <= y
  {
    if x > y {
      ProductPositive(x - y, x + y);
    }
  }

  lemma {:induction false} SquaresPositive(v: seq<real>, n: nat)
    ensures DotTo(v, v, n) >= 0.0
  {
    if n != 0 {
      SquaresPositive(v, n - 1);
      var t := Val(v, n - 1);
      assert t * t >= 0.0;
    }
  }

  lemma {:induction false} Cauchy(u: seq<real>, v: seq<real>, n: nat)
    ensures DotTo(u, v, n) * DotTo(u, v, n) <= DotTo(u, u, n) * DotTo(v, v, n)
  {
    if n != 0 {
      Cauchy(u, v, n - 1);
      SquaresPositive(u, n - 1);
      SquaresPositive(v, n - 1);
      CauchyStep(DotTo(u, v, n - 1), DotTo(u, u, n - 1), DotTo(v, v, n - 1), Val(u, n - 1), Val(v, n - 1));
    }
  }

  lemma NormFacts(root: real -> real, v: seq<real>)
    requires IsRoot(root)
    ensures Norm(root, v) >= 0.0 && Norm(root, v) * Norm(root, v) == Dot(v, v)
  {
    SquaresPositive(v, |v|);
  }

  /** The inner product is at least minus the product of the norms. */
  lemma DotBelow(root: real -> real, u: seq<real>, v: seq<real>)
    requires IsRoot(root) && |u| == |v|
    ensures -Dot(u, v) <= Times(Norm(root, u), Norm(root, v))
  {
    hide Norm, IsRoot, DotTo;
    NormFacts(root, u);
    NormFacts(root, v);
    Cauchy(u, v, |u|);
    var s, f, g := Dot(u, v), Norm(root, u), Norm(root, v);
    ProductSign(f, g);
    assert (f * g) * (f * g) == (f * f) * (g * g);
    assert (-s) * (-s) == s * s;
    BySquares(-s, f * g);
  }

  // ----- compute

  function Quot(x: real, y: real): real {
    if y == 0.0 then 0.0 else x / y
  }

  function Max(x: real, y: real): real {
    if x > y then x else y
  }

  /** ||A*x - b|| */
  function PrimalNorm(root: real -> real, A: Matrix, b: seq<real>, p: Point): real {
    Norm(root, Residual(A, b, p.x))
  }

  /** ||A'*y + z - c|| */
  function DualNorm(root: real -> real, A: Matrix, c: seq<real>, p: Point): real
  {
    Norm(root, DualResidual(A, c, p.y, p.z))
  }

  /** Relative primal and dual infeasibility. */
  function Rpi(root: real -> real, A: Matrix, b: seq<real>, p: Point): real {
    Quot(PrimalNorm(root, A, b, p), 1.0 + Norm(root, b))
  }

  function Rdi(root: real -> real, A: Matrix, c: seq<real>, p: Point): real {
    Quot(DualNorm(root, A, c, p), 1.0 + Norm(root, c))
  }

  /** The relative difference of the primal and the dual objective. */
  function PrimalDualGap(b: seq<real>, c: seq<real>, p: Point): real {
    Quot(Abs(Dot(c, p.x) - Dot(b, p.y)), 1.0 + Abs(Dot(c, p.x)))
  }

  /** The merit function. */
  function Phi(root: real -> real, A: Matrix, b: seq<real>, c: seq<real>, p: Point): real {
    var bnorm, cnorm := Norm(root, b), Norm(root, c);
    Quot(PrimalNorm(root, A, b, p), Max(bnorm, 1.0)) + Quot(DualNorm(root, A, c, p), Max(cnorm, 1.0))
    + Quot(Abs(Dot(c, p.x) - Dot(b, p.y)), Max(cnorm, Max(bnorm, 1.0)))
  }

  /** The ratio of infeasibility to the duality measure. */
  function Rmu(root: real -> real, A: Matrix, b: seq<real>, c: seq<real>, p: Point): real {
    Quot(Max(PrimalNorm(root, A, b, p), DualNorm(root, A, c, p)), Quot(Dot(p.x, p.z), |p.x| as real))
  }

  // ----- the tests of the main loop

  const TOL := 0.00000001

  predicate Optimal(root: real -> real, A: Matrix, b: seq<real>, c: seq<real>, p: Point) {
    Rpi(root, A, b, p) < TOL && Rdi(root, A, c, p) < TOL && PrimalDualGap(b, c, p) < TOL
  }

  predicate Diverges(root: real -> real, A: Matrix, b: seq<real>, c: seq<real>, first: Point, p: Point) {
    && (Rpi(root, A, b, p) >= TOL || Rdi(root, A, c, p) >= TOL)
    && Quot(Rmu(root, A, b, c, p), Rmu(root, A, b, c, first)) >= 1000000.0
  }

  predicate Stalls(mins: seq<real>) {
    |mins| > 30 && mins[|mins| - 1] >= 0.5 * mins[|mins| - 31]
  }

  /** -1 stands for going on; `mins` is phi_min up to the current iteration. */
  function Test(root: real -> real, A: Matrix, b: seq<real>, c: seq<real>, first: Point, p: Point, mins: seq<real>): (t: int)
    ensures -1 <= t <= 2
  {
    if Optimal(root, A, b, c, p) then 0
    else if mins != [] && Phi(root, A, b, c, p) >= Max(100000.0 * mins[|mins| - 1], TOL) then 1
    else if Diverges(root, A, b, c, first, p) || Stalls(mins) then 2
    else -1
  }

  // ----- what the optimality test means

  ghost predicate Feasible(A: Matrix, b: seq<real>, x: seq<real>) {
    (forall i :: 0 <= i < |b| ==> Ax(A, x, i) == b[i]) && forall j :: 0 <= j < |x| ==> x[j] >= 0.0
  }

  lemma QuotBelow(x: real, y: real, t: real)
    requires y > 0.0 && Quot(x, y) < t
    ensures x <= Times(t, y)
  {
    assert (x / y) * y == x;
    Monotone(x / y, t, y);
  }

  lemma {:induction false} DotPositive(u: seq<real>, v: seq<real>, n: nat)
    requires forall j :: 0 <= j < n ==> Val(u, j) >= 0.0 && Val(v, j) >= 0.0
    ensures DotTo(u, v, n) >= 0.0
  {
    if n != 0 {
      DotPositive(u, v, n - 1);
      ProductSign(Val(u, n - 1), Val(v, n - 1));
    }
  }

  /** c'*x = b'*y + z'*x + q'*x for every feasible x, where q = c - A'*y - z. */
  lemma ObjectiveSplit(A: Matrix, b: seq<real>, c: seq<real>, p: Point, x: seq<real>)
    requires Feasible(A, b, x) && |x| == |c| == |p.z| && |p.y| == |b|
    ensures Dot(c, x) == Dot(b, p.y) + Dot(p.z, x) + Dot(DualResidual(A, c, p.y, p.z), x)
  {
    hide Times, Ax, Aty;
    var q, n := DualResidual(A, c, p.y, p.z), |c|;
    Adjoint(A, p.y, x);
    var f, g := YAx(A, p.y, x), SAty(A, p.y, x);
    forall i | 0 <= i < |b| ensures f(i) == DotF(b, p.y)(i) {
      Commute(Val(p.y, i), Val(b, i));
    }
    SumCong(f, DotF(b, p.y), |b|);
    var h := (j: int) => g(j) + DotF(p.z, x)(j);
    SumLinear(h, g, DotF(p.z, x), 1.0, n);
    forall j | 0 <= j < n ensures DotF(c, x)(j) == h(j) + 1.0 * DotF(q, x)(j) {
      assert q[j] == c[j] - Aty(A, p.y, j) - p.z[j];
      ThreeParts(c[j], Aty(A, p.y, j), p.z[j], q[j], x[j]);
    }
    SumLinear(DotF(c, x), h, DotF(q, x), 1.0, n);
  }

  lemma Commute(x: real, y: real)
    ensures Times(x, y) == Times(y, x)
  {
  }

  lemma ThreeParts(c: real, t: real, z: real, q: real, x: real)
    requires q == c - t - z
    ensures Times(c, x) == Times(x, t) + Times(z, x) + 1.0 * Times(q, x)
  {
  }

  /** The objective at p exceeds that of a feasible point by at most the tolerances. */
  ghost predicate WithinTolerance(root: real -> real, c: seq<real>, x: seq<real>, other: seq<real>) {
    var cx := Dot(c, x);
    cx <= Dot(c, other) + 0.00000001 * (1.0 + if cx < 0.0 then -cx else cx) + 0.00000001 * (1.0 + Norm(root, c)) * Norm(root, other)
  }

  /** A point that passes the test is nearly optimal: no feasible point is cheaper by more than the tolerances. */
  lemma NearlyOptimal(root: real -> real, A: Matrix, b: seq<real>, c: seq<real>, p: Point, x: seq<real>)
    requires IsRoot(root) && Optimal(root, A, b, c, p) && Feasible(A, b, x) && |x| == |c| == |p.x| == |p.z| && |p.y| == |b| && Positive(p.z)
    ensures WithinTolerance(root, c, p.x, x)
  {
    hide Times, Dot, Norm, IsRoot, Quot, Abs;
    var q := DualResidual(A, c, p.y, p.z);
    ObjectiveSplit(A, b, c, p, x);
    ZxPositive(p.z, x);
    DotBelow(root, q, x);
    NormFacts(root, c);
    NormFacts(root, x);
    QuotBelow(Norm(root, q), 1.0 + Norm(root, c), TOL);
    AbsFacts(Dot(c, p.x) - Dot(b, p.y));
    AbsFacts(Dot(c, p.x));
    QuotBelow(Abs(Dot(c, p.x) - Dot(b, p.y)), 1.0 + Abs(Dot(c, p.x)), TOL);
    TimesMonotone(Norm(root, q), Times(TOL, 1.0 + Norm(root, c)), Norm(root, x));
    Tolerances(Dot(c, p.x), Norm(root, c), Norm(root, x));
  }

  lemma Tolerances(cx: real, f: real, g: real)
    ensures Times(TOL, 1.0 + Abs(cx)) == 0.00000001 * (1.0 + if cx < 0.0 then -cx else cx)
    ensures Times(Times(TOL, 1.0 + f), g) == 0.00000001 * (1.0 + f) * g
  {
  }

  lemma ZxPositive(z: seq<real>, x: seq<real>)
    requires |z| == |x| && Positive(z) && forall j :: 0 <= j < |x| ==> x[j] >= 0.0
    ensures Dot(z, x) >= 0.0
  {
    DotPositive(z, x, |z|);
  }

  lemma AbsFacts(x: real)
    ensures Abs(x) >= x && Abs(x) >= 0.0
  {
  }

  lemma TimesMonotone(x: real, y: real, f: real)
    requires x <= y && f >= 0.0
    ensures Times(x, f) <= Times(y, f)
  {
    Monotone(x, y, f);
  }
}
