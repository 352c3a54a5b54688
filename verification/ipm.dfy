/** The primal-dual interior point method: Newtonian systems, Mehrotra's step, and what every step keeps. */
module Ipm {
  import opened Sums

  type Matrix = (int, int) -> real

  function Over(x: real, y: real): real
    requires y != 0.0
  {
    x / y
  }

  function RowF(A: Matrix, i: int, x: seq<real>): int -> real {
    (j: int) => Times(A(i, j), Val(x, j))
  }

  function ColF(A: Matrix, j: int, y: seq<real>): int -> real {
    (i: int) => Times(A(i, j), Val(y, i))
  }

  /** Component i of A*x. */
  function Ax(A: Matrix, x: seq<real>, i: int): real {
    Sum(RowF(A, i, x), |x|)
  }

  /** Component j of A'*y. */
  function Aty(A: Matrix, y: seq<real>, j: int): real {
    Sum(ColF(A, j, y), |y|)
  }

  predicate Positive(x: seq<real>) {
    forall j :: 0 <= j < |x| ==> x[j] > 0.0
  }

  // ----- linearity

  /** w = u + t*v, component by component. */
  ghost predicate Combined(w: seq<real>, u: seq<real>, v: seq<real>, t: real) {
    |w| == |u| == |v| && forall k :: 0 <= k < |w| ==> w[k] == u[k] + Times(t, v[k])
  }

  lemma TimesLinear(a: real, u: real, v: real, t: real)
    ensures Times(a, u + Times(t, v)) == Times(a, u) + t * Times(a, v)
  {
  }

  lemma AxCombined(A: Matrix, w: seq<real>, u: seq<real>, v: seq<real>, t: real, i: int)
    requires Combined(w, u, v, t)
    ensures Ax(A, w, i) == Ax(A, u, i) + t * Ax(A, v, i)
  {
    forall j | 0 <= j < |w| ensures RowF(A, i, w)(j) == RowF(A, i, u)(j) + t * RowF(A, i, v)(j) {
      TimesLinear(A(i, j), u[j], v[j], t);
    }
    SumLinear(RowF(A, i, w), RowF(A, i, u), RowF(A, i, v), t, |w|);
  }

  lemma AtyCombined(A: Matrix, w: seq<real>, u: seq<real>, v: seq<real>, t: real, j: int)
    requires Combined(w, u, v, t)
    ensures Aty(A, w, j) == Aty(A, u, j) + t * Aty(A, v, j)
  {
    forall i | 0 <= i < |w| ensures ColF(A, j, w)(i) == ColF(A, j, u)(i) + t * ColF(A, j, v)(i) {
      TimesLinear(A(i, j), u[i], v[i], t);
    }
    SumLinear(ColF(A, j, w), ColF(A, j, u), ColF(A, j, v), t, |w|);
  }

  // ----- solve_ns

  /** dy solves the normal equation system A*D*A'*dy = h. */
  ghost predicate NormalEq(A: Matrix, D: seq<real>, dy: seq<real>, h: seq<real>) {
    |dy| == |h| && forall i :: 0 <= i < |h| ==> Ax(A, Scaled(A, D, dy), i) == h[i]
  }

  /** D*A'*dy */
  function Scaled(A: Matrix, D: seq<real>, dy: seq<real>): (s: seq<real>)
    ensures |s| == |D|
  {
    seq(|D|, (j: int) => Times(Val(D, j), Aty(A, dy, j)))
  }

  /** An exact solver of the normal equation systems of a problem with m rows and n columns. */
  ghost predicate Exact(A: Matrix, solve: (seq<real>, seq<real>) -> seq<real>, m: nat, n: nat) {
    forall D, h :: |D| == n && Positive(D) && |h| == m ==> NormalEq(A, D, solve(D, h), h)
  }

  /** A*dx = p, A'*dy + dz = q, Z*dx + X*dz = r */
  ghost predicate Newton(A: Matrix, x: seq<real>, z: seq<real>, p: seq<real>, q: seq<real>, r: seq<real>,
                         dx: seq<real>, dy: seq<real>, dz: seq<real>) {
    && |dx| == |dz| == |x| == |z| == |q| == |r| && |dy| == |p|
    && (forall i :: 0 <= i < |p| ==> Ax(A, dx, i) == p[i])
    && (forall j :: 0 <= j < |x| ==> Aty(A, dy, j) + dz[j] == q[j])
    && (forall j :: 0 <= j < |x| ==> Times(z[j], dx[j]) + Times(x[j], dz[j]) == r[j])
  }

  function WorkAt(x: real, z: real, q: real, r: real): real
    requires z != 0.0
  {
    (x * q - r) / z
  }

  function DxAt(x: real, z: real, q: real, r: real, t: real): real
    requires z != 0.0
  {
    (x * (t - q) + r) / z
  }

  function DzAt(x: real, z: real, r: real, dx: real): real
    requires x != 0.0
  {
    (r - z * dx) / x
  }

  lemma DxSplit(x: real, z: real, q: real, r: real, t: real, d: real)
    requires z != 0.0 && d == x / z
    ensures DxAt(x, z, q, r, t) == Times(d, t) + Times(-1.0, WorkAt(x, z, q, r))
  {
    var w := WorkAt(x, z, q, r);
    assert w * z == x * q - r;
    assert d * z == x;
    assert (Times(d, t) - w) * z == x * (t - q) + r;
    assert (x * (t - q) + r) / z * z == x * (t - q) + r;
  }

  lemma DzSolves(x: real, z: real, q: real, r: real, t: real, dx: real, dz: real)
    requires z != 0.0 && x != 0.0 && dx == DxAt(x, z, q, r, t) && dz == DzAt(x, z, r, dx)
    ensures t + dz == q && Times(z, dx) + Times(x, dz) == r
  {
    assert dx * z == x * (t - q) + r;
    assert dz * x == r - z * dx;
    assert x * (t + dz - q) == 0.0;
  }

  /** The formulas of solve_ns solve the Newtonian system if the normal equations are solved exactly. */
  lemma NewtonSolved(A: Matrix, x: seq<real>, z: seq<real>, p: seq<real>, q: seq<real>, r: seq<real>, D: seq<real>, work: seq<real>,
                     h: seq<real>, dx: seq<real>, dy: seq<real>, dz: seq<real>)
    requires |x| == |z| == |q| == |r| == |D| == |work| == |dx| == |dz| && |p| == |h| && Positive(x) && Positive(z)
    requires forall j :: 0 <= j < |x| ==> D[j] == Over(x[j], z[j]) && work[j] == WorkAt(x[j], z[j], q[j], r[j])
    requires forall i :: 0 <= i < |p| ==> h[i] == Ax(A, work, i) + p[i]
    requires NormalEq(A, D, dy, h)
    requires forall j :: 0 <= j < |x| ==> dx[j] == DxAt(x[j], z[j], q[j], r[j], Aty(A, dy, j)) && dz[j] == DzAt(x[j], z[j], r[j], dx[j])
    ensures Newton(A, x, z, p, q, r, dx, dy, dz)
  {
    hide Ax, Aty, WorkAt, DxAt, DzAt, Times;
    forall j | 0 <= j < |x| ensures dx[j] == Scaled(A, D, dy)[j] + Times(-1.0, work[j]) {
      DxSplit(x[j], z[j], q[j], r[j], Aty(A, dy, j), D[j]);
    }
    assert Combined(dx, Scaled(A, D, dy), work, -1.0);
    forall i | 0 <= i < |p| ensures Ax(A, dx, i) == p[i] {
      AxCombined(A, dx, Scaled(A, D, dy), work, -1.0, i);
    }
    forall j | 0 <= j < |x| ensures Aty(A, dy, j) + dz[j] == q[j] && Times(z[j], dx[j]) + Times(x[j], dz[j]) == r[j] {
      DzSolves(x[j], z[j], q[j], r[j], Aty(A, dy, j), dx[j], dz[j]);
    }
  }

  // ----- residuals

  /** b - A*x */
  function Primal(A: Matrix, b: seq<real>, x: seq<real>, i: int): real {
    Val(b, i) - Ax(A, x, i)
  }

  /** c - A'*y - z */
  function Dual(A: Matrix, c: seq<real>, y: seq<real>, z: seq<real>, j: int): real {
    Val(c, j) - Aty(A, y, j) - Val(z, j)
  }

  /** A step along the combined direction multiplies the primal residual by exactly 1 - t. */
  lemma PrimalScales(A: Matrix, b: seq<real>, x: seq<real>, dx: seq<real>, t: real, x': seq<real>, i: int)
    requires Combined(x', x, dx, t) && Ax(A, dx, i) == Primal(A, b, x, i)
    ensures Primal(A, b, x', i) == (1.0 - t) * Primal(A, b, x, i)
  {
    hide Ax;
    AxCombined(A, x', x, dx, t, i);
  }

  lemma DualScales(A: Matrix, c: seq<real>, y: seq<real>, z: seq<real>, dy: seq<real>, dz: seq<real>, t: real,
                   y': seq<real>, z': seq<real>, j: int)
    requires Combined(y', y, dy, t) && Combined(z', z, dz, t) && 0 <= j < |z|
    requires Aty(A, dy, j) + dz[j] == Dual(A, c, y, z, j)
    ensures Dual(A, c, y', z', j) == (1.0 - t) * Dual(A, c, y, z, j)
  {
    hide Aty;
    AtyCombined(A, y', y, dy, t, j);
  }

  /** The residuals are f times the residuals of the starting point. */
  ghost predicate PrimalIs(A: Matrix, b: seq<real>, x0: seq<real>, x: seq<real>, f: real) {
    |x| == |x0| && forall i :: 0 <= i < |b| ==> Primal(A, b, x, i) == Times(f, Primal(A, b, x0, i))
  }

  ghost predicate DualIs(A: Matrix, c: seq<real>, y0: seq<real>, z0: seq<real>, y: seq<real>, z: seq<real>, f: real) {
    |y| == |y0| && |z| == |z0| && forall j :: 0 <= j < |z| ==> Dual(A, c, y, z, j) == Times(f, Dual(A, c, y0, z0, j))
  }

  // ----- step lengths

  /** The largest alfa in [0, 1] with x + alfa*dx >= 0, as computed by the loops over the components. */
  ghost predicate MaxStep(x: seq<real>, dx: seq<real>, alfa: real) {
    && 0.0 < alfa <= 1.0 && |x| == |dx|
    && (forall j :: 0 <= j < |x| ==> x[j] + Times(alfa, dx[j]) >= 0.0)
    && (alfa < 1.0 ==> exists j :: 0 <= j < |x| && dx[j] < 0.0 && x[j] + Times(alfa, dx[j]) == 0.0)
  }

  lemma RatioFacts(x: real, d: real, t: real)
    requires x > 0.0 && d < 0.0 && t == -x / d
    ensures t > 0.0 && x + Times(t, d) == 0.0
  {
    assert t * d == -x;
    assert t == x / -d;
  }

  lemma ShorterStep(x: real, d: real, t: real, u: real)
    requires x > 0.0 && 0.0 < u <= t && x + Times(t, d) >= 0.0
    ensures x + Times(u, d) >= 0.0
  {
    if d < 0.0 {
      assert (t - u) * d <= 0.0;
    } else {
      assert u * d >= 0.0;
    }
  }

  method StepLength(x: array<real>, dx: array<real>) returns (alfa: real)
    requires x.Length == dx.Length && Positive(x[..])
    ensures MaxStep(x[..], dx[..], alfa)
  {
    hide Times;
    alfa := 1.0;
    var j := 0;
    while j < x.Length
      invariant 0 <= j <= x.Length && 0.0 < alfa <= 1.0
      invariant forall k :: 0 <= k < j ==> x[k] + Times(alfa, dx[k]) >= 0.0
      invariant alfa < 1.0 ==> exists k :: 0 <= k < j && dx[k] < 0.0 && x[k] + Times(alfa, dx[k]) == 0.0
    {
      assert x[..][j] > 0.0;
      if dx[j] < 0.0 {
        var temp := -x[j] / dx[j];
        RatioFacts(x[j], dx[j], temp);
        if alfa > temp {
          ghost var before := alfa;
          alfa := temp;
          forall k | 0 <= k < j ensures x[k] + Times(alfa, dx[k]) >= 0.0 {
            assert x[..][k] > 0.0;
            ShorterStep(x[k], dx[k], before, alfa);
          }
        } else {
          ShorterStep(x[j], dx[j], temp, alfa);
        }
      } else {
        UpStep(x[j], dx[j], alfa);
      }
      j := j + 1;
    }
  }

  lemma UpStep(x: real, d: real, t: real)
    requires x > 0.0 && d >= 0.0 && t > 0.0
    ensures x + Times(t, d) >= 0.0
  {
    assert t * d >= 0.0;
  }

  /** Nine tenths of the maximal step stay inside the positive orthant. */
  lemma StaysPositive(x: real, d: real, alfa: real)
    requires x > 0.0 && x + Times(alfa, d) >= 0.0
    ensures x + Times(0.9 * alfa, d) > 0.0
  {
    assert 0.9 * alfa * d == 0.9 * (alfa * d);
  }

  // ----- the routines

  function Cubed(x: real): real {
    x * x * x
  }

  /** -X*Z*e */
  function AffineTarget(x: seq<real>, z: seq<real>): (r: seq<real>)
    requires |x| == |z|
    ensures |r| == |x|
  {
    seq(|x|, j requires 0 <= j < |x| => -Times(x[j], z[j]))
  }

  /** sigma*mu*e - dX*dZ*e, where sigma is the cube of the ratio of mu after and before the affine step. */
  function CenterTarget(x: seq<real>, z: seq<real>, dx: seq<real>, dz: seq<real>, sp: real, sd: real): (r: seq<real>)
    requires |x| == |z| == |dx| == |dz| && |x| >= 1 && Positive(x) && Positive(z)
    ensures |r| == |x|
  {
    MeasurePositive(x, z);
    var mu := Measure(x, z);
    var sigma := Cubed(Measure(Stepped(x, dx, sp), Stepped(z, dz, sd)) / mu);
    seq(|x|, j requires 0 <= j < |x| => Times(sigma, mu) - Times(dx[j], dz[j]))
  }

  /** The predictor and corrector directions at point p, and their sum. */
  ghost predicate Directions(A: Matrix, b: seq<real>, c: seq<real>, p: Point, aff: Point, cc: Point, dir: Point, sp: real, sd: real) {
    && |p.x| == |p.z| == |aff.x| == |aff.z| && |p.x| >= 1 && Positive(p.x) && Positive(p.z)
    && Newton(A, p.x, p.z, Residual(A, b, p.x), DualResidual(A, c, p.y, p.z), AffineTarget(p.x, p.z), aff.x, aff.y, aff.z)
    && MaxStep(p.x, aff.x, sp) && MaxStep(p.z, aff.z, sd)
    && Newton(A, p.x, p.z, Zeros(|b|), Zeros(|p.x|), CenterTarget(p.x, p.z, aff.x, aff.z, sp, sd), cc.x, cc.y, cc.z)
    && Combined(dir.x, aff.x, cc.x, 1.0) && Combined(dir.y, aff.y, cc.y, 1.0) && Combined(dir.z, aff.z, cc.z, 1.0)
  }

  /** The mean of the first n values of f. */
  function Mean(f: int -> real, n: nat): real
    requires n >= 1
  {
    Sum(f, n) / (n as real)
  }

  /** To first order the step makes all products x[j]*z[j] + aff.x[j]*aff.z[j] equal to t, and t*mu*mu is the cube of the mean product
      after the affine step, where mu is the mean product before it. */
  ghost predicate CenteredBy(p: Point, aff: Point, dir: Point, sp: real, sd: real, t: real) {
    var n := |p.x|;
    && n >= 1 && |p.z| == |aff.x| == |aff.z| == |dir.x| == |dir.z| == n
    && (forall j :: 0 <= j < n ==> p.z[j] * dir.x[j] + p.x[j] * dir.z[j] + p.x[j] * p.z[j] + aff.x[j] * aff.z[j] == t)
    && var mu := Mean((j: int) => Val(p.x, j) * Val(p.z, j), n);
       var after := Mean((j: int) => (Val(p.x, j) + sp * Val(aff.x, j)) * (Val(p.z, j) + sd * Val(aff.z, j)), n);
       mu > 0.0 && t * mu * mu == after * after * after
  }

  ghost predicate Centered(p: Point, aff: Point, dir: Point, sp: real, sd: real) {
    exists t :: CenteredBy(p, aff, dir, sp, sd, t)
  }

  /** sigma*mu */
  ghost function CenterValue(p: Point, aff: Point, sp: real, sd: real): real
    requires |p.x| == |p.z| == |aff.x| == |aff.z| && |p.x| >= 1 && Positive(p.x) && Positive(p.z)
  {
    MeasurePositive(p.x, p.z);
    Times(Cubed(Measure(Stepped(p.x, aff.x, sp), Stepped(p.z, aff.z, sd)) / Measure(p.x, p.z)), Measure(p.x, p.z))
  }

  lemma DirectionsSizes(A: Matrix, b: seq<real>, c: seq<real>, p: Point, aff: Point, cc: Point, dir: Point, sp: real, sd: real)
    requires Directions(A, b, c, p, aff, cc, dir, sp, sd)
    ensures |p.x| == |p.z| == |aff.x| == |aff.z| == |dir.x| == |dir.z| && |p.x| >= 1 && Positive(p.x) && Positive(p.z)
  {
    hide Newton, MaxStep, Residual, DualResidual, AffineTarget, CenterTarget;
  }

  lemma OneProduct(A: Matrix, b: seq<real>, c: seq<real>, p: Point, aff: Point, cc: Point, dir: Point, sp: real, sd: real, j: int)
    requires Directions(A, b, c, p, aff, cc, dir, sp, sd) && 0 <= j < |p.x| == |p.z| == |aff.x| == |aff.z| == |dir.x| == |dir.z|
    requires |p.x| >= 1 && Positive(p.x) && Positive(p.z)
    ensures p.z[j] * dir.x[j] + p.x[j] * dir.z[j] + p.x[j] * p.z[j] + aff.x[j] * aff.z[j] == CenterValue(p, aff, sp, sd)
  {
    hide Ax, Aty, MaxStep, Residual, DualResidual, Cubed, Measure, Times, Stepped;
    SumOfTargets(p.x[j], p.z[j], aff.x[j], cc.x[j], dir.x[j], aff.z[j], cc.z[j], dir.z[j], CenterValue(p, aff, sp, sd));
  }

  lemma DirectionsCentered(A: Matrix, b: seq<real>, c: seq<real>, p: Point, aff: Point, cc: Point, dir: Point, sp: real, sd: real)
    requires Directions(A, b, c, p, aff, cc, dir, sp, sd)
    ensures Centered(p, aff, dir, sp, sd)
  {
    hide Directions, Measure, Cubed, Stepped, Times, Mean;
    DirectionsSizes(A, b, c, p, aff, cc, dir, sp, sd);
    var t := CenterValue(p, aff, sp, sd);
    forall j | 0 <= j < |p.x| ensures p.z[j] * dir.x[j] + p.x[j] * dir.z[j] + p.x[j] * p.z[j] + aff.x[j] * aff.z[j] == t {
      OneProduct(A, b, c, p, aff, cc, dir, sp, sd, j);
    }
    MeanBefore(p.x, p.z);
    MeanAfter(p.x, p.z, aff.x, aff.z, sp, sd);
    MeasurePositive(p.x, p.z);
    CubeTimes(Measure(Stepped(p.x, aff.x, sp), Stepped(p.z, aff.z, sd)), Measure(p.x, p.z), t);
    assert CenteredBy(p, aff, dir, sp, sd, t);
  }

  lemma SumOfTargets(x: real, z: real, ax: real, cx: real, dx: real, az: real, cz: real, dz: real, t: real)
    requires Times(z, ax) + Times(x, az) == -Times(x, z) && Times(z, cx) + Times(x, cz) == t - Times(ax, az)
    requires dx == ax + Times(1.0, cx) && dz == az + Times(1.0, cz)
    ensures z * dx + x * dz + x * z + ax * az == t
  {
  }

  lemma MeanBefore(x: seq<real>, z: seq<real>)
    requires |x| == |z| >= 1
    ensures Mean((j: int) => Val(x, j) * Val(z, j), |x|) == Measure(x, z)
  {
    SumCong((j: int) => Val(x, j) * Val(z, j), MeasureF(x, z), |x|);
  }

  lemma MeanAfter(x: seq<real>, z: seq<real>, dx: seq<real>, dz: seq<real>, sp: real, sd: real)
    requires |x| == |z| == |dx| == |dz| >= 1
    ensures Mean((j: int) => (Val(x, j) + sp * Val(dx, j)) * (Val(z, j) + sd * Val(dz, j)), |x|) == Measure(Stepped(x, dx, sp), Stepped(z, dz, sd))
  {
    var f, g := (j: int) => (Val(x, j) + sp * Val(dx, j)) * (Val(z, j) + sd * Val(dz, j)), MeasureF(Stepped(x, dx, sp), Stepped(z, dz, sd));
    forall j | 0 <= j < |x| ensures f(j) == g(j) {
      assert g(j) == Times(x[j] + Times(sp, dx[j]), z[j] + Times(sd, dz[j]));
    }
    SumCong(f, g, |x|);
  }

  lemma CubeTimes(after: real, mu: real, t: real)
    requires mu > 0.0 && t == Times(Cubed(after / mu), mu)
    ensures t * mu * mu == after * after * after
  {
    var r := after / mu;
    assert r * mu == after;
    assert t * mu * mu == (r * mu) * (r * mu) * (r * mu);
  }

  lemma NineTenths(alfa: real)
    ensures Gamma(alfa) == 0.9 * alfa && Shrink(alfa) == 1.0 - 0.9 * alfa
  {
  }

  /** The directions and step lengths of one step. */
  datatype Step = Step(aff: Point, cc: Point, dir: Point, sp: real, sd: real, ap: real, ad: real)

  ghost predicate StepBy(A: Matrix, b: seq<real>, c: seq<real>, p: Point, q: Point, t: Step) {
    && Directions(A, b, c, p, t.aff, t.cc, t.dir, t.sp, t.sd)
    && MaxStep(p.x, t.dir.x, t.ap) && MaxStep(p.z, t.dir.z, t.ad)
    && Combined(q.x, p.x, t.dir.x, 0.9 * t.ap) && Combined(q.y, p.y, t.dir.y, 0.9 * t.ad) && Combined(q.z, p.z, t.dir.z, 0.9 * t.ad)
    && Centered(p, t.aff, t.dir, t.sp, t.sd)
  }

  class Solver {
    const m: nat
    const n: nat
    const A: Matrix
    const b: seq<real>
    const c: seq<real>
    const solve: (seq<real>, seq<real>) -> seq<real>
    const x: array<real>
    const y: array<real>
    const z: array<real>

    ghost predicate Shape()
    {
      && n >= 1 && |b| == m && |c| == n && x.Length == z.Length == n && y.Length == m && x != y && x != z && y != z
      && Exact(A, solve, m, n)
    }

    ghost predicate Valid()
      reads x, y, z
    {
      Shape() && Positive(x[..]) && Positive(z[..])
    }

    /** initialize: the vectors of the current point are given. */
    constructor (A: Matrix, b: seq<real>, c: seq<real>, x: array<real>, y: array<real>, z: array<real>,
                 solve: (seq<real>, seq<real>) -> seq<real>)
      requires |c| >= 1 && x.Length == z.Length == |c| && y.Length == |b| && x != y && x != z && y != z && Exact(A, solve, |b|, |c|)
      ensures Shape() && this.A == A && this.b == b && this.c == c && this.x == x && this.y == y && this.z == z
      ensures m == |b| && n == |c|
    {
      this.m, this.n, this.A, this.b, this.c, this.solve := |b|, |c|, A, b, c, solve;
      this.x, this.y, this.z := x, y, z;
    }

    /** solve_ns */
    method SolveNs(p: array<real>, q: array<real>, r: array<real>, dx: array<real>, dy: array<real>, dz: array<real>)
      requires Valid() && p.Length == dy.Length == m && q.Length == r.Length == dx.Length == dz.Length == n
      requires dx != dy && dx != dz && dy != dz && dx !in {p, q, r, x, y, z} && dy !in {p, q, r, x, y, z} && dz !in {p, q, r, x, y, z}
      modifies dx, dy, dz
      ensures Newton(A, x[..], z[..], p[..], q[..], r[..], dx[..], dy[..], dz[..])
    {
      hide Ax, Aty, NormalEq, Newton, WorkAt, DxAt, DzAt, Over;
      var xs, zs, ps, qs, rs := x[..], z[..], p[..], q[..], r[..];
      var D := seq(n, j requires 0 <= j < n => Over(xs[j], zs[j]));
      OverPositive(xs, zs, D);
      var work := seq(n, j requires 0 <= j < n => WorkAt(xs[j], zs[j], qs[j], rs[j]));
      Assign(dx, work);
      var h := seq(m, i requires 0 <= i < m => Ax(A, work, i) + ps[i]);
      var t := solve(D, h);
      NormalSize(A, D, t, h);
      Assign(dy, t);
      var u := seq(n, j requires 0 <= j < n => DxAt(xs[j], zs[j], qs[j], rs[j], Aty(A, t, j)));
      Assign(dx, u);
      var v := seq(n, j requires 0 <= j < n => DzAt(xs[j], zs[j], rs[j], u[j]));
      Assign(dz, v);
      NewtonSolved(A, xs, zs, ps, qs, rs, D, work, h, u, t, v);
    }

    /** The affine scaling direction: A*dx = b - A*x, A'*dy + dz = c - A'*y - z, Z*dx + X*dz = -X*Z*e. */
    method Predictor() returns (dx: array<real>, dy: array<real>, dz: array<real>)
      requires Valid()
      ensures fresh(dx) && fresh(dy) && fresh(dz) && dx != dz && dx != dy && dy != dz
      ensures dx.Length == dz.Length == n && dy.Length == m
      ensures Newton(A, x[..], z[..], Residual(A, b, x[..]), DualResidual(A, c, y[..], z[..]), AffineTarget(x[..], z[..]), dx[..], dy[..], dz[..])
    {
      hide Ax, Aty, Newton, Primal, Dual, Times, Residual, DualResidual;
      var xs, ys, zs := x[..], y[..], z[..];
      var p, q, r := new real[m](_ => 0.0), new real[n](_ => 0.0), new real[n](_ => 0.0);
      dx, dy, dz := new real[n](_ => 0.0), new real[m](_ => 0.0), new real[n](_ => 0.0);
      Assign(p, Residual(A, b, xs));
      Assign(q, DualResidual(A, c, ys, zs));
      Assign(r, AffineTarget(xs, zs));
      SolveNs(p, q, r, dx, dy, dz);
    }

    /** The centering corrector direction: A*dx = 0, A'*dy + dz = 0, Z*dx + X*dz = sigma*mu*e - dX*dZ*e. */
    method Corrector(ax: array<real>, az: array<real>)
      returns (dx: array<real>, dy: array<real>, dz: array<real>, ghost sp: real, ghost sd: real)
      requires Valid() && ax.Length == az.Length == n
      ensures fresh(dx) && fresh(dy) && fresh(dz) && dx != dz && dx != dy && dy != dz
      ensures dx.Length == dz.Length == n && dy.Length == m
      ensures MaxStep(x[..], ax[..], sp) && MaxStep(z[..], az[..], sd)
      ensures Newton(A, x[..], z[..], Zeros(m), Zeros(n), CenterTarget(x[..], z[..], ax[..], az[..], sp, sd), dx[..], dy[..], dz[..])
    {
      hide Ax, Aty, Newton, Primal, Dual, Times, MaxStep, CenterTarget;
      var xs, zs, ds, es := x[..], z[..], ax[..], az[..];
      var ap := StepLength(x, ax);
      var ad := StepLength(z, az);
      sp, sd := ap, ad;
      var p, q, r := new real[m](_ => 0.0), new real[n](_ => 0.0), new real[n](_ => 0.0);
      dx, dy, dz := new real[n](_ => 0.0), new real[m](_ => 0.0), new real[n](_ => 0.0);
      Assign(p, Zeros(m));
      Assign(q, Zeros(n));
      Assign(r, CenterTarget(xs, zs, ds, es, ap, ad));
      SolveNs(p, q, r, dx, dy, dz);
    }

    /** make_step: both residuals are multiplied by exactly 1 - 0.9*alfa_max, and x and z stay positive. */
    method MakeStep() returns (ap: real, ad: real, ghost t: Step)
      requires Valid()
      modifies x, y, z
      ensures Valid() && 0.0 < ap <= 1.0 && 0.0 < ad <= 1.0
      ensures PrimalIs(A, b, old(x[..]), x[..], 1.0 - 0.9 * ap)
      ensures DualIs(A, c, old(y[..]), old(z[..]), y[..], z[..], 1.0 - 0.9 * ad)
      ensures StepBy(A, b, c, old(Point(x[..], y[..], z[..])), Point(x[..], y[..], z[..]), t) && t.ap == ap && t.ad == ad
    {
      hide Times, MaxStep, Targets, Residual, DualResidual, Zeros, Combined, PrimalIs, DualIs, Shrink, Gamma, Newton, CenterTarget, AffineTarget, Centered;
      ghost var xs, ys, zs := x[..], y[..], z[..];
      var dx, dy, dz := Predictor();
      ghost var u, v, w := dx[..], dy[..], dz[..];
      NewtonTargets(A, xs, zs, Residual(A, b, xs), DualResidual(A, c, ys, zs), AffineTarget(xs, zs), u, v, w);
      var cx, cy, cz, sp, sd := Corrector(dx, dz);
      NewtonTargets(A, xs, zs, Zeros(m), Zeros(n), CenterTarget(xs, zs, u, w, sp, sd), cx[..], cy[..], cz[..]);
      AddTo(dx, cx);
      AddTo(dy, cy);
      AddTo(dz, cz);
      TargetsAdd(A, b, c, xs, ys, zs, u, v, w, cx[..], cy[..], cz[..], dx[..], dy[..], dz[..]);
      ghost var aff, cc, dir := Point(u, v, w), Point(cx[..], cy[..], cz[..]), Point(dx[..], dy[..], dz[..]);
      assert Directions(A, b, c, Point(xs, ys, zs), aff, cc, dir, sp, sd);
      DirectionsCentered(A, b, c, Point(xs, ys, zs), aff, cc, dir, sp, sd);
      ap := StepLength(x, dx);
      ad := StepLength(z, dz);
      t := Step(aff, cc, dir, sp, sd, ap, ad);
      NineTenths(ap);
      NineTenths(ad);
      StepInside(xs, dx[..], ap);
      StepInside(zs, dz[..], ad);
      Move(x, dx, Gamma(ap));
      Move(y, dy, Gamma(ad));
      Move(z, dz, Gamma(ad));
      MovedPositive(xs, dx[..], ap, x[..]);
      MovedPositive(zs, dz[..], ad, z[..]);
      StepResiduals(A, b, c, xs, ys, zs, dx[..], dy[..], dz[..], ap, ad, x[..], y[..], z[..]);
    }

    /** initial_point; the check that the result is positive never fails. */
    method InitialPoint() returns (ghost w: Start)
      requires Shape()
      modifies x, y, z
      ensures Valid() && StartBy(A, b, c, Point(x[..], y[..], z[..]), w)
    {
      hide Ax, Aty, NormalEq, Exact, Positive, Transposed, Minus, FirstShifted, Shifted, PairSum, ShiftSum;
      var ones := seq(n, _ => 1.0);
      OnesPositive(ones);
      var t := Solve(ones, b);
      Assign(x, Transposed(A, t, n));
      LeastSquares(A, ones, t, b);
      var h := seq(m, i => Ax(A, c, i));
      var u := Solve(ones, h);
      Assign(y, u);
      Assign(z, Minus(c, Transposed(A, u, n)));
      LeastSquares(A, ones, u, h);
      Orthogonal(A, c, u, h);
      ghost var xs, zs := x[..], z[..];
      var dp := FirstShift(x[..]);
      var dd := FirstShift(z[..]);
      var xz, ex, ez := ShiftSums(x[..], z[..], dp, dd);
      HalfRatio(dp, xz, ez);
      HalfRatio(dd, xz, ex);
      ShiftAll(x, dp, dp + 0.5 * (xz / ez));
      ShiftAll(z, dd, dd + 0.5 * (xz / ex));
      w := Start(t, dp, dd, dp + 0.5 * (xz / ez), dd + 0.5 * (xz / ex));
    }

    method Solve(D: seq<real>, h: seq<real>) returns (t: seq<real>)
      requires Exact(A, solve, m, n) && |D| == n && Positive(D) && |h| == m
      ensures |t| == m && NormalEq(A, D, t, h)
    {
      hide NormalEq;
      t := solve(D, h);
      NormalSize(A, D, t, h);
    }
  }

  /** A'*y */
  function Transposed(A: Matrix, y: seq<real>, n: nat): (s: seq<real>)
    ensures |s| == n
  {
    seq(n, (j: int) => Aty(A, y, j))
  }

  function Minus(c: seq<real>, s: seq<real>): (d: seq<real>)
    requires |s| == |c|
    ensures |d| == |c|
  {
    seq(|c|, j requires 0 <= j < |c| => c[j] - s[j])
  }

  lemma LeastSquares(A: Matrix, ones: seq<real>, t: seq<real>, h: seq<real>)
    requires (forall j :: 0 <= j < |ones| ==> ones[j] == 1.0) && NormalEq(A, ones, t, h)
    ensures forall i :: 0 <= i < |h| ==> Ax(A, Transposed(A, t, |ones|), i) == h[i]
  {
    hide Ax, Aty;
    assert Transposed(A, t, |ones|) == Scaled(A, ones, t);
  }

  lemma Orthogonal(A: Matrix, c: seq<real>, u: seq<real>, h: seq<real>)
    requires forall i :: 0 <= i < |h| ==> h[i] == Ax(A, c, i) && Ax(A, Transposed(A, u, |c|), i) == h[i]
    ensures forall i :: 0 <= i < |h| ==> Ax(A, Minus(c, Transposed(A, u, |c|)), i) == 0.0
  {
    hide Ax, Aty;
    var s := Transposed(A, u, |c|);
    forall i | 0 <= i < |h| ensures Ax(A, Minus(c, s), i) == 0.0 {
      AxCombined(A, Minus(c, s), c, s, -1.0, i);
    }
  }

  lemma OnesPositive(s: seq<real>)
    requires forall j :: 0 <= j < |s| ==> s[j] == 1.0
    ensures Positive(s)
  {
  }

  // ----- Mehrotra's starting point

  /** The first shift: 1.5 times the deepest negative component, or 1.5 if there is none. */
  ghost predicate FirstShifted(x: seq<real>, dp: real) {
    if forall j :: 0 <= j < |x| ==> x[j] >= 0.0 then dp == 1.5
    else (forall j :: 0 <= j < |x| ==> dp >= -1.5 * x[j]) && exists j :: 0 <= j < |x| && dp == -1.5 * x[j]
  }

  function ShiftF(x: seq<real>, d: real): int -> real {
    (j: int) => Val(x, j) + d
  }

  /** e'*(x + d*e) */
  function ShiftSum(x: seq<real>, d: real, n: nat): real {
    Sum(ShiftF(x, d), n)
  }

  function PairF(x: seq<real>, z: seq<real>, dp: real, dd: real): int -> real {
    (j: int) => Times(Val(x, j) + dp, Val(z, j) + dd)
  }

  /** (x + dp*e)'*(z + dd*e) */
  function PairSum(x: seq<real>, z: seq<real>, dp: real, dd: real, n: nat): real {
    Sum(PairF(x, z, dp, dd), n)
  }

  ghost predicate Shifted(a: seq<real>, b: seq<real>, d: real) {
    |a| == |b| && forall j :: 0 <= j < |a| ==> b[j] == a[j] + d
  }

  /** How the starting point is made: inv(A*A')*b, the first and the final shifts of x and z. */
  datatype Start = Start(t: seq<real>, dp: real, dd: real, dp0: real, dd0: real)

  /** x~ = A'*inv(A*A')*b solves A*x = b, z~ = c - A'*y is in the null space of A; both are shifted by the first shift and by half the
      ratio of (x~ + dp*e)'*(z~ + dd*e) to the sum of the components of the other vector. */
  ghost predicate StartBy(A: Matrix, b: seq<real>, c: seq<real>, p: Point, w: Start) {
    && |w.t| == |b|
    && var n := |c|;
       var xt, zt := Transposed(A, w.t, n), Minus(c, Transposed(A, p.y, n));
       && (forall i :: 0 <= i < |b| ==> Ax(A, xt, i) == b[i] && Ax(A, zt, i) == 0.0)
       && FirstShifted(xt, w.dp) && FirstShifted(zt, w.dd) && ShiftSum(xt, w.dp, n) > 0.0 && ShiftSum(zt, w.dd, n) > 0.0
       && Times(2.0 * (w.dp0 - w.dp), ShiftSum(zt, w.dd, n)) == PairSum(xt, zt, w.dp, w.dd, n)
       && Times(2.0 * (w.dd0 - w.dd), ShiftSum(xt, w.dp, n)) == PairSum(xt, zt, w.dp, w.dd, n)
       && Shifted(xt, p.x, w.dp0) && Shifted(zt, p.z, w.dd0)
  }

  ghost predicate IsStart(A: Matrix, b: seq<real>, c: seq<real>, p: Point) {
    exists w :: StartBy(A, b, c, p, w)
  }

  lemma HalfRatio(d: real, xz: real, e: real)
    requires xz > 0.0 && e > 0.0
    ensures Times(2.0 * (d + 0.5 * (xz / e) - d), e) == xz && 0.5 * (xz / e) > 0.0
  {
    var t := xz / e;
    assert t * e == xz;
    assert t > 0.0;
  }

  method FirstShift(x: seq<real>) returns (dp: real)
    ensures FirstShifted(x, dp) && dp > 0.0 && forall j :: 0 <= j < |x| ==> x[j] + dp > 0.0
  {
    dp := 0.0;
    var j := 0;
    while j < |x|
      invariant 0 <= j <= |x| && dp >= 0.0 && (forall k :: 0 <= k < j ==> dp >= -1.5 * x[k])
      invariant dp > 0.0 ==> exists k :: 0 <= k < j && dp == -1.5 * x[k]
    {
      if dp < -1.5 * x[j] {
        dp := -1.5 * x[j];
      }
      j := j + 1;
    }
    if dp == 0.0 {
      dp := 1.5;
    }
  }

  method ShiftSums(x: seq<real>, z: seq<real>, dp: real, dd: real) returns (xz: real, ex: real, ez: real)
    requires |x| == |z| >= 1
    requires (forall j :: 0 <= j < |x| ==> x[j] + dp > 0.0) && forall j :: 0 <= j < |z| ==> z[j] + dd > 0.0
    ensures xz > 0.0 && ex > 0.0 && ez > 0.0
    ensures xz == PairSum(x, z, dp, dd, |x|) && ex == ShiftSum(x, dp, |x|) && ez == ShiftSum(z, dd, |x|)
  {
    hide Times;
    xz, ex, ez := 0.0, 0.0, 0.0;
    var j := 0;
    while j < |x|
      invariant 0 <= j <= |x| && xz >= 0.0 && ex >= 0.0 && ez >= 0.0 && (j >= 1 ==> xz > 0.0 && ex > 0.0 && ez > 0.0)
      invariant xz == PairSum(x, z, dp, dd, j) && ex == ShiftSum(x, dp, j) && ez == ShiftSum(z, dd, j)
    {
      ProductPositive(x[j] + dp, z[j] + dd);
      ex := ex + (x[j] + dp);
      ez := ez + (z[j] + dd);
      xz := xz + Times(x[j] + dp, z[j] + dd);
      j := j + 1;
    }
  }

  method ShiftAll(a: array<real>, d: real, e: real)
    requires (forall j :: 0 <= j < a.Length ==> a[j] + d > 0.0) && e >= d
    modifies a
    ensures Positive(a[..]) && Shifted(old(a[..]), a[..], e)
  {
    var j := 0;
    while j < a.Length
      invariant 0 <= j <= a.Length
      invariant forall k :: 0 <= k < j ==> a[k] == old(a[k]) + e
      invariant forall k :: j <= k < a.Length ==> a[k] == old(a[k])
    {
      a[j] := a[j] + e;
      j := j + 1;
    }
  }

  // ----- the main loop

  const ITER_MAX := 100

  datatype Point = Point(x: seq<real>, y: seq<real>, z: seq<real>)

  /** Positive, with residuals that are fp and fd times those of the starting point. */
  ghost predicate Reached(A: Matrix, b: seq<real>, c: seq<real>, start: Point, p: Point, fp: real, fd: real) {
    && Positive(p.x) && Positive(p.z) && 0.0 < fp <= 1.0 && 0.0 < fd <= 1.0
    && PrimalIs(A, b, start.x, p.x, fp) && DualIs(A, c, start.y, start.z, p.y, p.z, fd)
  }

  /** Infeasibility never grew on the way from the starting point. */
  ghost predicate Within(A: Matrix, b: seq<real>, c: seq<real>, start: Point, p: Point) {
    exists fp, fd :: Reached(A, b, c, start, p, fp, fd)
  }

  ghost predicate Sized(b: seq<real>, c: seq<real>, p: Point) {
    |p.x| == |p.z| == |c| && |p.y| == |b|
  }

  /** No point of the run is less feasible than the first one, and all are positive. */
  ghost predicate AllWithin(A: Matrix, b: seq<real>, c: seq<real>, path: seq<Point>) {
    path != [] && forall k :: 0 <= k < |path| ==> Sized(b, c, path[k]) && Within(A, b, c, path[0], path[k])
  }

  lemma AllWithinStart(A: Matrix, b: seq<real>, c: seq<real>, p: Point)
    requires Sized(b, c, p) && Within(A, b, c, p, p)
    ensures AllWithin(A, b, c, [p])
  {
    hide Within;
  }

  lemma AllWithinExtend(A: Matrix, b: seq<real>, c: seq<real>, path: seq<Point>, p: Point)
    requires AllWithin(A, b, c, path) && Sized(b, c, p) && Within(A, b, c, path[0], p)
    ensures AllWithin(A, b, c, path + [p])
  {
    hide Within;
    var q := path + [p];
    forall k | 0 <= k < |q| ensures Sized(b, c, q[k]) && Within(A, b, c, q[0], q[k]) {
      assert q[k] == if k < |path| then path[k] else p;
    }
  }

  lemma StartReached(A: Matrix, b: seq<real>, c: seq<real>, p: Point)
    requires Positive(p.x) && Positive(p.z)
    ensures Within(A, b, c, p, p)
  {
    hide Primal, Dual;
    assert Reached(A, b, c, p, p, 1.0, 1.0);
  }

  lemma ShrinkProduct(f: real, ap: real, g: real)
    requires 0.0 < f <= 1.0 && 0.0 < ap <= 1.0
    ensures 0.0 < Times(Shrink(ap), f) <= 1.0 && Times(Shrink(ap), Times(f, g)) == Times(Times(Shrink(ap), f), g)
  {
    hide Shrink;
    ShrinkRange(ap);
    UnitProduct(Shrink(ap), f);
  }

  lemma UnitProduct(k: real, f: real)
    requires 0.0 < k < 1.0 && 0.0 < f <= 1.0
    ensures 0.0 < Times(k, f) <= 1.0
  {
    assert 0.0 < k * f;
    assert k * (1.0 - f) >= 0.0;
  }

  /** One more step: the factors are multiplied by 1 - 0.9*alfa. */
  lemma StepReached(A: Matrix, b: seq<real>, c: seq<real>, start: Point, p: Point, q: Point, ap: real, ad: real)
    requires Within(A, b, c, start, p) && Positive(q.x) && Positive(q.z) && 0.0 < ap <= 1.0 && 0.0 < ad <= 1.0
    requires PrimalIs(A, b, p.x, q.x, Shrink(ap)) && DualIs(A, c, p.y, p.z, q.y, q.z, Shrink(ad))
    ensures Within(A, b, c, start, q)
  {
    hide Primal, Dual, Times, Shrink;
    var fp, fd :| Reached(A, b, c, start, p, fp, fd);
    ShrinkProduct(fp, ap, 0.0);
    ShrinkProduct(fd, ad, 0.0);
    var gp, gd := Times(Shrink(ap), fp), Times(Shrink(ad), fd);
    forall i | 0 <= i < |b| ensures Primal(A, b, q.x, i) == Times(gp, Primal(A, b, start.x, i)) {
      ShrinkProduct(fp, ap, Primal(A, b, start.x, i));
    }
    forall j | 0 <= j < |q.z| ensures Dual(A, c, q.y, q.z, j) == Times(gd, Dual(A, c, start.y, start.z, j)) {
      ShrinkProduct(fd, ad, Dual(A, c, start.y, start.z, j));
    }
    assert Reached(A, b, c, start, q, gp, gd);
  }

  ghost predicate IsStep(A: Matrix, b: seq<real>, c: seq<real>, p: Point, q: Point) {
    exists t :: StepBy(A, b, c, p, q, t)
  }

  /** The least merit of the first k points. */
  function Least(merit: Point -> real, path: seq<Point>, k: nat): real
    requires 1 <= k <= |path|
  {
    var phi := merit(path[k - 1]);
    if k == 1 then phi else var least := Least(merit, path, k - 1); if least > phi then phi else least
  }

  lemma {:induction false} LeastFrame(merit: Point -> real, path: seq<Point>, p: Point, k: nat)
    requires 1 <= k <= |path|
    ensures Least(merit, path + [p], k) == Least(merit, path, k)
  {
    if k > 1 {
      LeastFrame(merit, path, p, k - 1);
    }
  }

  lemma {:induction false} LeastIsLeast(merit: Point -> real, path: seq<Point>, k: nat, i: nat)
    requires i < k <= |path|
    ensures Least(merit, path, k) <= merit(path[i])
  {
    if i < k - 1 {
      LeastIsLeast(merit, path, k - 1, i);
    }
  }

  /** phi_min: the least merit after each of the first k points. */
  function Mins(merit: Point -> real, path: seq<Point>, k: nat): (s: seq<real>)
    requires 1 <= k <= |path|
    ensures |s| == k
  {
    (if k == 1 then [] else Mins(merit, path, k - 1)) + [Least(merit, path, k)]
  }

  lemma {:induction false} MinsFrame(merit: Point -> real, path: seq<Point>, p: Point, k: nat)
    requires 1 <= k <= |path|
    ensures Mins(merit, path + [p], k) == Mins(merit, path, k)
  {
    LeastFrame(merit, path, p, k);
    if k > 1 {
      MinsFrame(merit, path, p, k - 1);
    }
  }

  /** Point k is one step from the one before, after which the tests let the run go on. */
  ghost predicate StepAt(A: Matrix, b: seq<real>, c: seq<real>, merit: Point -> real, stop: (Point, Point, seq<real>) -> int,
                         path: seq<Point>, k: int)
    requires 0 < k < |path|
  {
    IsStep(A, b, c, path[k - 1], path[k]) && stop(path[0], path[k - 1], Mins(merit, path, k)) == -1
  }

  ghost predicate PathOk(A: Matrix, b: seq<real>, c: seq<real>, merit: Point -> real, stop: (Point, Point, seq<real>) -> int, path: seq<Point>) {
    path != [] && forall k :: 0 < k < |path| ==> StepAt(A, b, c, merit, stop, path, k)
  }

  lemma StepAtFrame(A: Matrix, b: seq<real>, c: seq<real>, merit: Point -> real, stop: (Point, Point, seq<real>) -> int,
                    path: seq<Point>, p: Point, k: int)
    requires 0 < k < |path| && StepAt(A, b, c, merit, stop, path, k)
    ensures StepAt(A, b, c, merit, stop, path + [p], k)
  {
    hide IsStep, Mins;
    MinsFrame(merit, path, p, k);
  }

  lemma LastStep(A: Matrix, b: seq<real>, c: seq<real>, merit: Point -> real, stop: (Point, Point, seq<real>) -> int, path: seq<Point>, p: Point)
    requires path != [] && IsStep(A, b, c, path[|path| - 1], p) && stop(path[0], path[|path| - 1], Mins(merit, path, |path|)) == -1
    ensures StepAt(A, b, c, merit, stop, path + [p], |path|)
  {
    hide IsStep, Mins;
    MinsFrame(merit, path, p, |path|);
  }

  lemma NextMin(merit: Point -> real, path: seq<Point>, p: Point)
    requires path != []
    ensures var least := if Least(merit, path, |path|) > merit(p) then merit(p) else Least(merit, path, |path|);
            Least(merit, path + [p], |path| + 1) == least && Mins(merit, path + [p], |path| + 1) == Mins(merit, path, |path|) + [least]
  {
    LeastFrame(merit, path, p, |path|);
    MinsFrame(merit, path, p, |path|);
  }

  lemma PathExtend(A: Matrix, b: seq<real>, c: seq<real>, merit: Point -> real, stop: (Point, Point, seq<real>) -> int, path: seq<Point>, p: Point)
    requires PathOk(A, b, c, merit, stop, path) && IsStep(A, b, c, path[|path| - 1], p)
    requires stop(path[0], path[|path| - 1], Mins(merit, path, |path|)) == -1
    ensures PathOk(A, b, c, merit, stop, path + [p])
  {
    hide IsStep, Mins, StepAt;
    forall k | 0 < k < |path + [p]| ensures StepAt(A, b, c, merit, stop, path + [p], k) {
      if k < |path| {
        StepAtFrame(A, b, c, merit, stop, path, p, k);
      } else {
        LastStep(A, b, c, merit, stop, path, p);
      }
    }
  }

  /** The main loop of ipm1: the merit function and the stopping tests are parameters; the tests see the first point, the current one and the
      array phi_min. Every point visited is one Mehrotra step from the one
      before; the point returned is positive and no less feasible than the starting point; unless the run stopped as
      optimal, it has the least merit of all points visited. */
  method Iterate(s: Solver, merit: Point -> real, stop: (Point, Point, seq<real>) -> int) returns (status: int, ghost path: seq<Point>)
    requires s.Shape() && forall k, p, r :: -1 <= stop(k, p, r) <= 2
    modifies s.x, s.y, s.z
    ensures s.Valid() && PathOk(s.A, s.b, s.c, merit, stop, path) && 1 <= |path| <= 101 && IsStart(s.A, s.b, s.c, path[0])
    ensures AllWithin(s.A, s.b, s.c, path) && Within(s.A, s.b, s.c, path[0], Point(s.x[..], s.y[..], s.z[..]))
    ensures var st := stop(path[0], path[|path| - 1], Mins(merit, path, |path|));
            if st != -1 then status == st else status == 3 && |path| == 101
    ensures var p := Point(s.x[..], s.y[..], s.z[..]);
            if status == 0 then p == path[|path| - 1] else p in path && forall k :: 0 <= k < |path| ==> merit(p) <= merit(path[k])
  {
    hide Within, PrimalIs, DualIs, Exact, Positive, Shrink, StepBy, PathOk, Least, Mins, StartBy, AllWithin;
    ghost var w := s.InitialPoint();
    var p := Point(s.x[..], s.y[..], s.z[..]);
    path := [p];
    StartReached(s.A, s.b, s.c, p);
    PathStart(s.A, s.b, s.c, merit, stop, p);
    AllWithinStart(s.A, s.b, s.c, p);
    var iter := 0;
    var first, best, phiMin := p, p, [merit(p)];
    while true
      invariant 0 <= iter <= ITER_MAX && |path| == iter + 1 && s.Valid() && p == Point(s.x[..], s.y[..], s.z[..]) && path[iter] == p && path[0] == first
      invariant IsStart(s.A, s.b, s.c, first) && Within(s.A, s.b, s.c, path[0], p) && Within(s.A, s.b, s.c, path[0], best)
      invariant Positive(best.x) && Positive(best.z) && |best.x| == |best.z| == s.n && |best.y| == s.m
      invariant PathOk(s.A, s.b, s.c, merit, stop, path) && AllWithin(s.A, s.b, s.c, path) && best in path
      invariant phiMin == Mins(merit, path, |path|) && |phiMin| == iter + 1 && phiMin[iter] == merit(best) == Least(merit, path, |path|)
      decreases ITER_MAX - iter
    {
      status := stop(first, p, phiMin);
      if status == -1 && iter == ITER_MAX {
        status := 3;
        break;
      }
      if status != -1 {
        break;
      }
      iter := iter + 1;
      ghost var before := p;
      var ap, ad, t := s.MakeStep();
      p := Point(s.x[..], s.y[..], s.z[..]);
      assert IsStep(s.A, s.b, s.c, before, p);
      NineTenths(ap);
      NineTenths(ad);
      StepReached(s.A, s.b, s.c, path[0], before, p, ap, ad);
      PathExtend(s.A, s.b, s.c, merit, stop, path, p);
      NextMin(merit, path, p);
      AllWithinExtend(s.A, s.b, s.c, path, p);
      path := path + [p];
      var phi := merit(p);
      if phiMin[iter - 1] > phi {
        best, phiMin := p, phiMin + [phi];
      } else {
        phiMin := phiMin + [phiMin[iter - 1]];
      }
    }
    if status != 0 {
      forall k | 0 <= k < |path| ensures merit(best) <= merit(path[k]) {
        LeastIsLeast(merit, path, |path|, k);
      }
      Assign(s.x, best.x);
      Assign(s.y, best.y);
      Assign(s.z, best.z);
      assert Point(s.x[..], s.y[..], s.z[..]) == best;
    }
  }

  lemma PathStart(A: Matrix, b: seq<real>, c: seq<real>, merit: Point -> real, stop: (Point, Point, seq<real>) -> int, p: Point)
    ensures PathOk(A, b, c, merit, stop, [p]) && Least(merit, [p], 1) == merit(p) && Mins(merit, [p], 1) == [merit(p)]
  {
  }

  /** The step actually taken: gamma times the maximal step. */
  function Gamma(alfa: real): real {
    0.9 * alfa
  }

  /** The factor by which a step shrinks the residual. */
  function Shrink(alfa: real): real {
    1.0 - 0.9 * alfa
  }

  lemma ShrinkRange(alfa: real)
    requires 0.0 < alfa <= 1.0
    ensures 0.1 <= Shrink(alfa) < 1.0
  {
  }

  function Residual(A: Matrix, b: seq<real>, x: seq<real>): (p: seq<real>)
    ensures |p| == |b|
  {
    seq(|b|, (i: int) => Primal(A, b, x, i))
  }

  function DualResidual(A: Matrix, c: seq<real>, y: seq<real>, z: seq<real>): (q: seq<real>)
    ensures |q| == |z|
  {
    seq(|z|, (j: int) => Dual(A, c, y, z, j))
  }

  function Zeros(k: nat): (s: seq<real>)
    ensures |s| == k
  {
    seq(k, _ => 0.0)
  }

  /** A*dx = p and A'*dy + dz = q */
  ghost predicate Targets(A: Matrix, p: seq<real>, q: seq<real>, dx: seq<real>, dy: seq<real>, dz: seq<real>) {
    && |dx| == |dz| == |q| && |dy| == |p|
    && (forall i :: 0 <= i < |p| ==> Ax(A, dx, i) == p[i])
    && (forall j :: 0 <= j < |q| ==> Aty(A, dy, j) + dz[j] == q[j])
  }

  lemma NewtonTargets(A: Matrix, x: seq<real>, z: seq<real>, p: seq<real>, q: seq<real>, r: seq<real>,
                      dx: seq<real>, dy: seq<real>, dz: seq<real>)
    requires Newton(A, x, z, p, q, r, dx, dy, dz)
    ensures Targets(A, p, q, dx, dy, dz)
  {
    hide Ax, Aty;
  }

  /** The combined direction aims at the residuals of the current point. */
  lemma TargetsAdd(A: Matrix, b: seq<real>, c: seq<real>, x: seq<real>, y: seq<real>, z: seq<real>,
                   ax: seq<real>, ay: seq<real>, az: seq<real>, cx: seq<real>, cy: seq<real>, cz: seq<real>,
                   dx: seq<real>, dy: seq<real>, dz: seq<real>)
    requires Targets(A, Residual(A, b, x), DualResidual(A, c, y, z), ax, ay, az) && Targets(A, Zeros(|b|), Zeros(|z|), cx, cy, cz)
    requires Combined(dx, ax, cx, 1.0) && Combined(dy, ay, cy, 1.0) && Combined(dz, az, cz, 1.0)
    ensures Targets(A, Residual(A, b, x), DualResidual(A, c, y, z), dx, dy, dz)
  {
    hide Ax, Aty, Primal, Dual;
    forall i | 0 <= i < |b| ensures Ax(A, dx, i) == Residual(A, b, x)[i] {
      AxCombined(A, dx, ax, cx, 1.0, i);
      assert Ax(A, cx, i) == Zeros(|b|)[i];
    }
    forall j | 0 <= j < |z| ensures Aty(A, dy, j) + dz[j] == DualResidual(A, c, y, z)[j] {
      AtyCombined(A, dy, ay, cy, 1.0, j);
      CombinedAt(dz, az, cz, j);
      assert Aty(A, cy, j) + cz[j] == Zeros(|z|)[j];
    }
  }

  lemma StepResiduals(A: Matrix, b: seq<real>, c: seq<real>, x: seq<real>, y: seq<real>, z: seq<real>,
                      dx: seq<real>, dy: seq<real>, dz: seq<real>, ap: real, ad: real, x': seq<real>, y': seq<real>, z': seq<real>)
    requires Targets(A, Residual(A, b, x), DualResidual(A, c, y, z), dx, dy, dz)
    requires Combined(x', x, dx, Gamma(ap)) && Combined(y', y, dy, Gamma(ad)) && Combined(z', z, dz, Gamma(ad))
    ensures PrimalIs(A, b, x, x', Shrink(ap)) && DualIs(A, c, y, z, y', z', Shrink(ad))
  {
    hide Ax, Aty, Primal, Dual, Combined;
    CombinedSizes(x', x, dx, Gamma(ap));
    CombinedSizes(y', y, dy, Gamma(ad));
    CombinedSizes(z', z, dz, Gamma(ad));
    forall i | 0 <= i < |b| ensures Primal(A, b, x', i) == Times(Shrink(ap), Primal(A, b, x, i)) {
      assert Ax(A, dx, i) == Residual(A, b, x)[i];
      PrimalScales(A, b, x, dx, Gamma(ap), x', i);
    }
    forall j | 0 <= j < |z| ensures Dual(A, c, y', z', j) == Times(Shrink(ad), Dual(A, c, y, z, j)) {
      assert Aty(A, dy, j) + dz[j] == DualResidual(A, c, y, z)[j];
      DualScales(A, c, y, z, dy, dz, Gamma(ad), y', z', j);
    }
  }

  lemma CombinedSizes(w: seq<real>, u: seq<real>, v: seq<real>, t: real)
    requires Combined(w, u, v, t)
    ensures |w| == |u| == |v|
  {
  }

  function Stepped(x: seq<real>, d: seq<real>, t: real): (s: seq<real>)
    requires |x| == |d|
    ensures |s| == |x|
  {
    seq(|x|, j requires 0 <= j < |x| => x[j] + Times(t, d[j]))
  }

  function MeasureF(x: seq<real>, z: seq<real>): int -> real {
    (j: int) => Times(Val(x, j), Val(z, j))
  }

  /** mu = x'*z / n */
  function Measure(x: seq<real>, z: seq<real>): real
    requires |x| >= 1
  {
    Sum(MeasureF(x, z), |x|) / (|x| as real)
  }

  lemma {:induction false} SumPositive(f: int -> real, n: nat)
    requires n >= 1 && forall k :: 0 <= k < n ==> f(k) > 0.0
    ensures Sum(f, n) > 0.0
  {
    if n > 1 {
      SumPositive(f, n - 1);
    } else {
      assert Sum(f, 0) == 0.0;
    }
  }

  lemma MeasurePositive(x: seq<real>, z: seq<real>)
    requires |x| == |z| >= 1 && Positive(x) && Positive(z)
    ensures Measure(x, z) > 0.0
  {
    forall j | 0 <= j < |x| ensures MeasureF(x, z)(j) > 0.0 {
      ProductPositive(x[j], z[j]);
    }
    SumPositive(MeasureF(x, z), |x|);
    QuotientPositive(Sum(MeasureF(x, z), |x|), |x| as real);
  }

  lemma ProductPositive(x: real, z: real)
    requires x > 0.0 && z > 0.0
    ensures Times(x, z) > 0.0
  {
  }

  lemma CombinedAt(w: seq<real>, u: seq<real>, v: seq<real>, j: int)
    requires Combined(w, u, v, 1.0) && 0 <= j < |w|
    ensures w[j] == u[j] + v[j]
  {
  }

  /** a := a + d */
  method AddTo(a: array<real>, d: array<real>)
    requires a != d && a.Length == d.Length
    modifies a
    ensures Combined(a[..], old(a[..]), d[..], 1.0)
  {
    var k := 0;
    while k < a.Length
      invariant 0 <= k <= a.Length
      invariant forall i :: 0 <= i < k ==> a[i] == old(a[i]) + d[i]
      invariant forall i :: k <= i < a.Length ==> a[i] == old(a[i])
    {
      a[k] := a[k] + d[k];
      k := k + 1;
    }
    forall i | 0 <= i < a.Length ensures a[i] == old(a[i]) + Times(1.0, d[i]) {
    }
  }

  /** a := a + t*d */
  method Move(a: array<real>, d: array<real>, t: real)
    requires a != d && a.Length == d.Length
    modifies a
    ensures Combined(a[..], old(a[..]), d[..], t)
  {
    hide Times;
    var k := 0;
    while k < a.Length
      invariant 0 <= k <= a.Length
      invariant forall i :: 0 <= i < k ==> a[i] == old(a[i]) + Times(t, d[i])
      invariant forall i :: k <= i < a.Length ==> a[i] == old(a[i])
    {
      a[k] := a[k] + Times(t, d[k]);
      k := k + 1;
    }
  }

  lemma StepInside(x: seq<real>, d: seq<real>, alfa: real)
    requires MaxStep(x, d, alfa)
    ensures 0.0 < alfa <= 1.0
  {
  }

  lemma MovedPositive(x: seq<real>, d: seq<real>, alfa: real, x': seq<real>)
    requires MaxStep(x, d, alfa) && Positive(x) && Combined(x', x, d, Gamma(alfa))
    ensures Positive(x')
  {
    hide Times;
    forall j | 0 <= j < |x'| ensures x'[j] > 0.0 {
      StaysPositive(x[j], d[j], alfa);
    }
  }

  lemma OverPositive(x: seq<real>, z: seq<real>, D: seq<real>)
    requires |x| == |z| == |D| && Positive(x) && Positive(z) && forall j :: 0 <= j < |x| ==> D[j] == Over(x[j], z[j])
    ensures Positive(D)
  {
    forall j | 0 <= j < |D| ensures D[j] > 0.0 {
      QuotientPositive(x[j], z[j]);
    }
  }

  lemma QuotientPositive(x: real, z: real)
    requires x > 0.0 && z > 0.0
    ensures Over(x, z) > 0.0
  {
  }

  lemma NormalSize(A: Matrix, D: seq<real>, dy: seq<real>, h: seq<real>)
    requires NormalEq(A, D, dy, h)
    ensures |dy| == |h|
  {
  }
}
