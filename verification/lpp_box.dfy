/** Linear functions over a box of ranges, which may be infinite: which values they take. */
module LpBox {
  import opened Sums
  import opened LpModel

  type Coefs = int -> real

  type Ranges = int -> Range

  ghost predicate Proper(rng: Ranges, n: nat) {
    forall j :: 0 <= j < n ==> rng(j).Ordered()
  }

  ghost predicate Inside(rng: Ranges, n: nat, x: seq<real>) {
    |x| == n && forall j :: 0 <= j < n ==> rng(j).Holds(x[j])
  }

  function TermF(k: Coefs, x: seq<real>): int -> real {
    (j: int) => Times(k(j), Val(x, j))
  }

  function Linear(k: Coefs, x: seq<real>, n: nat): real {
    Sum(TermF(k, x), n)
  }

  /** The end of the range at which k*x is least, or greatest when `up`. */
  function BestEnd(k: real, r: Range, up: bool): Bound {
    if (k > 0.0) != up then r.lb else r.ub
  }

  function EndTerm(k: real, r: Range, up: bool): real {
    var b := BestEnd(k, r, up);
    if k != 0.0 && b.Fin? then Times(k, b.v) else 0.0
  }

  function EndTermF(k: Coefs, rng: Ranges, up: bool): int -> real {
    (j: int) => EndTerm(k(j), rng(j), up)
  }

  ghost predicate Bounded(k: Coefs, rng: Ranges, n: nat, up: bool) {
    forall j :: 0 <= j < n && k(j) != 0.0 ==> BestEnd(k(j), rng(j), up).Fin?
  }

  /** Some value in a range. */
  function SomeValue(r: Range): (v: real)
    ensures r.Ordered() ==> r.Holds(v)
  {
    if r.lb.Fin? then r.lb.v else if r.ub.Fin? then r.ub.v else 0.0
  }

  /** A value in the range that gives the extreme term, if that is finite. */
  function Corner(k: real, r: Range, up: bool): (v: real)
    ensures r.Ordered() ==> r.Holds(v)
    ensures k != 0.0 && BestEnd(k, r, up).Fin? ==> Times(k, v) == EndTerm(k, r, up)
    ensures k == 0.0 ==> Times(k, v) == EndTerm(k, r, up)
  {
    var b := BestEnd(k, r, up);
    if k != 0.0 && b.Fin? then b.v else SomeValue(r)
  }

  ghost function CornerPoint(k: Coefs, rng: Ranges, n: nat, up: bool): (x: seq<real>)
    ensures |x| == n && forall j :: 0 <= j < n ==> x[j] == Corner(k(j), rng(j), up)
  {
    seq(n, (j: int) => Corner(k(j), rng(j), up))
  }

  /** The extreme value is taken. */
  lemma CornerTaken(k: Coefs, rng: Ranges, n: nat, up: bool)
    requires Proper(rng, n) && Bounded(k, rng, n, up)
    ensures Inside(rng, n, CornerPoint(k, rng, n, up)) && Linear(k, CornerPoint(k, rng, n, up), n) == Sum(EndTermF(k, rng, up), n)
  {
    hide Times, EndTerm, BestEnd;
    var x := CornerPoint(k, rng, n, up);
    forall j | 0 <= j < n ensures TermF(k, x)(j) == EndTermF(k, rng, up)(j) {
      assert x[j] == Corner(k(j), rng(j), up);
    }
    SumCong(TermF(k, x), EndTermF(k, rng, up), n);
  }

  lemma Ordered(k: real, x: real, y: real)
    requires k >= 0.0 && x <= y
    ensures k * x <= k * y
  {
    var d := y - x;
    Unsigned(k, d);
    assert k * d == k * y - k * x;
  }

  lemma Unsigned(k: real, d: real)
    requires k >= 0.0 && d >= 0.0
    ensures k * d >= 0.0
  {
  }

  lemma LinearSet(k: Coefs, x: seq<real>, n: nat, q: int, v: real)
    requires 0 <= q < n == |x|
    ensures Linear(k, x[q := v], n) == Linear(k, x, n) + Times(k(q), v - x[q])
  {
    hide Times;
    var y := x[q := v];
    forall j | 0 <= j < n && j != q ensures TermF(k, y)(j) == TermF(k, x)(j) {
      assert Val(y, j) == Val(x, j);
    }
    SumOne(TermF(k, y), TermF(k, x), n, q);
    Difference(k(q), v, x[q]);
  }

  lemma Difference(k: real, v: real, x: real)
    ensures Times(k, v) - Times(k, x) == Times(k, v - x)
  {
  }

  /** An unbounded direction reaches every target. */
  lemma FarPoint(k: Coefs, rng: Ranges, n: nat, up: bool, q: int, t: real) returns (x: seq<real>)
    requires Proper(rng, n) && 0 <= q < n && k(q) != 0.0 && BestEnd(k(q), rng(q), up).Inf?
    ensures Inside(rng, n, x) && if up then Linear(k, x, n) >= t else Linear(k, x, n) <= t
  {
    hide Times;
    var y := seq(n, (j: int) => SomeValue(rng(j)));
    forall j | 0 <= j < n ensures rng(j).Holds(y[j]) {
    }
    var c := Linear(k, y, n);
    if (if up then c >= t else c <= t) {
      x := y;
    } else {
      var v := y[q] + (t - c) / k(q);
      x := y[q := v];
      LinearSet(k, y, n, q, v);
      Moved(k(q), rng(q), y[q], t - c, up);
    }
  }

  lemma Moved(k: real, r: Range, y: real, d: real, up: bool)
    requires k != 0.0 && BestEnd(k, r, up).Inf? && r.Holds(y) && if up then d > 0.0 else d < 0.0
    ensures r.Holds(y + d / k) && Times(k, y + d / k - y) == d
  {
    var e := d / k;
    assert k * e == d;
    if k > 0.0 && e < 0.0 {
      Ordered(k, e, 0.0);
    } else if k > 0.0 {
      Ordered(k, 0.0, e);
    } else if e < 0.0 {
      Ordered(-k, e, 0.0);
    } else {
      Ordered(-k, 0.0, e);
    }
  }

  /** Values on one side of t are taken exactly if the extreme value is infinite or lies on that side. */
  lemma Reaches(k: Coefs, rng: Ranges, n: nat, up: bool, t: real) returns (x: seq<real>)
    requires Proper(rng, n) && (Bounded(k, rng, n, up) ==> if up then Sum(EndTermF(k, rng, up), n) >= t else Sum(EndTermF(k, rng, up), n) <= t)
    ensures Inside(rng, n, x) && if up then Linear(k, x, n) >= t else Linear(k, x, n) <= t
  {
    hide Linear, EndTermF;
    if Bounded(k, rng, n, up) {
      x := CornerPoint(k, rng, n, up);
      CornerTaken(k, rng, n, up);
    } else {
      var q :| 0 <= q < n && k(q) != 0.0 && BestEnd(k(q), rng(q), up).Inf?;
      x := FarPoint(k, rng, n, up, q, t);
    }
  }

  // ----- convexity

  ghost function Mix(x: seq<real>, y: seq<real>, h: real): (z: seq<real>)
    requires |x| == |y|
    ensures |z| == |x| && forall j :: 0 <= j < |x| ==> z[j] == x[j] + Times(h, y[j] - x[j])
  {
    seq(|x|, j requires 0 <= j < |x| => x[j] + Times(h, y[j] - x[j]))
  }

  lemma MixInside(rng: Ranges, n: nat, x: seq<real>, y: seq<real>, h: real)
    requires Inside(rng, n, x) && Inside(rng, n, y) && 0.0 <= h <= 1.0
    ensures Inside(rng, n, Mix(x, y, h))
  {
    hide Times;
    forall j | 0 <= j < n ensures rng(j).Holds(Mix(x, y, h)[j]) {
      MixBetween(x[j], y[j], h);
    }
  }

  lemma MixBetween(x: real, y: real, h: real)
    requires 0.0 <= h <= 1.0
    ensures var z := x + Times(h, y - x); if x <= y then x <= z <= y else y <= z <= x
  {
    if x <= y {
      Portion(y - x, h);
    } else {
      Portion(x - y, h);
      Opposite(h, x - y);
    }
  }

  lemma Portion(d: real, h: real)
    requires d >= 0.0 && 0.0 <= h <= 1.0
    ensures 0.0 <= Times(h, d) <= d
  {
    Ordered(d, 0.0, h);
    Ordered(d, h, 1.0);
    assert d * 1.0 == d && d * 0.0 == 0.0;
  }

  lemma Opposite(h: real, d: real)
    ensures Times(h, -d) == -Times(h, d)
  {
  }

  lemma {:induction false} SumMix(f: int -> real, g: int -> real, e: int -> real, h: real, n: nat)
    requires forall j :: 0 <= j < n ==> f(j) == g(j) + Times(h, e(j) - g(j))
    ensures Sum(f, n) == Sum(g, n) + Times(h, Sum(e, n) - Sum(g, n))
  {
    hide Times;
    if n == 0 {
      MixNothing(h);
    } else {
      SumMix(f, g, e, h, n - 1);
      MixAdd(h, Sum(e, n - 1) - Sum(g, n - 1), e(n - 1) - g(n - 1));
    }
  }

  lemma MixNothing(h: real)
    ensures Times(h, 0.0 - 0.0) == 0.0
  {
  }

  lemma MixAdd(h: real, x: real, y: real)
    ensures Times(h, x) + Times(h, y) == Times(h, x + y)
  {
  }

  lemma MixAt(k: Coefs, x: seq<real>, y: seq<real>, h: real, j: int)
    requires |x| == |y| && 0 <= j < |x|
    ensures TermF(k, Mix(x, y, h))(j) == TermF(k, x)(j) + Times(h, TermF(k, y)(j) - TermF(k, x)(j))
  {
    hide Times;
    MixTerm(k(j), x[j], y[j], h);
  }

  lemma MixTerm(k: real, x: real, y: real, h: real)
    ensures Times(k, x + Times(h, y - x)) == Times(k, x) + Times(h, Times(k, y) - Times(k, x))
  {
  }

  lemma MixLinear(k: Coefs, n: nat, x: seq<real>, y: seq<real>, h: real)
    requires |x| == |y| == n
    ensures Linear(k, Mix(x, y, h), n) == Linear(k, x, n) + Times(h, Linear(k, y, n) - Linear(k, x, n))
  {
    hide TermF, Mix, Times;
    forall j | 0 <= j < n ensures TermF(k, Mix(x, y, h))(j) == TermF(k, x)(j) + Times(h, TermF(k, y)(j) - TermF(k, x)(j)) {
      MixAt(k, x, y, h, j);
    }
    SumMix(TermF(k, Mix(x, y, h)), TermF(k, x), TermF(k, y), h, n);
  }

  /** Between two values every value is taken. */
  lemma Intermediate(k: Coefs, rng: Ranges, n: nat, x: seq<real>, y: seq<real>, t: real) returns (z: seq<real>)
    requires Inside(rng, n, x) && Inside(rng, n, y) && Linear(k, x, n) <= t <= Linear(k, y, n)
    ensures Inside(rng, n, z) && Linear(k, z, n) == t
  {
    hide Linear, Times;
    var a, b := Linear(k, x, n), Linear(k, y, n);
    if a == b {
      z := x;
    } else {
      var h := (t - a) / (b - a);
      Share(a, b, t);
      z := Mix(x, y, h);
      MixInside(rng, n, x, y, h);
      MixLinear(k, n, x, y, h);
    }
  }

  lemma Share(a: real, b: real, t: real)
    requires a <= t <= b && a != b
    ensures var h := (t - a) / (b - a); 0.0 <= h <= 1.0 && a + Times(h, b - a) == t
  {
    var d := b - a;
    var h := (t - a) / d;
    assert h * d == t - a;
    FactorSign(h, d);
    FactorSign(1.0 - h, d);
    assert (1.0 - h) * d == d - h * d;
  }

  lemma FactorSign(h: real, d: real)
    requires d > 0.0
    ensures h * d >= 0.0 ==> h >= 0.0
  {
    if h < 0.0 {
      Strict(-h, d);
    }
  }

  lemma Strict(x: real, y: real)
    requires x > 0.0 && y > 0.0
    ensures x * y > 0.0
  {
  }
}
