/** The eta file of the Forrest-Tomlin factorization: H is a product of row-like factors. */
module InvEta {
  import opened Collections
  import opened Sums

  type Sparse = map<int, real>

  function At(v: Sparse, i: int): real {
    if i in v then v[i] else 0.0
  }

  /** A unit matrix except for row `row`, which has the elements f off the diagonal. */
  datatype Factor = Factor(row: int, f: Sparse)

  predicate FactorOk(g: Factor, m: nat) {
    0 <= g.row < m && g.row !in g.f && forall p <- g.f :: 0 <= p < m
  }

  predicate FileOk(hh: seq<Factor>, m: nat) {
    forall k :: 0 <= k < |hh| ==> FactorOk(hh[k], m)
  }

  function DotF(f: Sparse, x: seq<real>): int -> real {
    (p: int) => Times(At(f, p), Val(x, p))
  }

  function Dot(f: Sparse, x: seq<real>): real {
    Sum(DotF(f, x), |x|)
  }

  function Raised(x: seq<real>, i: int, d: real): seq<real>
    requires 0 <= i < |x|
  {
    x[i := x[i] + d]
  }

  /** The factor times a vector. */
  function Mul(g: Factor, x: seq<real>): (y: seq<real>)
    requires FactorOk(g, |x|)
    ensures |y| == |x|
  {
    Raised(x, g.row, Dot(g.f, x))
  }

  /** H*x, where H is the product of the factors in the order of their creation. */
  function HMul(hh: seq<Factor>, x: seq<real>): (y: seq<real>)
    requires FileOk(hh, |x|)
    ensures |y| == |x|
  {
    if hh == [] then x else HMul(hh[..|hh| - 1], Mul(hh[|hh| - 1], x))
  }

  function AddedAt(f: Sparse, y: seq<real>, c: real, p: int): real {
    Val(y, p) + Times(At(f, p), c)
  }

  function Added(y: seq<real>, f: Sparse, c: real): (z: seq<real>)
    ensures |z| == |y|
  {
    seq(|y|, (p: int) => AddedAt(f, y, c, p))
  }

  /** The transposed factor times a vector. */
  function MulT(g: Factor, y: seq<real>): (z: seq<real>)
    requires FactorOk(g, |y|)
    ensures |z| == |y|
  {
    Added(y, g.f, y[g.row])
  }

  /** H'*y */
  function HMulT(hh: seq<Factor>, y: seq<real>): (z: seq<real>)
    requires FileOk(hh, |y|)
    ensures |z| == |y|
  {
    if hh == [] then y else MulT(hh[|hh| - 1], HMulT(hh[..|hh| - 1], y))
  }

  /** The scalar product does not see component i if f has no element there. */
  lemma DotSkips(f: Sparse, x: seq<real>, i: int, d: real)
    requires 0 <= i < |x| && i !in f
    ensures Dot(f, Raised(x, i, d)) == Dot(f, x)
  {
    var y := Raised(x, i, d);
    forall p | 0 <= p < |x| ensures DotF(f, y)(p) == DotF(f, x)(p) {
      if p == i {
        assert At(f, p) == 0.0;
      }
    }
    SumCong(DotF(f, y), DotF(f, x), |x|);
  }

  lemma RaisedTwice(x: seq<real>, i: int, d: real)
    requires 0 <= i < |x|
    ensures Raised(Raised(x, i, d), i, -d) == x && Raised(Raised(x, i, -d), i, d) == x
  {
  }

  /** Solving with one factor undoes multiplying by it. */
  lemma MulInverse(g: Factor, x: seq<real>, d: real)
    requires FactorOk(g, |x|) && d == Dot(g.f, x)
    ensures Mul(g, Raised(x, g.row, -d)) == x
  {
    hide Dot, Raised;
    RaisedSize(x, g.row, -d);
    DotSkips(g.f, x, g.row, -d);
    RaisedTwice(x, g.row, d);
  }

  lemma RaisedSize(x: seq<real>, i: int, d: real)
    requires 0 <= i < |x|
    ensures |Raised(x, i, d)| == |x|
  {
  }

  lemma HMulLast(hh: seq<Factor>, g: Factor, x: seq<real>)
    requires FileOk(hh, |x|) && FactorOk(g, |x|)
    ensures FileOk(hh + [g], |x|) && HMul(hh + [g], x) == HMul(hh, Mul(g, x))
  {
    hide Mul;
    assert (hh + [g])[..|hh|] == hh;
  }

  lemma HMulTLast(hh: seq<Factor>, g: Factor, y: seq<real>)
    requires FileOk(hh, |y|) && FactorOk(g, |y|)
    ensures FileOk(hh + [g], |y|) && HMulT(hh + [g], y) == MulT(g, HMulT(hh, y))
  {
    hide MulT;
    assert (hh + [g])[..|hh|] == hh;
  }

  lemma FilePrefix(hh: seq<Factor>, m: nat, k: nat)
    requires FileOk(hh, m) && k < |hh|
    ensures FileOk(hh[..k], m) && FactorOk(hh[k], m) && hh[..k + 1] == hh[..k] + [hh[k]]
  {
    hide FactorOk;
  }

  // ----- H' is the transpose of H

  function InnerF(x: seq<real>, y: seq<real>): int -> real {
    (p: int) => Times(Val(x, p), Val(y, p))
  }

  function Inner(x: seq<real>, y: seq<real>): real {
    Sum(InnerF(x, y), |x|)
  }

  lemma InnerRaised(x: seq<real>, y: seq<real>, i: int, d: real)
    requires 0 <= i < |x| == |y|
    ensures Inner(Raised(x, i, d), y) == Inner(x, y) + Times(d, y[i])
  {
    hide Times;
    SumOne(InnerF(Raised(x, i, d), y), InnerF(x, y), |x|, i);
    TimesAdd(x[i], d, y[i]);
  }

  lemma TimesAdd(x: real, d: real, y: real)
    ensures Times(x + d, y) == Times(x, y) + Times(d, y)
  {
  }

  lemma AddedTerm(x: seq<real>, y: seq<real>, f: Sparse, c: real, p: int)
    requires 0 <= p < |x| == |y|
    ensures InnerF(x, Added(y, f, c))(p) == InnerF(x, y)(p) + c * DotF(f, x)(p)
  {
    var a, b, z := x[p], y[p], At(f, p);
    TimesSpread(a, b, z, c);
  }

  lemma TimesSpread(a: real, b: real, z: real, c: real)
    ensures Times(a, b + Times(z, c)) == Times(a, b) + c * Times(z, a)
  {
  }

  lemma InnerAdded(x: seq<real>, y: seq<real>, f: Sparse, c: real)
    requires |x| == |y|
    ensures Inner(x, Added(y, f, c)) == Inner(x, y) + c * Dot(f, x)
  {
    hide Added, InnerF, DotF;
    forall p | 0 <= p < |x|
      ensures InnerF(x, Added(y, f, c))(p) == InnerF(x, y)(p) + c * DotF(f, x)(p)
    {
      AddedTerm(x, y, f, c, p);
    }
    SumLinear(InnerF(x, Added(y, f, c)), InnerF(x, y), DotF(f, x), c, |x|);
  }

  lemma FactorAdjoint(g: Factor, x: seq<real>, y: seq<real>)
    requires FactorOk(g, |x|) && |y| == |x|
    ensures Inner(Mul(g, x), y) == Inner(x, MulT(g, y))
  {
    hide Dot, Raised, Added, Inner;
    InnerRaised(x, y, g.row, Dot(g.f, x));
    InnerAdded(x, y, g.f, y[g.row]);
  }

  lemma {:induction false} Adjoint(hh: seq<Factor>, x: seq<real>, y: seq<real>)
    requires FileOk(hh, |x|) && |y| == |x|
    ensures Inner(HMul(hh, x), y) == Inner(x, HMulT(hh, y))
  {
    hide Mul, MulT, Inner;
    if hh != [] {
      var n := |hh| - 1;
      FactorOkAt(hh, |x|, n);
      Adjoint(hh[..n], Mul(hh[n], x), y);
      FactorAdjoint(hh[n], x, HMulT(hh[..n], y));
    }
  }

  lemma FactorOkAt(hh: seq<Factor>, m: nat, k: int)
    requires FileOk(hh, m) && 0 <= k < |hh|
    ensures FactorOk(hh[k], m) && FileOk(hh[..k], m)
  {
  }

  // ----- inv_h_solve

  lemma DotStep(f: Sparse, xs: seq<real>, done: set<int>, p: int, t: real)
    requires p in f && 0 <= p < |xs| && p !in done && t == f[p] * xs[p]
    ensures SumPart(DotF(f, xs), |xs|, done + {p}) == SumPart(DotF(f, xs), |xs|, done) + t
  {
    hide SumPart;
    SumPartStep(DotF(f, xs), |xs|, done, p);
  }

  lemma DotAll(f: Sparse, xs: seq<real>)
    ensures SumPart(DotF(f, xs), |xs|, f.Keys) == Dot(f, xs)
  {
    hide SumPart;
    forall p | 0 <= p < |xs| && p !in f.Keys ensures DotF(f, xs)(p) == 0.0 {
    }
    SumPartAll(DotF(f, xs), |xs|, f.Keys);
  }

  method DotProduct(f: Sparse, x: array<real>) returns (sum: real)
    requires forall p :: p in f ==> 0 <= p < x.Length
    ensures sum == Dot(f, x[..])
  {
    hide SumPart, Dot, DotF;
    var todo := f.Keys;
    sum := 0.0;
    ghost var xs, n := x[..], x.Length;
    SumPartNone(DotF(f, xs), n);
    assert f.Keys - todo == {};
    while todo != {}
      invariant todo <= f.Keys && sum == SumPart(DotF(f, xs), n, f.Keys - todo)
      decreases |todo|
    {
      Inhabited(todo);
      var p :| p in todo;
      var t := f[p] * x[p];
      DotStep(f, xs, f.Keys - todo, p, t);
      sum := sum + t;
      assert f.Keys - todo + {p} == f.Keys - (todo - {p});
      todo := todo - {p};
    }
    assert f.Keys - {} == f.Keys;
    DotAll(f, xs);
  }

  /** x[p] -= f[p] * c over the elements of the factor */
  method SubtractFrom(x: array<real>, f: Sparse, c: real)
    requires forall p :: p in f ==> 0 <= p < x.Length
    modifies x
    ensures x[..] == Added(old(x[..]), f, -c)
  {
    hide Times;
    var todo := f.Keys;
    while todo != {}
      invariant todo <= f.Keys
      invariant forall p :: 0 <= p < x.Length ==>
                  x[p] == if p in f && p !in todo then old(x[p]) + Times(f[p], -c) else old(x[p])
      decreases |todo|
    {
      Inhabited(todo);
      var p :| p in todo;
      MinusTimes(f[p], c);
      x[p] := x[p] - f[p] * c;
      todo := todo - {p};
    }
    forall p | 0 <= p < x.Length ensures x[p] == AddedAt(f, old(x[..]), -c, p) {
      ZeroTimes(-c);
    }
  }

  lemma MinusTimes(x: real, c: real)
    ensures Times(x, -c) == -(x * c)
  {
  }

  lemma ZeroTimes(c: real)
    ensures Times(0.0, c) == 0.0 && Times(c, 0.0) == 0.0
  {
  }

  /** inv_h_solve with tr == 0: the result solves H*x = b. */
  method HSolve(hh: seq<Factor>, x: array<real>)
    requires FileOk(hh, x.Length)
    modifies x
    ensures HMul(hh, x[..]) == old(x[..])
  {
    hide HMul, Mul, Dot, FactorOk, Raised;
    ghost var b := x[..];
    var k := 0;
    HMulNone(hh[..0], b);
    while k < |hh|
      invariant 0 <= k <= |hh| && FileOk(hh[..k], x.Length) && HMul(hh[..k], x[..]) == b
    {
      FilePrefix(hh, x.Length, k);
      ghost var xs := x[..];
      SolveOne(hh[k], x);
      HMulLast(hh[..k], hh[k], x[..]);
      k := k + 1;
    }
    assert hh[..k] == hh;
  }

  method SolveOne(g: Factor, x: array<real>)
    requires FactorOk(g, x.Length)
    modifies x
    ensures Mul(g, x[..]) == old(x[..])
  {
    hide Mul, Dot;
    var d := DotProduct(g.f, x);
    ghost var xs := x[..];
    x[g.row] := x[g.row] - d;
    assert x[..] == Raised(xs, g.row, -d);
    MulInverse(g, xs, d);
  }

  lemma HMulNone(hh: seq<Factor>, x: seq<real>)
    requires hh == []
    ensures HMul(hh, x) == x && HMulT(hh, x) == x
  {
  }

  lemma MulTInverse(g: Factor, y: seq<real>, c: real)
    requires FactorOk(g, |y|) && c == y[g.row]
    ensures MulT(g, Added(y, g.f, -c)) == y
  {
    var z := Added(y, g.f, -c);
    ZeroTimes(-c);
    assert z[g.row] == c;
    forall p | 0 <= p < |y| ensures AddedAt(g.f, z, c, p) == y[p] {
      assert z[p] == AddedAt(g.f, y, -c, p);
      TimesCancel(At(g.f, p), c);
    }
  }

  lemma TimesCancel(x: real, c: real)
    ensures Times(x, -c) + Times(x, c) == 0.0
  {
  }

  method SolveOneT(g: Factor, x: array<real>)
    requires FactorOk(g, x.Length)
    modifies x
    ensures MulT(g, x[..]) == old(x[..])
  {
    hide MulT, Added;
    ghost var y := x[..];
    var temp := x[g.row];
    MulTInverse(g, y, temp);
    if temp == 0.0 {
      AddedNothing(y, g.f, -temp);
      return;
    }
    SubtractFrom(x, g.f, temp);
  }

  lemma AddedNothing(y: seq<real>, f: Sparse, c: real)
    requires c == 0.0
    ensures Added(y, f, c) == y
  {
    forall p | 0 <= p < |y| ensures Added(y, f, c)[p] == y[p] {
      ZeroTimes(At(f, p));
    }
  }

  /** inv_h_solve with tr != 0: the result solves H'*x = b. */
  method HSolveT(hh: seq<Factor>, x: array<real>)
    requires FileOk(hh, x.Length)
    modifies x
    ensures HMulT(hh, x[..]) == old(x[..])
  {
    hide HMulT, MulT, FactorOk;
    ghost var b, m := x[..], x.Length;
    var k := |hh|;
    assert hh[..k] == hh;
    while k > 0
      invariant 0 <= k <= |hh| && FileOk(hh[..k], m) && x.Length == m
      invariant forall z: seq<real> :: |z| == m && HMulT(hh[..k], z) == x[..] ==> HMulT(hh, z) == b
    {
      k := k - 1;
      ghost var y := x[..];
      FilePrefix(hh, m, k);
      SolveOneT(hh[k], x);
      ghost var w := x[..];
      forall z: seq<real> | |z| == m && HMulT(hh[..k], z) == w ensures HMulT(hh, z) == b {
        HMulTLast(hh[..k], hh[k], z);
      }
    }
    HMulNone(hh[..0], x[..]);
  }
}
