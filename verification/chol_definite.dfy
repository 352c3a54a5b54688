/** Which matrices the numeric phase factorizes: what is left on the diagonals of a positive definite matrix is positive. */
module CholDefinite {
  import opened Sums
  import opened CholSymb
  import opened CholNumb
  import Q = Quadratic

  /** The symmetric matrix given by its upper triangle. */
  function Whole(a: seq<Row>): Q.Mat {
    (i: int, j: int) => if 0 <= i < |a| && 0 <= j < |a| then Symmetric(a, i, j) else 0.0
  }

  ghost predicate PositiveDefinite(a: seq<Row>) {
    Q.Definite(Whole(a), |a|)
  }

  /** What elimination leaves on the diagonal of row k. */
  function Left(a: seq<Row>, u: seq<Row>, k: nat): real
    requires k < |a|
  {
    At(a[k], k) - Product(u, k, k, k)
  }

  /** How far rows 0..k-1 of U'*U are from A: only on the diagonals, by what was added to the replaced pivots. */
  function Added(a: seq<Row>, u: seq<Row>, i: int): real
    requires 0 <= i < |a|
  {
    Product(u, i, i, i + 1) - At(a[i], i)
  }

  /** U is upper triangular with non-zero diagonal. */
  ghost predicate Triangle(u: seq<Row>) {
    (forall r, j :: 0 <= j < r < |u| ==> At(u[r], j) == 0.0) && forall r :: 0 <= r < |u| ==> At(u[r], r) != 0.0
  }

  // ----- the triangle

  function LineF(u: seq<Row>, r: int, z: Q.Vec): Q.Vec {
    (j: int) => if 0 <= r < |u| then Times(At(u[r], j), z(j)) else 0.0
  }

  /** Component r of U*z, from the first n components of z. */
  function Line(u: seq<Row>, r: int, z: Q.Vec, n: nat): real {
    Sum(LineF(u, r, z), n)
  }

  /** Rows q..k-1 of U annihilate the first n components of z. */
  ghost predicate Annihilates(u: seq<Row>, z: Q.Vec, q: int, k: int, n: nat) {
    forall r :: q <= r < k ==> Line(u, r, z, n) == 0.0
  }

  lemma LinePut(u: seq<Row>, r: int, z: Q.Vec, n: nat, q: nat, t: real)
    requires q < n && 0 <= r < |u|
    ensures Line(u, r, Q.Put(z, q, t), n) == Line(u, r, z, n) + Times(At(u[r], q), t) - Times(At(u[r], q), z(q))
  {
    hide Times, At;
    SumOne(LineF(u, r, Q.Put(z, q, t)), LineF(u, r, z), n, q);
  }

  /** Back substitution: a vector with last component one that rows q..k-1 of U annihilate. */
  lemma {:induction false} Annihilated(u: seq<Row>, k: nat, q: nat) returns (z: Q.Vec)
    requires Triangle(u) && q <= k < |u|
    ensures z(k) == 1.0 && Annihilates(u, z, q, k, k + 1)
    decreases k - q
  {
    hide Line, At, Times;
    if q == k {
      z := (j: int) => 1.0;
    } else {
      var n := k + 1;
      var y := Annihilated(u, k, q + 1);
      var p := At(u[q], q);
      var t := y(q) - Line(u, q, y, n) / p;
      z := Q.Put(y, q, t);
      forall r | q <= r < k ensures Line(u, r, z, n) == 0.0 {
        LinePut(u, r, y, n, q, t);
        if r > q {
          assert At(u[r], q) == 0.0;
          ZeroProducts(t, y(q));
        } else {
          Cancelled(p, y(q), Line(u, q, y, n));
        }
      }
    }
  }

  lemma ZeroProducts(x: real, y: real)
    ensures Times(0.0, x) == 0.0 && Times(0.0, y) == 0.0 && Times(x, 0.0) == 0.0 && Times(y, 0.0) == 0.0
  {
  }

  lemma Cancelled(p: real, y: real, s: real)
    requires p != 0.0
    ensures s + Times(p, y - s / p) - Times(p, y) == 0.0
  {
    assert p * (s / p) == s;
  }

  // ----- products with U'*U

  function GramF(u: seq<Row>, i: int, z: Q.Vec, n: nat): Q.Vec {
    (r: int) => if 0 <= r < |u| then Times(At(u[r], i), Line(u, r, z, n)) else 0.0
  }

  function GramRowF(u: seq<Row>, i: int, z: Q.Vec, k: nat): Q.Vec {
    (j: int) => Times(Product(u, i, j, k), z(j))
  }

  lemma Reordered(a: real, b: real, z: real)
    ensures Times(Times(a, b), z) == Times(a, Times(b, z)) && Times(Times(a, b), z) == Times(z, Times(a, b)) && Times(a, z) == Times(z, a)
  {
  }

  /** Row i of (U'*U)*z, with the first k rows of U, is row i of U'*(U*z). */
  lemma GramRow(u: seq<Row>, i: int, z: Q.Vec, k: nat, n: nat)
    requires k <= |u|
    ensures Sum(GramRowF(u, i, z, k), n) == Sum(GramF(u, i, z, n), k)
  {
    hide Times, At;
    var a := (j: int, r: int) => Times(ProdF(u, i, j)(r), z(j));
    var t, g := GramRowF(u, i, z, k), GramF(u, i, z, n);
    forall j | 0 <= j < n ensures t(j) == Sum((r: int) => a(j, r), k) {
      forall r ensures a(j, r) == Times(z(j), ProdF(u, i, j)(r)) {
        Reordered(ProdF(u, i, j)(r), 0.0, z(j));
      }
      SumScaled((r: int) => a(j, r), ProdF(u, i, j), z(j), k);
      Reordered(Product(u, i, j, k), 0.0, z(j));
    }
    forall r | 0 <= r < k ensures g(r) == Sum((j: int) => a(j, r), n) {
      forall j ensures a(j, r) == Times(At(u[r], i), LineF(u, r, z)(j)) {
        assert ProdF(u, i, j)(r) == Times(At(u[r], i), At(u[r], j));
        Reordered(At(u[r], i), At(u[r], j), z(j));
      }
      SumScaled((j: int) => a(j, r), LineF(u, r, z), At(u[r], i), n);
    }
    SumExchange(a, t, g, n, k);
  }

  // ----- the pivot of a positive definite matrix

  lemma {:induction false} Tail(u: seq<Row>, i: nat, j: int, r: nat)
    requires Triangle(u) && i < r <= |u|
    ensures Product(u, i, j, r) == Product(u, i, j, i + 1)
  {
    if r > i + 1 {
      Tail(u, i, j, r - 1);
      assert At(u[r - 1], i) == 0.0;
      ZeroTimes(At(u[r - 1], j));
    }
  }

  /** Rows 0..k-1 of U are those that the routine computes. */
  ghost predicate Computed(a: seq<Row>, u: seq<Row>, k: nat) {
    |u| == |a| && k <= |a| && Triangle(u) && forall i :: 0 <= i < k ==> RowDone(a, u, i, true)
  }

  /** What U'*U, with the first k rows, exceeds A by on the diagonal. */
  function Gap(a: seq<Row>, u: seq<Row>, k: nat, i: int): real
    requires k < |a|
  {
    if 0 <= i < k then Added(a, u, i) else -Left(a, u, k)
  }

  lemma Element(a: seq<Row>, u: seq<Row>, k: nat, i: int, j: int)
    requires Computed(a, u, k) && k < |a| && 0 <= i <= k && 0 <= j <= k
    ensures Whole(a)(i, j) == Product(u, i, j, k) - if i == j then Gap(a, u, k, i) else 0.0
  {
    hide Product, At, Triangle;
    var lo, hi := if i <= j then i else j, if i <= j then j else i;
    ProductSwap(u, i, j, k);
    if lo < k {
      Tail(u, lo, hi, k);
      assert RowDone(a, u, lo, true);
    }
  }

  lemma Split(x: real, g: real, z: real)
    ensures Times(x - g, z) == Times(x, z) - Times(g, z) && Times(x - 0.0, z) == Times(x, z)
  {
  }

  lemma RowOfForm(a: seq<Row>, u: seq<Row>, k: nat, z: Q.Vec, i: int)
    requires Computed(a, u, k) && k < |a| && 0 <= i <= k && Annihilates(u, z, 0, k, k + 1)
    ensures Q.RowSum(Whole(a), i, z, k + 1) == -Times(Gap(a, u, k, i), z(i))
  {
    hide Times, Product, Computed, Gap, Line, Whole;
    var f, g := Q.TermF(Whole(a), i, z), GramRowF(u, i, z, k);
    forall j | 0 <= j < k + 1 ensures f(j) == g(j) - if i == j then Times(Gap(a, u, k, i), z(i)) else 0.0 {
      Element(a, u, k, i, j);
      Split(Product(u, i, j, k), Gap(a, u, k, i), z(j));
    }
    SumOne(f, g, k + 1, i);
    ComputedSize(a, u, k);
    GramRow(u, i, z, k, k + 1);
    var h := GramF(u, i, z, k + 1);
    forall r | 0 <= r < k ensures h(r) == 0.0 {
      ZeroTimes(At(u[r], i));
    }
    SumZero(h, k);
  }

  lemma ComputedSize(a: seq<Row>, u: seq<Row>, k: nat)
    requires Computed(a, u, k)
    ensures |u| == |a| && k <= |u|
  {
  }

  lemma Square(g: real, z: real)
    requires g >= 0.0
    ensures Times(z, -Times(g, z)) <= 0.0
  {
    assert z * z >= 0.0;
    assert g * (z * z) >= 0.0;
  }

  lemma FormBelowLeft(a: seq<Row>, u: seq<Row>, k: nat, z: Q.Vec)
    requires Computed(a, u, k) && k < |a| && z(k) == 1.0 && Annihilates(u, z, 0, k, k + 1)
    requires forall i :: 0 <= i < k ==> Added(a, u, i) >= 0.0
    ensures Q.Form(Whole(a), z, k + 1) <= Left(a, u, k)
  {
    hide Computed, Annihilates, Q.RowSum, Whole, Left, Added;
    var f := Q.FormF(Whole(a), z, k + 1);
    var zero := (_: int) => 0.0;
    forall i | 0 <= i < k ensures f(i) <= 0.0 {
      RowOfForm(a, u, k, z, i);
      Square(Added(a, u, i), z(i));
    }
    SumLe(f, zero, k);
    SumZero(zero, k);
    RowOfForm(a, u, k, z, k);
  }

  /** A leading part of a positive definite matrix is positive definite. */
  lemma Leading(M: Q.Mat, z: Q.Vec, k: nat, n: nat)
    requires Q.Definite(M, n) && k < n && z(k) != 0.0
    ensures Q.Form(M, z, k + 1) > 0.0
  {
    var y: Q.Vec := (j: int) => if j <= k then z(j) else 0.0;
    assert y(k) != 0.0;
    assert Q.NonZero(y, n);
    Padded(M, z, y, k + 1, n);
  }

  lemma {:induction false} SumStops(f: int -> real, m: nat, n: nat)
    requires m <= n && forall j :: m <= j < n ==> f(j) == 0.0
    ensures Sum(f, n) == Sum(f, m)
  {
    if m < n {
      SumStops(f, m, n - 1);
    }
  }

  lemma Padded(M: Q.Mat, z: Q.Vec, y: Q.Vec, m: nat, n: nat)
    requires m <= n && forall j :: y(j) == if j < m then z(j) else 0.0
    ensures Q.Form(M, y, n) == Q.Form(M, z, m)
  {
    hide Times;
    forall i ensures Q.RowSum(M, i, y, n) == Q.RowSum(M, i, z, m) {
      forall j | m <= j < n ensures Q.TermF(M, i, y)(j) == 0.0 {
        ZeroTimes(M(i, j));
      }
      SumStops(Q.TermF(M, i, y), m, n);
      SumCong(Q.TermF(M, i, y), Q.TermF(M, i, z), m);
    }
    hide Q.RowSum;
    var f, g := Q.FormF(M, y, n), Q.FormF(M, z, m);
    forall i | m <= i < n ensures f(i) == 0.0 {
      ZeroTimes(Q.RowSum(M, i, y, n));
    }
    SumStops(f, m, n);
    SumCong(f, g, m);
  }

  /** What is left on the diagonal of row k of a positive definite matrix is positive, also after pivots have been replaced by larger ones. */
  lemma LeftPositive(a: seq<Row>, u: seq<Row>, k: nat)
    requires Computed(a, u, k) && k < |a| && PositiveDefinite(a) && forall i :: 0 <= i < k ==> Added(a, u, i) >= 0.0
    ensures Left(a, u, k) > 0.0
  {
    hide Q.Form, Whole, Left, Added, Q.Definite, Annihilates;
    var z := Annihilated(u, k, 0);
    FormBelowLeft(a, u, k, z);
    Leading(Whole(a), z, k, |a|);
  }

  // ----- factors make a matrix positive definite

  function SquareF(u: seq<Row>, y: Q.Vec, n: nat): Q.Vec {
    (r: int) => Times(Line(u, r, y, n), Line(u, r, y, n))
  }

  /** y'*U'*U*y is the sum of the squares of U*y. */
  lemma GramForm(a: seq<Row>, u: seq<Row>, y: Q.Vec)
    requires |u| == |a| && forall i, j :: 0 <= i < |a| && 0 <= j < |a| ==> Whole(a)(i, j) == Product(u, i, j, |a|)
    ensures Q.Form(Whole(a), y, |a|) == Sum(SquareF(u, y, |a|), |a|)
  {
    hide Times, At, Product, Whole;
    var n := |a|;
    var f, q := Q.FormF(Whole(a), y, n), SquareF(u, y, n);
    var b := (i: int, r: int) => Times(y(i), GramF(u, i, y, n)(r));
    forall i | 0 <= i < n ensures f(i) == Sum((r: int) => b(i, r), n) {
      forall j | 0 <= j < n ensures Q.TermF(Whole(a), i, y)(j) == GramRowF(u, i, y, n)(j) {
        assert Whole(a)(i, j) == Product(u, i, j, n);
      }
      SumCong(Q.TermF(Whole(a), i, y), GramRowF(u, i, y, n), n);
      GramRow(u, i, y, n, n);
      SumScaled((r: int) => b(i, r), GramF(u, i, y, n), y(i), n);
    }
    forall r | 0 <= r < n ensures q(r) == Sum((i: int) => b(i, r), n) {
      forall i ensures b(i, r) == Times(Line(u, r, y, n), LineF(u, r, y)(i)) {
        assert GramF(u, i, y, n)(r) == Times(At(u[r], i), Line(u, r, y, n));
        Turned(y(i), At(u[r], i), Line(u, r, y, n));
      }
      SumScaled((i: int) => b(i, r), LineF(u, r, y), Line(u, r, y, n), n);
    }
    SumExchange(b, f, q, n, n);
  }

  lemma Turned(y: real, a: real, s: real)
    ensures Times(y, Times(a, s)) == Times(s, Times(a, y))
  {
  }

  /** The last non-zero component of y shows in U*y. */
  lemma LastShows(u: seq<Row>, y: Q.Vec, n: nat, q: int)
    requires Triangle(u) && n == |u| && 0 <= q < n && y(q) != 0.0 && forall j :: q < j < n ==> y(j) == 0.0
    ensures Line(u, q, y, n) != 0.0
  {
    hide Times, At;
    var f := LineF(u, q, y);
    forall j | 0 <= j < n && j != q ensures f(j) == 0.0 {
      ZeroTimes(At(u[q], j));
      ZeroTimes(y(j));
    }
    SumSingle(f, n, q);
    NoZeroProduct(At(u[q], q), y(q));
  }

  lemma NoZeroProduct(x: real, y: real)
    requires x != 0.0 && y != 0.0
    ensures Times(x, y) != 0.0
  {
  }

  lemma {:induction false} LastNonZero(y: Q.Vec, n: nat) returns (q: int)
    requires Q.NonZero(y, n)
    ensures 0 <= q < n && y(q) != 0.0 && forall j :: q < j < n ==> y(j) == 0.0
  {
    if y(n - 1) != 0.0 {
      q := n - 1;
    } else {
      q := LastNonZero(y, n - 1);
    }
  }

  /** A matrix that is U'*U is positive definite. */
  lemma FactorsDefinite(a: seq<Row>, u: seq<Row>)
    requires |u| == |a| && Triangle(u) && forall i, j :: 0 <= i < |a| && 0 <= j < |a| ==> Whole(a)(i, j) == Product(u, i, j, |a|)
    ensures PositiveDefinite(a)
  {
    hide Q.Form, Whole, Product, Triangle, Line;
    forall y: Q.Vec | Q.NonZero(y, |a|) ensures Q.Form(Whole(a), y, |a|) > 0.0 {
      var q := LastNonZero(y, |a|);
      LastShows(u, y, |a|, q);
      var f := SquareF(u, y, |a|);
      forall r | 0 <= r < |a| ensures f(r) >= 0.0 && (r == q ==> f(r) > 0.0) {
        SquareSign(Line(u, r, y, |a|));
      }
      SumSome(f, |a|, q);
      GramForm(a, u, y);
    }
  }

  lemma SquareSign(x: real)
    ensures Times(x, x) >= 0.0 && (x != 0.0 ==> Times(x, x) > 0.0)
  {
    if x > 0.0 {
      PositiveProduct(x, x);
    } else if x < 0.0 {
      PositiveProduct(-x, -x);
    } else {
      ZeroTimes(x);
    }
  }

  lemma PositiveProduct(x: real, y: real)
    requires x > 0.0 && y > 0.0
    ensures Times(x, y) > 0.0 && Times(-x, -y) == Times(x, y)
  {
  }

  // ----- what the routine leaves

  lemma DiagonalNonZero(a: seq<Row>, u: seq<Row>, k: nat, replaced: bool, threshold: real, huge: real)
    requires k < |a| == |u| && PivotOk(a, u, k, replaced, threshold, huge) && threshold > 0.0 && huge > 0.0
    ensures At(u[k], k) != 0.0
    ensures if replaced then Left(a, u, k) < threshold else Left(a, u, k) >= threshold
    ensures Added(a, u, k) == if replaced then huge - Left(a, u, k) else 0.0
  {
    hide Times, At, Product;
    ProductLast(u, k, k);
    ZeroTimes(0.0);
  }

  lemma TriangleOf(a: seq<Row>, pat: seq<seq<int>>, u: seq<Row>, bad: set<int>, threshold: real, huge: real)
    requires GoodPattern(a, pat) && RowsHave(u, pat, |pat|) && |u| == |a| && threshold > 0.0 && huge > 0.0
    requires forall k :: 0 <= k < |a| ==> PivotOk(a, u, k, k in bad, threshold, huge)
    ensures Triangle(u)
  {
    hide PivotOk;
    forall r, j | 0 <= j < r < |u| ensures At(u[r], j) == 0.0 {
      assert HasRow(u[r], pat[r]);
    }
    hide GoodPattern, RowsHave, At;
    forall r | 0 <= r < |u| ensures At(u[r], r) != 0.0 {
      DiagonalNonZero(a, u, r, r in bad, threshold, huge);
    }
  }

  lemma ComputedOf(a: seq<Row>, u: seq<Row>, bad: set<int>, k: nat)
    requires |u| == |a| && k <= |a| && Triangle(u) && forall i :: 0 <= i < |a| ==> RowDone(a, u, i, i in bad)
    ensures Computed(a, u, k)
  {
    hide Triangle, Product;
    forall i | 0 <= i < k ensures RowDone(a, u, i, true) {
      assert RowDone(a, u, i, i in bad);
    }
  }

  /** Every pivot of a positive definite matrix is replaced exactly if what is left is positive and below the threshold. */
  lemma PivotsPositive(a: seq<Row>, pat: seq<seq<int>>, u: seq<Row>, bad: set<int>, threshold: real, huge: real)
    requires GoodPattern(a, pat) && RowsHave(u, pat, |pat|) && |u| == |a| && 0.0 < threshold <= huge && PositiveDefinite(a)
    requires forall k :: 0 <= k < |a| ==> PivotOk(a, u, k, k in bad, threshold, huge) && RowDone(a, u, k, k in bad)
    ensures forall k :: 0 <= k < |a| ==> Left(a, u, k) > 0.0
  {
    TriangleOf(a, pat, u, bad, threshold, huge);
    hide PivotOk, GoodPattern, RowsHave, Triangle, Left, Added, PositiveDefinite, Computed, RowDone;
    forall k | 0 <= k < |a| ensures Left(a, u, k) > 0.0 {
      forall i | 0 <= i < k ensures Added(a, u, i) >= 0.0 {
        DiagonalNonZero(a, u, i, i in bad, threshold, huge);
      }
      ComputedOf(a, u, bad, k);
      LeftPositive(a, u, k);
    }
  }
}
