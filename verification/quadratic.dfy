/** Positive definite matrices: systems with them can be solved. */
module Quadratic {
  import opened Sums

  type Mat = (int, int) -> real

  type Vec = int -> real

  function TermF(M: Mat, i: int, y: Vec): Vec {
    (j: int) => Times(M(i, j), y(j))
  }

  /** Component i of M*y, from the first n components of y. */
  function RowSum(M: Mat, i: int, y: Vec, n: nat): real {
    Sum(TermF(M, i, y), n)
  }

  function FormF(M: Mat, y: Vec, n: nat): Vec {
    (i: int) => Times(y(i), RowSum(M, i, y, n))
  }

  /** y'*M*y */
  function Form(M: Mat, y: Vec, n: nat): real {
    Sum(FormF(M, y, n), n)
  }

  ghost predicate NonZero(y: Vec, n: nat) {
    exists i :: 0 <= i < n && y(i) != 0.0
  }

  ghost predicate Definite(M: Mat, n: nat) {
    forall y: Vec :: NonZero(y, n) ==> Form(M, y, n) > 0.0
  }

  /** y with another value at k. */
  function Put(y: Vec, k: int, t: real): Vec {
    (j: int) => if j == k then t else y(j)
  }

  lemma RowSumPut(M: Mat, i: int, y: Vec, k: nat, t: real)
    ensures RowSum(M, i, Put(y, k, t), k + 1) == RowSum(M, i, y, k) + Times(M(i, k), t)
  {
    SumCong(TermF(M, i, Put(y, k, t)), TermF(M, i, y), k);
  }

  // ----- elimination of the last unknown

  function Ratio(x: real, y: real): real {
    if y == 0.0 then 0.0 else x / y
  }

  /** M without its last row and column, after elimination with the pivot M[k,k]. */
  function Eliminated(M: Mat, k: nat): Mat {
    (i: int, j: int) => M(i, j) - Times(Ratio(M(i, k), M(k, k)), M(k, j))
  }

  lemma EliminatedRow(M: Mat, k: nat, i: int, y: Vec)
    ensures RowSum(Eliminated(M, k), i, y, k) == RowSum(M, i, y, k) - Times(Ratio(M(i, k), M(k, k)), RowSum(M, k, y, k))
  {
    hide Times, Ratio;
    var f, g, h, c := TermF(Eliminated(M, k), i, y), TermF(M, i, y), TermF(M, k, y), Ratio(M(i, k), M(k, k));
    forall j | 0 <= j < k ensures f(j) == g(j) + (-c) * h(j) {
      assert f(j) == Times(M(i, j) - Times(c, M(k, j)), y(j)) && g(j) == Times(M(i, j), y(j)) && h(j) == Times(M(k, j), y(j));
      Distribute(M(i, j), c, M(k, j), y(j));
    }
    SumLinear(f, g, h, -c, k);
    Negated(c, Sum(h, k));
  }

  lemma Negated(c: real, t: real)
    ensures (-c) * t == -Times(c, t)
  {
  }

  lemma Distribute(a: real, c: real, b: real, y: real)
    ensures Times(a - Times(c, b), y) == Times(a, y) + (-c) * Times(b, y)
  {
  }

  /** The last component that makes the last row vanish. */
  function LastFor(M: Mat, k: nat, y: Vec): real {
    Ratio(-RowSum(M, k, y, k), M(k, k))
  }

  lemma RatioTimes(x: real, y: real)
    requires y != 0.0
    ensures Times(y, Ratio(x, y)) == x
  {
    assert y * (x / y) == x;
  }

  lemma RatioSwap(a: real, p: real, c: real)
    requires p != 0.0
    ensures Times(a, Ratio(-c, p)) == -Times(Ratio(a, p), c)
  {
    assert a * (-c / p) == -(a * c) / p;
    assert (a / p) * c == (a * c) / p;
  }

  lemma FormLast(M: Mat, k: nat, y: Vec)
    requires M(k, k) != 0.0
    ensures Form(M, Put(y, k, LastFor(M, k, y)), k + 1) == Form(Eliminated(M, k), y, k)
  {
    hide RowSum, Times, Ratio;
    var t := LastFor(M, k, y);
    var z := Put(y, k, t);
    RowSumPut(M, k, y, k, t);
    RatioTimes(-RowSum(M, k, y, k), M(k, k));
    assert RowSum(M, k, z, k + 1) == 0.0;
    TimesZero(z(k));
    forall i | 0 <= i < k ensures FormF(M, z, k + 1)(i) == FormF(Eliminated(M, k), y, k)(i) {
      RowSumPut(M, i, y, k, t);
      EliminatedRow(M, k, i, y);
      RatioSwap(M(i, k), M(k, k), RowSum(M, k, y, k));
    }
    SumCong(FormF(M, z, k + 1), FormF(Eliminated(M, k), y, k), k);
  }

  lemma TimesZero(x: real)
    ensures Times(x, 0.0) == 0.0
  {
  }

  lemma PivotPositive(M: Mat, k: nat)
    requires Definite(M, k + 1)
    ensures M(k, k) > 0.0
  {
    var e: Vec := (j: int) => if j == k then 1.0 else 0.0;
    assert NonZero(e, k + 1) by {
      assert e(k) != 0.0;
    }
    forall i | 0 <= i <= k ensures RowSum(M, i, e, k + 1) == M(i, k) {
      SumZero(TermF(M, i, e), k);
    }
    SumZero(FormF(M, e, k + 1), k);
  }

  lemma EliminatedDefinite(M: Mat, k: nat)
    requires Definite(M, k + 1)
    ensures M(k, k) > 0.0 && Definite(Eliminated(M, k), k)
  {
    hide Form, Eliminated, LastFor;
    PivotPositive(M, k);
    forall y: Vec | NonZero(y, k) ensures Form(Eliminated(M, k), y, k) > 0.0 {
      var z := Put(y, k, LastFor(M, k, y));
      var i :| 0 <= i < k && y(i) != 0.0;
      assert z(i) != 0.0;
      assert NonZero(z, k + 1);
      FormLast(M, k, y);
    }
  }

  /** A system with a positive definite matrix has a solution, for every right-hand side. */
  lemma {:induction false} Solvable(M: Mat, n: nat, h: Vec) returns (y: Vec)
    requires Definite(M, n)
    ensures forall i :: 0 <= i < n ==> RowSum(M, i, y, n) == h(i)
    decreases n
  {
    if n == 0 {
      y := h;
    } else {
      hide Definite, RowSum, Times, Ratio, Eliminated;
      var k: nat := n - 1;
      EliminatedDefinite(M, k);
      var g: Vec := (i: int) => h(i) - Times(Ratio(M(i, k), M(k, k)), h(k));
      var x := Solvable(Eliminated(M, k), k, g);
      var c := RowSum(M, k, x, k);
      var t := Ratio(h(k) - c, M(k, k));
      y := Put(x, k, t);
      forall i | 0 <= i < n ensures RowSum(M, i, y, n) == h(i) {
        RowSumPut(M, i, x, k, t);
        if i == k {
          RatioTimes(h(k) - c, M(k, k));
        } else {
          EliminatedRow(M, k, i, x);
          RatioDifference(M(i, k), M(k, k), h(k), c);
        }
      }
    }
  }

  lemma RatioDifference(a: real, p: real, h: real, c: real)
    requires p != 0.0
    ensures Times(a, Ratio(h - c, p)) == Times(Ratio(a, p), h) - Times(Ratio(a, p), c)
  {
    assert a * ((h - c) / p) == (a / p) * (h - c);
  }
}
