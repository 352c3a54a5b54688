/** The normal equation systems have exact solvers exactly for matrices of full row rank. */
module IpmNormal {
  import opened Sums
  import opened Ipm
  import Quadratic

  /** No combination of the m rows other than the trivial one vanishes in all n columns. */
  ghost predicate FullRank(A: Matrix, m: nat, n: nat) {
    forall y: seq<real> :: |y| == m && Cancels(A, y, n) ==> AllZero(y)
  }

  ghost predicate Cancels(A: Matrix, y: seq<real>, n: nat) {
    forall j :: 0 <= j < n ==> Aty(A, y, j) == 0.0
  }

  ghost predicate AllZero(y: seq<real>) {
    forall i :: 0 <= i < |y| ==> y[i] == 0.0
  }

  // ----- the adjoint of A

  function YAx(A: Matrix, y: seq<real>, s: seq<real>): int -> real {
    (i: int) => Times(Val(y, i), Ax(A, s, i))
  }

  function SAty(A: Matrix, y: seq<real>, s: seq<real>): int -> real {
    (j: int) => Times(Val(s, j), Aty(A, y, j))
  }

  /** y'*(A*s) = s'*(A'*y) */
  lemma Adjoint(A: Matrix, y: seq<real>, s: seq<real>)
    ensures Sum(YAx(A, y, s), |y|) == Sum(SAty(A, y, s), |s|)
  {
    hide Times;
    var a := (i: int, j: int) => Times(Val(y, i), RowF(A, i, s)(j));
    forall i | 0 <= i < |y| ensures YAx(A, y, s)(i) == Sum((j: int) => a(i, j), |s|) {
      SumScaled((j: int) => a(i, j), RowF(A, i, s), Val(y, i), |s|);
    }
    forall j | 0 <= j < |s| ensures SAty(A, y, s)(j) == Sum((i: int) => a(i, j), |y|) {
      forall i ensures a(i, j) == Times(Val(s, j), ColF(A, j, y)(i)) {
        assert RowF(A, i, s)(j) == Times(A(i, j), Val(s, j));
        Rotated(Val(y, i), A(i, j), Val(s, j));
      }
      SumScaled((i: int) => a(i, j), ColF(A, j, y), Val(s, j), |y|);
    }
    SumExchange(a, YAx(A, y, s), SAty(A, y, s), |y|, |s|);
  }

  lemma Rotated(x: real, a: real, s: real)
    ensures Times(x, Times(a, s)) == Times(s, Times(a, x))
  {
  }

  // ----- the matrix of the normal equations

  function EntryF(A: Matrix, D: seq<real>, i: int, h: int): int -> real {
    (j: int) => Times(A(i, j), Times(Val(D, j), A(h, j)))
  }

  /** A*D*A' */
  function NormalMatrix(A: Matrix, D: seq<real>): Quadratic.Mat {
    (i: int, h: int) => Sum(EntryF(A, D, i, h), |D|)
  }

  function AsVec(y: seq<real>): Quadratic.Vec {
    (i: int) => Val(y, i)
  }

  lemma Regrouped(a: real, d: real, b: real, y: real)
    ensures Times(Times(a, Times(d, b)), y) == Times(Times(a, d), Times(b, y))
    ensures Times(Times(a, d), y) == Times(a, Times(d, y)) && Times(y, a) == Times(a, y)
  {
  }

  lemma NormalRow(A: Matrix, D: seq<real>, y: seq<real>, i: int)
    ensures Quadratic.RowSum(NormalMatrix(A, D), i, AsVec(y), |y|) == Ax(A, Scaled(A, D, y), i)
  {
    hide Times;
    var a := (h: int, j: int) => Times(EntryF(A, D, i, h)(j), Val(y, h));
    var t := Quadratic.TermF(NormalMatrix(A, D), i, AsVec(y));
    var u := RowF(A, i, Scaled(A, D, y));
    forall h | 0 <= h < |y| ensures t(h) == Sum((j: int) => a(h, j), |D|) {
      forall j ensures a(h, j) == Times(Val(y, h), EntryF(A, D, i, h)(j)) {
        Regrouped(EntryF(A, D, i, h)(j), 0.0, 0.0, Val(y, h));
      }
      SumScaled((j: int) => a(h, j), EntryF(A, D, i, h), Val(y, h), |D|);
      Regrouped(NormalMatrix(A, D)(i, h), 0.0, 0.0, Val(y, h));
    }
    forall j | 0 <= j < |D| ensures u(j) == Sum((h: int) => a(h, j), |y|) {
      var c := Times(A(i, j), Val(D, j));
      forall h ensures a(h, j) == Times(c, ColF(A, j, y)(h)) {
        Regrouped(A(i, j), Val(D, j), A(h, j), Val(y, h));
      }
      SumScaled((h: int) => a(h, j), ColF(A, j, y), c, |y|);
      Regrouped(A(i, j), Val(D, j), 0.0, Aty(A, y, j));
    }
    SumExchange(a, t, u, |y|, |D|);
  }

  /** y'*A*D*A'*y is the sum of D[j] times the squares of A'*y. */
  lemma NormalForm(A: Matrix, D: seq<real>, y: seq<real>)
    ensures Quadratic.Form(NormalMatrix(A, D), AsVec(y), |y|) == Sum(SAty(A, y, Scaled(A, D, y)), |D|)
  {
    hide Ax, Aty, Times, Quadratic.RowSum;
    var s := Scaled(A, D, y);
    forall i | 0 <= i < |y| ensures Quadratic.FormF(NormalMatrix(A, D), AsVec(y), |y|)(i) == YAx(A, y, s)(i) {
      NormalRow(A, D, y, i);
    }
    SumCong(Quadratic.FormF(NormalMatrix(A, D), AsVec(y), |y|), YAx(A, y, s), |y|);
    Adjoint(A, y, s);
  }

  lemma SquareSigns(d: real, t: real)
    requires d > 0.0
    ensures Times(Times(d, t), t) >= 0.0 && (t != 0.0 ==> Times(Times(d, t), t) > 0.0)
  {
    if t != 0.0 {
      assert t * t > 0.0;
      assert d * (t * t) > 0.0;
    }
  }

  lemma NormalPositive(A: Matrix, D: seq<real>, y: seq<real>, j: int)
    requires Positive(D) && 0 <= j < |D| && Aty(A, y, j) != 0.0
    ensures Quadratic.Form(NormalMatrix(A, D), AsVec(y), |y|) > 0.0
  {
    hide Aty, Times, Quadratic.Form, NormalMatrix;
    var f := SAty(A, y, Scaled(A, D, y));
    forall k | 0 <= k < |D| ensures f(k) >= 0.0 && (k == j ==> f(k) > 0.0) {
      SquareSigns(D[k], Aty(A, y, k));
    }
    SumSome(f, |D|, j);
    NormalForm(A, D, y);
  }

  lemma FormAgrees(M: Quadratic.Mat, y: Quadratic.Vec, z: Quadratic.Vec, n: nat)
    requires forall i :: 0 <= i < n ==> y(i) == z(i)
    ensures Quadratic.Form(M, y, n) == Quadratic.Form(M, z, n)
    ensures forall i :: Quadratic.RowSum(M, i, y, n) == Quadratic.RowSum(M, i, z, n)
  {
    hide Times;
    forall i ensures Quadratic.RowSum(M, i, y, n) == Quadratic.RowSum(M, i, z, n) {
      SumCong(Quadratic.TermF(M, i, y), Quadratic.TermF(M, i, z), n);
    }
    SumCong(Quadratic.FormF(M, y, n), Quadratic.FormF(M, z, n), n);
  }

  lemma NormalDefinite(A: Matrix, D: seq<real>, m: nat)
    requires FullRank(A, m, |D|) && Positive(D)
    ensures Quadratic.Definite(NormalMatrix(A, D), m)
  {
    hide Aty, Quadratic.Form, NormalMatrix;
    forall v: Quadratic.Vec | Quadratic.NonZero(v, m) ensures Quadratic.Form(NormalMatrix(A, D), v, m) > 0.0 {
      var y := seq(m, (i: int) => v(i));
      assert !AllZero(y) by {
        var i :| 0 <= i < m && v(i) != 0.0;
        assert y[i] != 0.0;
      }
      var j :| 0 <= j < |D| && Aty(A, y, j) != 0.0;
      NormalPositive(A, D, y, j);
      FormAgrees(NormalMatrix(A, D), v, AsVec(y), m);
    }
  }

  lemma NormalSolvable(A: Matrix, D: seq<real>, h: seq<real>)
    requires FullRank(A, |h|, |D|) && Positive(D)
    ensures exists dy :: NormalEq(A, D, dy, h)
  {
    hide FullRank, Quadratic.Definite, Quadratic.RowSum, NormalMatrix, Ax, Scaled;
    NormalDefinite(A, D, |h|);
    var v := Quadratic.Solvable(NormalMatrix(A, D), |h|, AsVec(h));
    var y := seq(|h|, (i: int) => v(i));
    FormAgrees(NormalMatrix(A, D), v, AsVec(y), |h|);
    forall i | 0 <= i < |h| ensures Ax(A, Scaled(A, D, y), i) == h[i] {
      NormalRow(A, D, y, i);
    }
    assert NormalEq(A, D, y, h);
  }

  /** Some solution of the normal equation system, if there is one. */
  ghost function Pick(A: Matrix, D: seq<real>, h: seq<real>): seq<real> {
    if exists dy :: NormalEq(A, D, dy, h) then
      var dy :| NormalEq(A, D, dy, h); dy
    else
      []
  }

  lemma ExactFor(A: Matrix, m: nat, n: nat) returns (solve: (seq<real>, seq<real>) -> seq<real>)
    requires FullRank(A, m, n)
    ensures Exact(A, solve, m, n)
  {
    hide FullRank, NormalEq;
    solve := (D: seq<real>, h: seq<real>) => Pick(A, D, h);
    forall D: seq<real>, h: seq<real> | |D| == n && Positive(D) && |h| == m ensures NormalEq(A, D, solve(D, h), h) {
      NormalSolvable(A, D, h);
    }
  }

  /** y'*y = 0 only for y = 0. */
  lemma NoSquares(y: seq<real>, f: int -> real)
    requires (forall i :: 0 <= i < |y| ==> f(i) == Times(y[i], y[i])) && Sum(f, |y|) == 0.0
    ensures AllZero(y)
  {
    forall i | 0 <= i < |y| ensures y[i] == 0.0 {
      if y[i] != 0.0 {
        forall k | 0 <= k < |y| ensures f(k) >= 0.0 && (k == i ==> f(k) > 0.0) {
          SquareSigns(1.0, y[k]);
        }
        SumSome(f, |y|, i);
      }
    }
  }

  lemma RankFrom(A: Matrix, solve: (seq<real>, seq<real>) -> seq<real>, m: nat, n: nat)
    requires Exact(A, solve, m, n)
    ensures FullRank(A, m, n)
  {
    hide Ax, Aty, Scaled, Times;
    var ones := seq(n, _ => 1.0);
    forall y: seq<real> | |y| == m && Cancels(A, y, n) ensures AllZero(y) {
      var dy := solve(ones, y);
      assert NormalEq(A, ones, dy, y);
      var s := Scaled(A, ones, dy);
      Adjoint(A, y, s);
      forall j | 0 <= j < n ensures SAty(A, y, s)(j) == 0.0 {
        Quadratic.TimesZero(Val(s, j));
      }
      SumZero(SAty(A, y, s), n);
      NoSquares(y, YAx(A, y, s));
    }
  }

  /** The normal equations can be solved exactly, for every positive D and every right-hand side, exactly if A has full row rank. */
  lemma ExactExists(A: Matrix, m: nat, n: nat)
    ensures (exists solve: (seq<real>, seq<real>) -> seq<real> :: Exact(A, solve, m, n)) <==> FullRank(A, m, n)
  {
    hide Exact, FullRank;
    if FullRank(A, m, n) {
      var solve := ExactFor(A, m, n);
    }
    if solve: (seq<real>, seq<real>) -> seq<real> :| Exact(A, solve, m, n) {
      RankFrom(A, solve, m, n);
    }
  }
}
