/** chol_symb, sort_mat and chol_numb one after the other. */
module CholMain {
  import opened Collections
  import opened CholSymb
  import opened CholNumb
  import opened CholDefinite

  /** Columns below n that are listed, in increasing order; sort_mat builds the same lists. */
  method SortRow(row: seq<int>, n: nat) returns (r: seq<int>)
    requires forall j :: j in row ==> 0 <= j < n
    ensures Sorted(r) && forall j :: j in r <==> j in row
  {
    r := [];
    var j := 0;
    while j < n
      invariant 0 <= j <= n && Sorted(r) && (forall t :: 0 <= t < |r| ==> r[t] < j)
      invariant forall c :: c in r <==> c in row && c < j
    {
      if j in row {
        r := r + [j];
      }
      j := j + 1;
    }
  }

  method RowPattern(row: Row, n: nat) returns (r: seq<int>)
    requires forall j :: j in row ==> 0 <= j < n
    ensures NoDup(r) && forall j :: j in r <==> j in row
  {
    r := [];
    var j := 0;
    while j < n
      invariant 0 <= j <= n && NoDup(r) && (forall t :: 0 <= t < |r| ==> r[t] < j)
      invariant forall c :: c in r <==> c in row && c < j
    {
      if j in row {
        r := r + [j];
      }
      j := j + 1;
    }
  }

  /** The non-zero pattern of A. */
  method PatternOf(a: seq<Row>) returns (p: seq<seq<int>>)
    requires forall i, j :: 0 <= i < |a| && j in a[i] ==> 0 <= j < |a|
    ensures |p| == |a| && Pattern(p) && forall i, j :: 0 <= i < |a| ==> (j in p[i] <==> j in a[i])
  {
    p := [];
    while |p| < |a|
      invariant |p| <= |a| && (forall i :: 0 <= i < |p| ==> NoDup(p[i]))
      invariant forall i, j :: 0 <= i < |p| ==> (j in p[i] <==> j in a[i])
      decreases |a| - |p|
    {
      var r := RowPattern(a[|p|], |a|);
      p := p + [r];
    }
  }

  /** chol_symb, sorting and chol_numb together: fails exactly for a matrix that is not given by its upper triangle; if no pivot had to
      be replaced, U'*U is the symmetric matrix in every element, which then is positive definite. What is left on the diagonals of a
      positive definite matrix is positive, so that pivots are replaced only between zero and the threshold. */
  method Factorize(a: seq<Row>, root: real -> real, eps: real, huge: real) returns (ok: bool, ret: nat, bad: set<int>, U: array<Row>)
    requires forall i, j :: 0 <= i < |a| && j in a[i] ==> 0 <= j < |a|
    requires SquareRoot(root) && eps > 0.0 && huge > 0.0
    ensures ok <==> forall i, j :: 0 <= i < |a| && j in a[i] ==> i <= j
    ensures ok ==> U.Length == |a| && ret == |bad| && forall k :: 0 <= k < |a| ==> PivotOk(a, U[..], k, k in bad, Threshold(a, eps), huge)
    ensures ok && ret == 0 ==> U.Length == |a| && forall k, j :: 0 <= k < |a| && 0 <= j < |a| ==> Product(U[..], k, j, |a|) == Symmetric(a, k, j)
    ensures IsThreshold(a, eps, Threshold(a, eps))
    ensures ok && ret == 0 ==> PositiveDefinite(a)
    ensures ok && PositiveDefinite(a) && Threshold(a, eps) <= huge ==>
              U.Length == |a| && forall k :: 0 <= k < |a| ==> Left(a, U[..], k) > 0.0 && (k in bad <==> Left(a, U[..], k) < Threshold(a, eps))
  {
    hide Product, PivotOk, RowDone, GoodPattern, Filled, RowsHave, SquareRoot, Threshold, PositiveDefinite, Left, IsThreshold;
    ThresholdIs(a, eps);
    var p := PatternOf(a);
    ret, bad, U := 0, {}, new Row[0];
    var good, L := Symb(p);
    ok := good;
    if !ok {
      return;
    }
    FilledBounds(p);
    var pat := SortAll(p, L);
    forall i, j | 0 <= i < |a| && j in a[i] ensures i <= j < |a| && j in p[i] {
      assert j in p[i];
    }
    FilledIsGood(a, p, pat);
    ret, bad, U := Numb(a, pat, root, eps, huge);
    ThresholdPositive(a, eps);
    if PositiveDefinite(a) && Threshold(a, eps) <= huge {
      PivotsPositive(a, pat, U[..], bad, Threshold(a, eps), huge);
      forall k | 0 <= k < |a| ensures k in bad <==> Left(a, U[..], k) < Threshold(a, eps) {
        DiagonalNonZero(a, U[..], k, k in bad, Threshold(a, eps), huge);
      }
    }
    if ret == 0 {
      NoneBad(bad);
      forall i | 0 <= i < |a| ensures RowDone(a, U[..], i, false) {
        assert RowDone(a, U[..], i, i in bad);
      }
      forall k, j | 0 <= k < |a| && 0 <= j < |a| ensures Product(U[..], k, j, |a|) == Symmetric(a, k, j) {
        Factors(a, pat, U[..], k, j);
      }
      TriangleOf(a, pat, U[..], bad, Threshold(a, eps), huge);
      WholeIs(a, U[..]);
    }
  }

  lemma WholeIs(a: seq<Row>, u: seq<Row>)
    requires |u| == |a| && Triangle(u) && forall k, j :: 0 <= k < |a| && 0 <= j < |a| ==> Product(u, k, j, |a|) == Symmetric(a, k, j)
    ensures PositiveDefinite(a)
  {
    hide Product, Triangle, PositiveDefinite, Symmetric;
    FactorsDefinite(a, u);
  }

  lemma NoneBad(bad: set<int>)
    requires |bad| == 0
    ensures forall k :: k !in bad
  {
  }

  method SortAll(ghost p: seq<seq<int>>, L: array<seq<int>>) returns (pat: seq<seq<int>>)
    requires L.Length == |p| && forall k, j :: 0 <= k < |p| ==> (j in L[k] <==> Filled(p, k, j))
    requires forall k, j :: 0 <= k < |p| && Filled(p, k, j) ==> 0 <= j < |p|
    ensures |pat| == |p| && (forall k :: 0 <= k < |pat| ==> Sorted(pat[k]))
    ensures forall k, j :: 0 <= k < |pat| ==> (j in pat[k] <==> Filled(p, k, j))
  {
    hide Filled, Sorted;
    pat := [];
    while |pat| < L.Length
      invariant |pat| <= L.Length && (forall k :: 0 <= k < |pat| ==> Sorted(pat[k]))
      invariant forall k, j :: 0 <= k < |pat| ==> (j in pat[k] <==> Filled(p, k, j))
      decreases L.Length - |pat|
    {
      var r := SortRow(L[|pat|], L.Length);
      pat := pat + [r];
    }
  }
}
