/** FTRAN and BTRAN with B = F*H*V, and the exchange of one column of the basis. The factor F is known only through
    its solver. */
module InvTran {
  import opened Collections
  import opened Sums
  import opened InvEta
  import opened InvLists
  import opened InvUpdate
  import opened InvMain
  import opened InvSolve

  /** V*x */
  ghost function VMul(v: Vmat, x: seq<real>): (y: seq<real>)
    requires VShape(v)
    ensures |y| == |x| && forall i :: 0 <= i < |x| ==> y[i] == VRow(v, i, x)
  {
    seq(|x|, (i: int) => VRow(v, i, x))
  }

  /** V'*x */
  ghost function VMulT(v: Vmat, x: seq<real>): (y: seq<real>)
    requires VShape(v)
    ensures |y| == |x| && forall c :: 0 <= c < |x| ==> y[c] == VCol2(v, c, x)
  {
    seq(|x|, (c: int) => VCol2(v, c, x))
  }

  /** `solve` solves F*x = b for every b of order m, where `mul` is multiplication by F. */
  ghost predicate Solves(mul: seq<real> -> seq<real>, solve: seq<real> -> seq<real>, m: nat) {
    forall b :: |b| == m ==> |solve(b)| == m && mul(solve(b)) == b
  }

  lemma OnlyAt(at: seq<int>, pos: seq<int>, k: int)
    requires Perm(at, pos) && 0 <= k < |at|
    ensures 0 <= at[k] < |pos| && pos[at[k]] == k && forall r :: 0 <= r < |pos| && pos[r] == k ==> r == at[k]
  {
    forall r | 0 <= r < |pos| && pos[r] == k ensures r == at[k] {
      assert at[pos[r]] == r;
    }
  }

  lemma OnlyAtReversed(at: seq<int>, pos: seq<int>, k: int)
    requires Perm(at, pos) && 0 <= k < |at|
    ensures var h := |at| - 1 - k;
            0 <= at[h] < |pos| && Reversed(pos)[at[h]] == k && forall r :: 0 <= r < |pos| && Reversed(pos)[r] == k ==> r == at[h]
  {
    OnlyAt(at, pos, |at| - 1 - k);
  }

  lemma PermRange(at: seq<int>, pos: seq<int>)
    requires Perm(at, pos)
    ensures |at| == |pos| && forall r :: 0 <= r < |pos| ==> 0 <= pos[r] < |pos| && 0 <= Reversed(pos)[r] < |pos|
  {
  }

  lemma TriangularAt(lists: seq<Sparse>, piv: seq<real>, epos: seq<int>, upos: seq<int>, i: int, j: int)
    requires Triangular(lists, piv, epos, upos) && 0 <= i < |piv| && 0 <= j < |lists|
    ensures piv[i] != 0.0 && forall r :: r in lists[j] ==> 0 <= r < |lists|
  {
  }

  /** luf_v_solve with tr == 0: the result solves V*x = b. */
  method VSolve(inv: Inv, x: array<real>)
    requires inv.Shape() && VOk(inv.V()) && x.Length == inv.m && x != inv.piv
    modifies x
    ensures VMul(inv.V(), x[..]) == old(x[..])
  {
    hide VOk, Perm, Partial, Triangular, ListMatrix, Equation, VRow;
    ghost var v, b0 := inv.V(), x[..];
    VOkPerms(v);
    PermRange(v.prow, v.pcol);
    ReversedTriangular(v);
    ghost var ep, up := Reversed(v.pcol), Reversed(v.qrow);
    var n := inv.m;
    var b := MoveToWork(x);
    PartialStart(ListMatrix(v.cols, v.piv, ep, up), ep, up, b[..], x[..]);
    var k := n;
    while k > 0
      invariant 0 <= k <= n && inv.V() == v
      invariant Partial(ListMatrix(v.cols, v.piv, ep, up), ep, up, n - k, b0, b[..], x[..])
    {
      k := k - 1;
      OnlyAtReversed(v.prow, v.pcol, n - 1 - k);
      OnlyAtReversed(v.qcol, v.qrow, n - 1 - k);
      var i, j := inv.prow[k], inv.qcol[k];
      TriangularAt(v.cols, v.piv, ep, up, i, j);
      SolveEquation(v.cols, v.piv, ep, up, n - 1 - k, b0, inv.vc[j], inv.piv[i], i, j, b, x);
    }
    PartialDone(ListMatrix(v.cols, v.piv, ep, up), ep, up, n, b0, b[..], x[..]);
    forall i | 0 <= i < n ensures VRow(v, i, x[..]) == b0[i] {
      ReversedEquation(v, i, x[..]);
    }
  }

  lemma ColPivotAt(v: Vmat, k: int)
    requires VOk(v) && 0 <= k < |v.rows|
    ensures 0 <= v.prow[k] < |v.piv| && 0 <= v.qcol[k] < |v.rows| && ColPivots(v)[v.qcol[k]] == v.piv[v.prow[k]]
  {
    hide Agree, Upper;
    PermAt(v.qcol, v.qrow, k);
    PermAt(v.prow, v.pcol, k);
  }

  /** luf_v_solve with tr != 0: the result solves V'*x = b. */
  method VSolveT(inv: Inv, x: array<real>)
    requires inv.Shape() && VOk(inv.V()) && x.Length == inv.m && x != inv.piv
    modifies x
    ensures VMulT(inv.V(), x[..]) == old(x[..])
  {
    hide VOk, Perm, Partial, Triangular, ListMatrix, Equation, VCol2, ColPivots;
    ghost var v, b0 := inv.V(), x[..];
    VOkPerms(v);
    PermRange(v.qcol, v.qrow);
    ForwardTriangular(v);
    ghost var pv := ColPivots(v);
    var n := inv.m;
    var b := MoveToWork(x);
    PartialStart(ListMatrix(v.rows, pv, v.qrow, v.pcol), v.qrow, v.pcol, b[..], x[..]);
    var k := 0;
    while k < n
      invariant 0 <= k <= n && inv.V() == v
      invariant Partial(ListMatrix(v.rows, pv, v.qrow, v.pcol), v.qrow, v.pcol, k, b0, b[..], x[..])
    {
      OnlyAt(v.prow, v.pcol, k);
      OnlyAt(v.qcol, v.qrow, k);
      var i, j := inv.prow[k], inv.qcol[k];
      ColPivotAt(v, k);
      TriangularAt(v.rows, pv, v.qrow, v.pcol, j, i);
      SolveEquation(v.rows, pv, v.qrow, v.pcol, k, b0, inv.vr[i], inv.piv[i], j, i, b, x);
      k := k + 1;
    }
    PartialDone(ListMatrix(v.rows, pv, v.qrow, v.pcol), v.qrow, v.pcol, n, b0, b[..], x[..]);
    forall c | 0 <= c < n ensures VCol2(v, c, x[..]) == b0[c] {
      ForwardEquation(v, c, x[..]);
    }
  }

  lemma ForwardEquation(v: Vmat, c: int, x: seq<real>)
    requires VShape(v)
    ensures VCol2(v, c, x) == Equation(ListMatrix(v.rows, ColPivots(v), v.qrow, v.pcol), c, x)
  {
  }

  /** What is saved of a partially transformed column. */
  ghost predicate Saved(x: seq<real>, eps: real, cc: Sparse) {
    && (forall i :: i in cc ==> 0 <= i < |x| && cc[i] == x[i])
    && (forall i :: 0 <= i < |x| ==> (i in cc <==> x[i] != 0.0 && (x[i] >= eps || x[i] <= -eps)))
  }

  method SaveColumn(x: array<real>, eps: real) returns (cc: Sparse)
    ensures Saved(x[..], eps, cc)
  {
    cc := map[];
    var i := 0;
    while i < x.Length
      invariant 0 <= i <= x.Length
      invariant forall h :: h in cc ==> 0 <= h < i && cc[h] == x[h]
      invariant forall h :: 0 <= h < i ==> (h in cc <==> x[h] != 0.0 && (x[h] >= eps || x[h] <= -eps))
    {
      if !(x[i] == 0.0 || Abs(x[i]) < eps) {
        cc := cc[i := x[i]];
      }
      i := i + 1;
    }
  }

  lemma SavedExactly(x: seq<real>, cc: Sparse)
    requires Saved(x, 0.0, cc)
    ensures Dense(cc, |x|) == x
  {
    forall i | 0 <= i < |x| ensures Dense(cc, |x|)[i] == x[i] {
    }
  }

  /** inv_ftran: the result solves B*x' = x with B = F*H*V; the saved column holds the elements of f = inv(F*H)*x that are not small. */
  method Ftran(inv: Inv, fmul: seq<real> -> seq<real>, fsolve: seq<real> -> seq<real>, x: array<real>, save: bool) returns (ghost f: seq<real>)
    requires inv.Valid() && x.Length == inv.m && x != inv.piv && Solves(fmul, fsolve, inv.m)
    modifies x, inv`cc
    ensures inv.Valid() && (!save ==> inv.cc == old(inv.cc))
    ensures FileOk(inv.hh, inv.m) && fmul(HMul(inv.hh, VMul(inv.V(), x[..]))) == old(x[..])
    ensures |f| == inv.m && fmul(HMul(inv.hh, f)) == old(x[..])
    ensures save ==> inv.cc.Prepared? && Saved(f, inv.epsTol, inv.cc.v)
  {
    hide VOk, FileOk, HMul, Saved, VMul;
    ghost var a := x[..];
    Assign(x, fsolve(x[..]));
    HSolve(inv.hh, x);
    f := x[..];
    if save {
      var col := SaveColumn(x, inv.epsTol);
      SavedRange(x[..], inv.epsTol, col);
      inv.cc := Prepared(col);
    }
    VSolve(inv, x);
  }

  lemma SavedRange(x: seq<real>, eps: real, cc: Sparse)
    requires Saved(x, eps, cc)
    ensures forall i :: i in cc ==> 0 <= i < |x|
  {
  }

  /** Column c of the basis matrix B = F*H*V. */
  ghost function BCol(fmul: seq<real> -> seq<real>, hh: seq<Factor>, v: Vmat, c: int): seq<real>
    requires VShape(v) && FileOk(hh, |v.rows|) && 0 <= c < |v.rows|
  {
    fmul(HMul(hh, VCol(v, c)))
  }

  /** Multiplication by F and by F'. */
  ghost predicate Transposes(mul: seq<real> -> seq<real>, mulT: seq<real> -> seq<real>, m: nat) {
    forall x, y :: |x| == m && |y| == m ==> |mul(x)| == m && |mulT(y)| == m && Inner(mul(x), y) == Inner(x, mulT(y))
  }

  lemma TransposesAt(mul: seq<real> -> seq<real>, mulT: seq<real> -> seq<real>, m: nat, x: seq<real>, y: seq<real>)
    requires Transposes(mul, mulT, m) && |x| == m && |y| == m
    ensures |mul(x)| == m && |mulT(y)| == m && Inner(mul(x), y) == Inner(x, mulT(y))
  {
  }

  lemma ColumnTerm(v: Vmat, c: int, y: seq<real>, i: int)
    requires VOk(v) && 0 <= c < |v.rows| == |y| && 0 <= i < |y|
    ensures InnerF(VCol(v, c), y)(i) == EquationF(ListMatrix(v.rows, ColPivots(v), v.qrow, v.pcol), c, y)(i)
  {
    hide ListMatrix, VEnt;
    SystemElements(v, i, c);
  }

  /** Component c of V'*y is the product of column c of V with y. */
  lemma ColumnProduct(v: Vmat, c: int, y: seq<real>)
    requires VOk(v) && 0 <= c < |v.rows| == |y|
    ensures Inner(VCol(v, c), y) == VMulT(v, y)[c]
  {
    hide VOk, InnerF, EquationF, ListMatrix, ColPivots;
    VOkPerms(v);
    forall i | 0 <= i < |y| ensures InnerF(VCol(v, c), y)(i) == EquationF(ListMatrix(v.rows, ColPivots(v), v.qrow, v.pcol), c, y)(i) {
      ColumnTerm(v, c, y, i);
    }
    SumCong(InnerF(VCol(v, c), y), EquationF(ListMatrix(v.rows, ColPivots(v), v.qrow, v.pcol), c, y), |y|);
  }

  /** The product of column c of B with y is component c of V'*H'*F'*y. */
  lemma BasisProduct(fmul: seq<real> -> seq<real>, fmulT: seq<real> -> seq<real>, hh: seq<Factor>, v: Vmat, c: int, y: seq<real>)
    requires VOk(v) && FileOk(hh, |v.rows|) && Transposes(fmul, fmulT, |v.rows|) && 0 <= c < |v.rows| == |y|
    ensures |fmulT(y)| == |y| && Inner(BCol(fmul, hh, v, c), y) == VMulT(v, HMulT(hh, fmulT(y)))[c]
  {
    hide VOk, FileOk, HMul, HMulT, Inner, Transposes, VMulT;
    VOkPerms(v);
    var z := HMul(hh, VCol(v, c));
    TransposesAt(fmul, fmulT, |y|, z, y);
    Adjoint(hh, VCol(v, c), fmulT(y));
    ColumnProduct(v, c, HMulT(hh, fmulT(y)));
  }

  /** inv_btran: the result solves B'*x' = x, so that its product with column c of B is the given component c. */
  method Btran(inv: Inv, ghost fmul: seq<real> -> seq<real>, ghost fmulT: seq<real> -> seq<real>, fsolveT: seq<real> -> seq<real>, x: array<real>)
    requires inv.Valid() && x.Length == inv.m && x != inv.piv && Solves(fmulT, fsolveT, inv.m) && Transposes(fmul, fmulT, inv.m)
    modifies x
    ensures FileOk(inv.hh, inv.m) && |fmulT(x[..])| == inv.m
    ensures VMulT(inv.V(), HMulT(inv.hh, fmulT(x[..]))) == old(x[..])
    ensures forall c :: 0 <= c < inv.m ==> Inner(BCol(fmul, inv.hh, inv.V(), c), x[..]) == old(x[c])
  {
    hide VOk, FileOk, HMulT, VMulT, Transposes, Inner, BCol;
    ghost var b := x[..];
    VSolveT(inv, x);
    HSolveT(inv.hh, x);
    Assign(x, fsolveT(x[..]));
    forall c | 0 <= c < inv.m ensures Inner(BCol(fmul, inv.hh, inv.V(), c), x[..]) == b[c] {
      BasisProduct(fmul, fmulT, inv.hh, inv.V(), c, x[..]);
    }
  }

  /** Column c of F*H*V, with d added to element i of the column of V, is the given one. */
  ghost predicate ColumnIs(fmul: seq<real> -> seq<real>, hh: seq<Factor>, v: Vmat, i: int, d: real, c: int, col: seq<real>) {
    && VShape(v) && FileOk(hh, |v.rows|) && 0 <= i < |v.rows| && 0 <= c < |v.rows|
    && fmul(HMul(hh, Raised(VCol(v, c), i, d))) == col
  }

  /** FTRAN of the entering column a, then the update: F*H*V is B with column j replaced by F*H times the saved part of f = inv(F*H)*a,
      up to elements d of row i that were dropped as too small; without dropping, column j is a itself. */
  method Exchange(inv: Inv, fmul: seq<real> -> seq<real>, fsolve: seq<real> -> seq<real>, x: array<real>, j: int)
    returns (ret: int, ghost f: seq<real>, ghost col: Sparse, ghost i: int, ghost d: seq<real>)
    requires inv.Valid() && x.Length == inv.m && x !in inv.Arrays() && Solves(fmul, fsolve, inv.m) && 0 <= j < inv.m
    modifies x, inv`valid, inv`hh, inv`cc, inv.Arrays()
    ensures ret == 0 ==> inv.Valid()
    ensures |f| == inv.m && FileOk(old(inv.hh), inv.m) && fmul(HMul(old(inv.hh), f)) == old(x[..]) && Saved(f, inv.epsTol, col)
    ensures ret == 0 ==> |d| == inv.m && forall c :: 0 <= c < inv.m ==>
              && (d[c] == 0.0 || -inv.epsTol < d[c] < inv.epsTol)
              && ColumnIs(fmul, inv.hh, inv.V(), i, d[c], c, if c == j then fmul(HMul(old(inv.hh), Dense(col, inv.m))) else old(BCol(fmul, inv.hh, inv.V(), c)))
    ensures ret == 0 && inv.epsTol == 0.0 ==> FileOk(inv.hh, inv.m) && forall c :: 0 <= c < inv.m ==>
              BCol(fmul, inv.hh, inv.V(), c) == if c == j then old(x[..]) else old(BCol(fmul, inv.hh, inv.V(), c))
  {
    hide VOk, FileOk, HMul, VMul, StructurallySingular, Saved, ColumnIs, NewCol, BCol, Raised, Dense;
    ghost var a, v0, hh0 := x[..], inv.V(), inv.hh;
    f := Ftran(inv, fmul, fsolve, x, true);
    col := inv.cc.v;
    ret, i, d := inv.Update(j);
    if ret == 0 {
      forall c | 0 <= c < inv.m
        ensures (d[c] == 0.0 || -inv.epsTol < d[c] < inv.epsTol)
        ensures ColumnIs(fmul, inv.hh, inv.V(), i, d[c], c, if c == j then fmul(HMul(hh0, Dense(col, inv.m))) else BCol(fmul, hh0, v0, c))
        ensures inv.epsTol == 0.0 ==> BCol(fmul, inv.hh, inv.V(), c) == if c == j then a else BCol(fmul, hh0, v0, c)
      {
        ColumnMeans(fmul, hh0, v0, inv.hh, inv.V(), j, col, i, d[c], c, inv.epsTol);
        if inv.epsTol == 0.0 {
          SavedExactly(f, col);
        }
      }
    }
  }

  lemma ColumnMeans(fmul: seq<real> -> seq<real>, hh0: seq<Factor>, v0: Vmat, hh: seq<Factor>, v: Vmat, j: int, col: Sparse, i: int, d: real,
                    c: int, eps: real)
    requires VShape(v0) && VShape(v) && |v.rows| == |v0.rows| && FileOk(hh0, |v0.rows|) && FileOk(hh, |v.rows|)
    requires 0 <= i < |v.rows| && 0 <= c < |v.rows| && (Abs(d) < eps || d == 0.0)
    requires HMul(hh, Raised(VCol(v, c), i, d)) == HMul(hh0, NewCol(v0, j, col, c))
    ensures d == 0.0 || -eps < d < eps
    ensures ColumnIs(fmul, hh, v, i, d, c, if c == j then fmul(HMul(hh0, Dense(col, |v0.rows|))) else BCol(fmul, hh0, v0, c))
    ensures eps == 0.0 ==> BCol(fmul, hh, v, c) == if c == j then fmul(HMul(hh0, Dense(col, |v0.rows|))) else BCol(fmul, hh0, v0, c)
  {
    hide HMul, FileOk, Dense;
    if eps == 0.0 {
      NothingDropped(VCol(v, c), i, d);
    }
  }

  lemma NothingDropped(x: seq<real>, i: int, d: real)
    requires 0 <= i < |x| && (Abs(d) < 0.0 || d == 0.0)
    ensures Raised(x, i, d) == x
  {
  }
}
