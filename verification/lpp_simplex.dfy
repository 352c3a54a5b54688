/** The simplex driver with presolving: build the resultant problem, load its solution under reference numbers,
    postsolve, and unload the result with a renumbered basis. */
module LpSimplex {
  import opened Sums
  import opened Collections
  import opened LpModel
  import opened LpRecover
  import opened LpReduce
  import opened LpEquiv
  import opened LpBasis
  import opened LpDual
  import opened LpCompose
  import opened LpQueue
  import opened LpWorkspace
  import opened LpPresolve
  import opened LpPostsolve

  /** What the simplex solver promises of an optimal basic solution; unlike `BasicOptimal`, a free row may be non-basic. */
  ghost predicate Kkt(P: LP, S: Sol) {
    && Shape(P, S)
    && (forall i :: i in P.row ==> RowKkt(P, S, i))
    && (forall j :: j in P.col ==> ColOk(P, S, j))
    && (forall i :: 0 <= i < P.m && i !in P.row ==> S.rs[i] == Unset)
    && (forall j :: 0 <= j < P.n && j !in P.col ==> S.cs[j] == Unset)
    && CountBS(S.rs) + CountBS(S.cs) == |P.row.Keys|
  }

  predicate RowKkt(P: LP, S: Sol, i: int)
    requires i in P.row && Shape(P, S)
  {
    0 <= i < P.m && S.rp[i] == RowAct(P, i, S.cp) && StatusOk(P.row[i], S.rs[i], S.rp[i], S.rd[i])
  }

  /** A presolved problem has no free row, so no row of a solution is free non-basic. */
  lemma KktReduced(P: LP, S: Sol)
    requires Kkt(P, S) && Reduced(P)
    ensures BasicOptimal(P, S)
  {
    hide CleanCol, ColOk, RowAct;
    forall i | i in P.row ensures RowOk(P, S, i) {
      assert RowKkt(P, S, i) && CleanRow(P, i);
    }
  }

  /** A presolved problem loses its last row and its last column together. */
  lemma EmptyTogether(P: LP)
    requires WellFormed(P) && Reduced(P)
    ensures P.row == map[] <==> P.col == map[]
  {
    MapInhabited(P.row);
    MapInhabited(P.col);
    if j :| j in P.col {
      assert CleanCol(P, j);
      var k :| k in P.a && k.1 == j;
      var (k0, k1) := k;
      assert k0 in P.row;
    }
    if i :| i in P.row {
      assert CleanRow(P, i);
      var k :| k in P.a && k.0 == i;
      var (k0, k1) := k;
      assert k1 in P.col;
    }
  }

  // ----- renumbering

  ghost predicate Lists(r: seq<int>, D: set<int>) {
    NoDup(r) && forall i :: i in r <==> i in D
  }

  /** lpp_build_prob: rows and columns numbered by their position in the lists of reference numbers. */
  function Build(P: LP, rr: seq<int>, cr: seq<int>): LP {
    LP(|rr|, |cr|,
       BuildRows(P.row, rr),
       BuildCols(P.col, cr),
       BuildMatrix(P.a, rr, cr),
       P.c0)
  }

  function BuildRows(row: map<int, Range>, rr: seq<int>): map<int, Range> {
    map i | 0 <= i < |rr| && rr[i] in row :: row[rr[i]]
  }

  function BuildCols(col: map<int, Column>, cr: seq<int>): map<int, Column> {
    map j | 0 <= j < |cr| && cr[j] in col :: col[cr[j]]
  }

  function BuildMatrix(a: Matrix, rr: seq<int>, cr: seq<int>): Matrix {
    map i, j | 0 <= i < |rr| && 0 <= j < |cr| && (rr[i], cr[j]) in a :: (i, j) := a[(rr[i], cr[j])]
  }

  lemma BuildMatrixAt(a: Matrix, rr: seq<int>, cr: seq<int>, i: int, j: int)
    requires 0 <= i < |rr| && 0 <= j < |cr|
    ensures (i, j) in BuildMatrix(a, rr, cr) <==> (rr[i], cr[j]) in a
    ensures (i, j) in BuildMatrix(a, rr, cr) ==> BuildMatrix(a, rr, cr)[(i, j)] == a[(rr[i], cr[j])]
  {
  }

  lemma BuildAt(P: LP, rr: seq<int>, cr: seq<int>, i: int, j: int)
    requires 0 <= i < |rr| && 0 <= j < |cr|
    ensures At(Build(P, rr, cr).a, i, j) == At(P.a, rr[i], cr[j])
  {
    hide BuildMatrix, BuildCols;
    BuildMatrixAt(P.a, rr, cr, i, j);
  }

  lemma {:induction false} ListsSize(r: seq<int>, D: set<int>)
    requires Lists(r, D)
    ensures |r| == |D|
  {
    if r == [] {
      SameSet(D, {});
    } else {
      var x, s := r[|r| - 1], r[..|r| - 1];
      assert r == s + [x];
      assert x !in s;
      assert forall i :: i in s <==> i in D - {x};
      ListsSize(s, D - {x});
    }
  }

  function Through(f: int -> real, r: seq<int>): int -> real {
    (k: int) => if 0 <= k < |r| then f(r[k]) else 0.0
  }

  ghost function Firsts(r: seq<int>, k: nat): set<int>
    requires k <= |r|
  {
    set i | i in r[..k]
  }

  lemma {:induction false} SumThrough(f: int -> real, n: nat, r: seq<int>, k: nat)
    requires NoDup(r) && k <= |r| && forall i :: i in r ==> 0 <= i < n
    ensures Sum(Through(f, r), k) == SumPart(f, n, Firsts(r, k))
  {
    hide SumPart;
    if k == 0 {
      SumPartNone(f, n);
      assert Firsts(r, 0) == {};
    } else {
      SumThrough(f, n, r, k - 1);
      assert r[k - 1] in r && r[..k] == r[..k - 1] + [r[k - 1]];
      assert r[k - 1] !in r[..k - 1];
      SumPartStep(f, n, Firsts(r, k - 1), r[k - 1]);
      assert Firsts(r, k) == Firsts(r, k - 1) + {r[k - 1]};
    }
  }

  /** A sum over all reference numbers is the sum over the listed ones, if nothing else contributes. */
  lemma SumListed(f: int -> real, n: nat, r: seq<int>, D: set<int>, g: int -> real)
    requires Lists(r, D) && forall i :: i in D ==> 0 <= i < n
    requires forall i :: 0 <= i < n && i !in D ==> f(i) == 0.0
    requires forall k :: 0 <= k < |r| ==> g(k) == f(r[k])
    ensures Sum(g, |r|) == Sum(f, n)
  {
    hide SumPart;
    SumThrough(f, n, r, |r|);
    assert r[..|r|] == r;
    SameSet(Firsts(r, |r|), D);
    SumPartAll(f, n, D);
    SumCong(g, Through(f, r), |r|);
  }

  ghost predicate Spread<T(!new)>(s: seq<T>, r: seq<int>, t: seq<T>) {
    |s| == |r| && forall k :: 0 <= k < |r| ==> 0 <= r[k] < |t| && t[r[k]] == s[k]
  }

  ghost predicate Refs(P: LP, rr: seq<int>, cr: seq<int>) {
    WellFormed(P) && Lists(rr, P.row.Keys) && Lists(cr, P.col.Keys)
  }

  lemma SpreadVal(x: seq<real>, r: seq<int>, z: seq<real>, k: int)
    requires Spread(x, r, z) && 0 <= k < |r|
    ensures Val(x, k) == Val(z, r[k])
  {
  }

  lemma BuildRowF(P: LP, rr: seq<int>, cr: seq<int>, i: int, x: seq<real>, z: seq<real>, k: int)
    requires 0 <= i < |rr| && 0 <= k < |cr| && Spread(x, cr, z)
    ensures RowF(Build(P, rr, cr).a, i, x)(k) == RowF(P.a, rr[i], z)(cr[k])
  {
    hide Build, At, Val;
    BuildAt(P, rr, cr, i, k);
    SpreadVal(x, cr, z, k);
  }

  lemma BuildColF(P: LP, rr: seq<int>, cr: seq<int>, j: int, x: seq<real>, z: seq<real>, k: int)
    requires 0 <= j < |cr| && 0 <= k < |rr| && Spread(x, rr, z)
    ensures ColF(Build(P, rr, cr).a, j, x)(k) == ColF(P.a, cr[j], z)(rr[k])
  {
    hide Build, At, Val;
    BuildAt(P, rr, cr, k, j);
    SpreadVal(x, rr, z, k);
  }

  lemma ColKeysBound(P: LP)
    requires WellFormed(P)
    ensures forall j :: j in P.col.Keys ==> 0 <= j < P.n
    ensures forall i :: i in P.row.Keys ==> 0 <= i < P.m
  {
  }

  lemma RowFOutside(P: LP, i: int, z: seq<real>, j: int)
    requires WellFormed(P) && j !in P.col.Keys
    ensures RowF(P.a, i, z)(j) == 0.0
  {
  }

  lemma ColFOutside(P: LP, j: int, z: seq<real>, i: int)
    requires WellFormed(P) && i !in P.row.Keys
    ensures ColF(P.a, j, z)(i) == 0.0
  {
  }

  lemma BuildRowAct(P: LP, rr: seq<int>, cr: seq<int>, i: int, x: seq<real>, z: seq<real>)
    requires Refs(P, rr, cr) && 0 <= i < |rr| && Spread(x, cr, z) && |z| == P.n
    ensures RowAct(Build(P, rr, cr), i, x) == RowAct(P, rr[i], z)
  {
    hide RowF, WellFormed, Lists, Spread;
    var f, g := RowF(P.a, rr[i], z), RowF(Build(P, rr, cr).a, i, x);
    forall k | 0 <= k < |cr| ensures g(k) == f(cr[k]) {
      BuildRowF(P, rr, cr, i, x, z, k);
    }
    forall j | 0 <= j < P.n && j !in P.col.Keys ensures f(j) == 0.0 {
      RowFOutside(P, rr[i], z, j);
    }
    ColKeysBound(P);
    SumListed(f, P.n, cr, P.col.Keys, g);
  }

  lemma BuildColAct(P: LP, rr: seq<int>, cr: seq<int>, j: int, x: seq<real>, z: seq<real>)
    requires Refs(P, rr, cr) && 0 <= j < |cr| && Spread(x, rr, z) && |z| == P.m
    ensures ColAct(Build(P, rr, cr), j, x) == ColAct(P, cr[j], z)
  {
    hide ColF, WellFormed, Lists, Spread;
    var f, g := ColF(P.a, cr[j], z), ColF(Build(P, rr, cr).a, j, x);
    forall k | 0 <= k < |rr| ensures g(k) == f(rr[k]) {
      BuildColF(P, rr, cr, j, x, z, k);
    }
    forall i | 0 <= i < P.m && i !in P.row.Keys ensures f(i) == 0.0 {
      ColFOutside(P, cr[j], z, i);
    }
    ColKeysBound(P);
    SumListed(f, P.m, rr, P.row.Keys, g);
  }

  lemma BuildCostF(P: LP, rr: seq<int>, cr: seq<int>, x: seq<real>, z: seq<real>, k: int)
    requires 0 <= k < |cr| && Spread(x, cr, z) && cr[k] in P.col
    ensures CostF(Build(P, rr, cr).col, x)(k) == CostF(P.col, z)(cr[k])
  {
    hide Val, CostAt, Build;
    SpreadVal(x, cr, z, k);
    BuildCostAt(P, rr, cr, k);
  }

  lemma BuildCostAt(P: LP, rr: seq<int>, cr: seq<int>, k: int)
    requires 0 <= k < |cr| && cr[k] in P.col
    ensures CostAt(Build(P, rr, cr).col, k) == CostAt(P.col, cr[k])
  {
    hide BuildMatrix;
  }

  lemma BuildCost(P: LP, rr: seq<int>, cr: seq<int>, x: seq<real>, z: seq<real>)
    requires Refs(P, rr, cr) && Spread(x, cr, z) && |z| == P.n
    ensures Obj(Build(P, rr, cr), x) == Obj(P, z)
  {
    var f, g := CostF(P.col, z), CostF(Build(P, rr, cr).col, x);
    ListedCost(P, rr, cr, x, z);
    ColKeysBound(P);
    hide CostF, WellFormed, Spread;
    SumListed(f, P.n, cr, P.col.Keys, g);
  }

  lemma ListedCost(P: LP, rr: seq<int>, cr: seq<int>, x: seq<real>, z: seq<real>)
    requires Lists(cr, P.col.Keys) && Spread(x, cr, z)
    ensures forall k :: 0 <= k < |cr| ==> CostF(Build(P, rr, cr).col, x)(k) == CostF(P.col, z)(cr[k])
    ensures forall j :: j !in P.col.Keys ==> CostF(P.col, z)(j) == 0.0
  {
    forall k | 0 <= k < |cr| ensures CostF(Build(P, rr, cr).col, x)(k) == CostF(P.col, z)(cr[k]) {
      assert cr[k] in cr;
      BuildCostF(P, rr, cr, x, z, k);
    }
  }

  ghost predicate SpreadSol(S: Sol, rr: seq<int>, cr: seq<int>, T: Sol) {
    && Spread(S.rs, rr, T.rs) && Spread(S.rp, rr, T.rp) && Spread(S.rd, rr, T.rd)
    && Spread(S.cs, cr, T.cs) && Spread(S.cp, cr, T.cp) && Spread(S.cd, cr, T.cd)
  }

  lemma LoadedRow(P: LP, rr: seq<int>, cr: seq<int>, S: Sol, T: Sol, i: int)
    requires Refs(P, rr, cr) && Kkt(Build(P, rr, cr), S) && SpreadSol(S, rr, cr, T) && Shape(P, T) && i in P.row
    ensures RowKkt(P, T, i)
  {
    hide RowAct, StatusOk, ColOk;
    var k :| 0 <= k < |rr| && rr[k] == i;
    assert k in Build(P, rr, cr).row;
    assert RowKkt(Build(P, rr, cr), S, k);
    BuildRowAct(P, rr, cr, k, S.cp, T.cp);
  }

  lemma LoadedCol(P: LP, rr: seq<int>, cr: seq<int>, S: Sol, T: Sol, j: int)
    requires Refs(P, rr, cr) && Kkt(Build(P, rr, cr), S) && SpreadSol(S, rr, cr, T) && Shape(P, T) && j in P.col
    ensures ColOk(P, T, j)
  {
    hide ColAct, StatusOk, RowKkt;
    var k :| 0 <= k < |cr| && cr[k] == j;
    assert k in Build(P, rr, cr).col;
    assert ColOk(Build(P, rr, cr), S, k);
    BuildColAct(P, rr, cr, k, S.rd, T.rd);
  }

  lemma ListsIn(r: seq<int>, D: set<int>, k: int, i: int)
    requires Lists(r, D) && 0 <= k < |r| && i == r[k]
    ensures i in D
  {
    assert i in r;
  }

  lemma BuildRowsAt(row: map<int, Range>, rr: seq<int>, k: int)
    requires 0 <= k < |rr| && rr[k] in row
    ensures k in BuildRows(row, rr)
  {
  }

  lemma BuildRowDomain(P: LP, rr: seq<int>, cr: seq<int>, k: int)
    requires Lists(rr, P.row.Keys)
    ensures k in Build(P, rr, cr).row.Keys <==> 0 <= k < |rr|
  {
    hide BuildMatrix, BuildCols, Lists;
    if 0 <= k < |rr| {
      ListsIn(rr, P.row.Keys, k, rr[k]);
      BuildRowsAt(P.row, rr, k);
    }
  }

  lemma BuildRowKeys(P: LP, rr: seq<int>, cr: seq<int>)
    requires Refs(P, rr, cr)
    ensures |Build(P, rr, cr).row.Keys| == |P.row.Keys|
  {
    hide Build;
    var D := Build(P, rr, cr).row.Keys;
    var r := seq(|rr|, (k: int) => k);
    forall k ensures k in D <==> k in r {
      BuildRowDomain(P, rr, cr, k);
      if 0 <= k < |rr| {
        assert r[k] == k;
      }
    }
    ListsSize(r, D);
    ListsSize(rr, P.row.Keys);
  }

  /** An optimal basic solution of the built problem is one of the presolved problem under reference numbers. */
  lemma LoadedKkt(P: LP, rr: seq<int>, cr: seq<int>, S: Sol, T: Sol)
    requires Refs(P, rr, cr) && Kkt(Build(P, rr, cr), S) && SpreadSol(S, rr, cr, T) && Shape(P, T)
    requires forall i :: 0 <= i < P.m && i !in P.row ==> T.rs[i] == Unset
    requires forall j :: 0 <= j < P.n && j !in P.col ==> T.cs[j] == Unset
    requires CountBS(T.rs) == CountBS(S.rs) && CountBS(T.cs) == CountBS(S.cs)
    ensures Kkt(P, T)
  {
    hide RowKkt, ColOk, SpreadSol, Refs;
    forall i | i in P.row ensures RowKkt(P, T, i) {
      LoadedRow(P, rr, cr, S, T, i);
    }
    forall j | j in P.col ensures ColOk(P, T, j) {
      LoadedCol(P, rr, cr, S, T, j);
    }
    BuildRowKeys(P, rr, cr);
  }

  /** The basis does not depend on the numbering either. */
  lemma LoadedBasis(P: LP, rr: seq<int>, cr: seq<int>, S: Sol, T: Sol)
    requires Refs(P, rr, cr) && Nonsingular(Build(P, rr, cr), S) && SpreadSol(S, rr, cr, T)
    ensures Nonsingular(P, T)
  {
    hide RowAct, Refs, SpreadSol, Spread, Nonsingular;
    forall x | Kernel(P, T, x) ensures forall j :: 0 <= j < |x| ==> x[j] == 0.0 {
      var y := Gather(x, cr);
      LoadedKernel(P, rr, cr, S, T, x);
      forall j | 0 <= j < |x| ensures x[j] == 0.0 {
        if j in P.col {
          var k := RefPlace(P, rr, cr, j);
          KernelZero(Build(P, rr, cr), S, y, k);
          assert y[k] == Val(x, cr[k]);
        }
      }
    }
    NonsingularIntro(P, T);
  }

  lemma NonsingularIntro(P: LP, T: Sol)
    requires forall x :: Kernel(P, T, x) ==> forall j :: 0 <= j < |x| ==> x[j] == 0.0
    ensures Nonsingular(P, T)
  {
  }

  lemma KernelZero(P: LP, S: Sol, y: seq<real>, k: int)
    requires Nonsingular(P, S) && Kernel(P, S, y) && 0 <= k < |y|
    ensures y[k] == 0.0
  {
  }

  lemma RefPlace(P: LP, rr: seq<int>, cr: seq<int>, j: int) returns (k: int)
    requires Refs(P, rr, cr) && j in P.col
    ensures 0 <= k < |cr| && cr[k] == j
  {
    assert j in cr;
    k :| 0 <= k < |cr| && cr[k] == j;
  }

  lemma LoadedKernel(P: LP, rr: seq<int>, cr: seq<int>, S: Sol, T: Sol, x: seq<real>)
    requires Refs(P, rr, cr) && SpreadSol(S, rr, cr, T) && Kernel(P, T, x)
    ensures Kernel(Build(P, rr, cr), S, Gather(x, cr))
  {
    hide RowAct, BuildMatrix, WellFormed;
    var R, y := Build(P, rr, cr), Gather(x, cr);
    ColKeysBound(P);
    forall k | 0 <= k < |cr| ensures 0 <= cr[k] < |x| && x[cr[k]] == y[k] {
      assert cr[k] in cr;
    }
    forall k | 0 <= k < R.n && !(k in R.col && Basic(S.cs, k)) ensures y[k] == 0.0 {
      assert cr[k] in cr;
    }
    forall k | k in R.row && !Basic(S.rs, k) ensures RowAct(R, k, y) == 0.0 {
      assert rr[k] in rr;
      BuildRowAct(P, rr, cr, k, y, x);
    }
  }

  // ----- loading the solution

  /** `t` holds the first k elements of `s` at their reference numbers; the rest is as in `t0`. */
  ghost predicate SpreadPart<T(!new)>(s: seq<T>, r: seq<int>, k: nat, t0: seq<T>, t: seq<T>) {
    && |s| == |r| && k <= |r| && |t| == |t0|
    && (forall q :: 0 <= q < k ==> 0 <= r[q] < |t| && t[r[q]] == s[q])
    && (forall i :: 0 <= i < |t| && i !in r[..k] ==> t[i] == t0[i])
  }

  lemma SpreadPartStep<T(!new)>(s: seq<T>, r: seq<int>, k: nat, t0: seq<T>, t: seq<T>)
    requires SpreadPart(s, r, k, t0, t) && k < |r| && NoDup(r) && 0 <= r[k] < |t|
    ensures t[r[k]] == t0[r[k]] && SpreadPart(s, r, k + 1, t0, t[r[k] := s[k]])
  {
    assert r[..k + 1] == r[..k] + [r[k]];
    assert r[k] !in r[..k];
  }

  lemma {:induction false} NoneBasic(s: seq<Stat>)
    requires forall i :: 0 <= i < |s| ==> s[i] == Unset
    ensures CountBS(s) == 0
  {
    if s != [] {
      NoneBasic(s[..|s| - 1]);
    }
  }

  lemma CountNext(s: seq<Stat>, k: nat)
    requires k < |s|
    ensures CountBS(s[..k + 1]) == CountBS(s[..k]) + if s[k] == BS then 1 else 0
  {
    assert s[..k + 1][..k] == s[..k];
  }

  /** One loop of lpp_load_sol, for the rows or for the columns. */
  method LoadSide(stat: array<Stat>, prim: array<real>, dual: array<real>,
                  r: seq<int>, s: seq<Stat>, x: seq<real>, d: seq<real>)
    requires stat.Length == prim.Length == dual.Length && prim != dual && |s| == |x| == |d| == |r|
    requires NoDup(r) && forall i :: i in r ==> 0 <= i < stat.Length
    requires forall i :: 0 <= i < stat.Length ==> stat[i] == Unset
    modifies stat, prim, dual
    ensures Spread(s, r, stat[..]) && Spread(x, r, prim[..]) && Spread(d, r, dual[..])
    ensures CountBS(stat[..]) == CountBS(s)
    ensures forall i :: 0 <= i < stat.Length && i !in r ==> stat[i] == Unset
  {
    hide SpreadPart, NoDup, CountBS;
    ghost var s0, x0, d0 := stat[..], prim[..], dual[..];
    SpreadNone(s, r, s0);
    SpreadNone(x, r, x0);
    SpreadNone(d, r, d0);
    NoneBasic(s0);
    CountNone(s[..0]);
    var k := 0;
    while k < |r|
      invariant 0 <= k <= |r|
      invariant SpreadPart(s, r, k, s0, stat[..]) && SpreadPart(x, r, k, x0, prim[..]) && SpreadPart(d, r, k, d0, dual[..])
      invariant CountBS(stat[..]) == CountBS(s[..k])
    {
      var ref := r[k];
      assert r[k] in r;
      SpreadPartStep(s, r, k, s0, stat[..]);
      SpreadPartStep(x, r, k, x0, prim[..]);
      SpreadPartStep(d, r, k, d0, dual[..]);
      assert stat[ref] == Unset;
      CountUpdate(stat[..], ref, s[k]);
      CountNext(s, k);
      stat[ref] := s[k];
      prim[ref] := x[k];
      dual[ref] := d[k];
      k := k + 1;
    }
    assert s[..|r|] == s;
    SpreadDone(s, r, s0, stat[..]);
    SpreadDone(x, r, x0, prim[..]);
    SpreadDone(d, r, d0, dual[..]);
  }

  lemma CountNone(s: seq<Stat>)
    requires s == []
    ensures CountBS(s) == 0
  {
  }

  lemma SpreadNone<T(!new)>(s: seq<T>, r: seq<int>, t0: seq<T>)
    requires |s| == |r|
    ensures SpreadPart(s, r, 0, t0, t0)
  {
  }

  lemma SpreadDone<T(!new)>(s: seq<T>, r: seq<int>, t0: seq<T>, t: seq<T>)
    requires SpreadPart(s, r, |r|, t0, t)
    ensures Spread(s, r, t) && |t| == |t0| && forall i :: 0 <= i < |t| && i !in r ==> t[i] == t0[i]
  {
    assert r[..|r|] == r;
  }

  /** lpp_load_sol */
  method LoadSol(sol: Recovered, ghost P: LP, rr: seq<int>, cr: seq<int>, S: Sol)
    requires sol.Valid() && sol.rowStat.Length == P.m && sol.colStat.Length == P.n
    requires forall i :: 0 <= i < sol.rowStat.Length ==> sol.rowStat[i] == Unset
    requires forall j :: 0 <= j < sol.colStat.Length ==> sol.colStat[j] == Unset
    requires Refs(P, rr, cr) && Kkt(Build(P, rr, cr), S)
    modifies sol.Arrays()
    ensures Kkt(P, sol.Now()) && Obj(P, sol.colPrim[..]) == Obj(Build(P, rr, cr), S.cp)
    ensures Nonsingular(Build(P, rr, cr), S) ==> Nonsingular(P, sol.Now())
  {
    hide Spread, RowKkt, ColOk, CountBS, WellFormed, Obj, Nonsingular;
    ColKeysBound(P);
    LoadSide(sol.rowStat, sol.rowPrim, sol.rowDual, rr, S.rs, S.rp, S.rd);
    LoadSide(sol.colStat, sol.colPrim, sol.colDual, cr, S.cs, S.cp, S.cd);
    LoadedKkt(P, rr, cr, S, sol.Now());
    if Nonsingular(Build(P, rr, cr), S) {
      LoadedBasis(P, rr, cr, S, sol.Now());
    }
    BuildCost(P, rr, cr, S.cp, sol.colPrim[..]);
  }

  // ----- unloading the solution

  /** The check of lpp_unload_sol: a non-basic status fits the type of the variable. */
  predicate Conforms(r: Range, st: Stat) {
    st == BS ||
    if r.Free() then st == NF
    else if r.Fixed() then st == NS
    else if r.ub.Inf? then st == NL
    else if r.lb.Inf? then st == NU
    else st == NL || st == NU
  }

  /** Every row and column of the problem as it was loaded is present. */
  predicate Complete(P: LP) {
    && (forall i :: 0 <= i < P.m ==> i in P.row)
    && (forall j :: 0 <= j < P.n ==> j in P.col)
  }

  function RangeOf(P: LP, k: int): Range
    requires Complete(P) && 0 <= k < P.m + P.n
  {
    if k < P.m then P.row[k] else P.col[k - P.m].rng
  }

  lemma TagsConform(P: LP, S: Sol, k: int)
    requires Complete(P) && BasicOptimal(P, S) && 0 <= k < P.m + P.n
    ensures Conforms(RangeOf(P, k), (S.rs + S.cs)[k])
  {
    hide RowAct, ColAct;
    if k < P.m {
      assert RowOk(P, S, k);
    } else {
      assert ColOk(P, S, k - P.m);
    }
  }

  lemma {:induction false} CountConcat(s: seq<Stat>, t: seq<Stat>)
    ensures CountBS(s + t) == CountBS(s) + CountBS(t)
  {
    if t == [] {
      assert s + t == s;
    } else {
      assert (s + t)[..|s + t| - 1] == s + t[..|t| - 1];
      CountConcat(s, t[..|t| - 1]);
    }
  }

  lemma RowsOf(P: LP)
    requires WellFormed(P) && Complete(P)
    ensures |P.row.Keys| == P.m
  {
    var r := seq(P.m, (k: int) => k);
    forall i | i in P.row.Keys ensures i in r {
      assert r[i] == i;
    }
    ListsSize(r, P.row.Keys);
  }

  /** Counts of a prefix stay within the counts of the whole. */
  lemma {:induction false} CountPrefix(s: seq<Stat>, k: nat)
    requires k <= |s|
    ensures CountBS(s[..k]) <= CountBS(s) && k - CountBS(s[..k]) <= |s| - CountBS(s)
    decreases |s| - k
  {
    if k == |s| {
      assert s[..k] == s;
    } else {
      CountNext(s, k);
      CountPrefix(s, k + 1);
    }
  }

  /** Positions below m belong to the basic variables, the others to the non-basic ones, and `indx` inverts `posx`. */
  ghost predicate Positions(tags: seq<Stat>, m: nat, posx: seq<int>, indx: seq<int>, k: nat, i: nat, j: nat) {
    && k <= |tags| && m <= |tags| && |posx| == |indx| == |tags| && i <= m && m + j <= |tags|
    && (forall q :: 0 <= q < k ==>
          && (if tags[q] == BS then 0 <= posx[q] < i else m <= posx[q] < m + j)
          && indx[posx[q]] == q)
    && (forall p :: 0 <= p < i || m <= p < m + j ==> 0 <= indx[p] < k && posx[indx[p]] == p)
  }

  lemma NextBasic(tags: seq<Stat>, m: nat, posx: seq<int>, indx: seq<int>, k: nat, i: nat, j: nat)
    requires Positions(tags, m, posx, indx, k, i, j) && k < |tags| && tags[k] == BS && i < m
    ensures Positions(tags, m, posx[k := i], indx[i := k], k + 1, i + 1, j)
  {
  }

  lemma NextNonBasic(tags: seq<Stat>, m: nat, posx: seq<int>, indx: seq<int>, k: nat, i: nat, j: nat)
    requires Positions(tags, m, posx, indx, k, i, j) && k < |tags| && tags[k] != BS && m + j < |tags|
    ensures Positions(tags, m, posx[k := m + j], indx[m + j := k], k + 1, i, j + 1)
  {
  }

  lemma NoPositions(tags: seq<Stat>, m: nat, posx: seq<int>, indx: seq<int>)
    requires m <= |tags| == |posx| == |indx|
    ensures Positions(tags, m, posx, indx, 0, 0, 0)
  {
  }

  /** The loop of lpp_unload_sol that builds posx and indx from the recovered statuses. */
  method NumberBasis(tags: seq<Stat>, m: nat) returns (posx: array<int>, indx: array<int>)
    requires m <= |tags| && CountBS(tags) == m
    ensures posx.Length == indx.Length == |tags|
    ensures Positions(tags, m, posx[..], indx[..], |tags|, m, |tags| - m)
  {
    hide CountBS, Positions;
    posx, indx := new int[|tags|], new int[|tags|];
    var k, i, j := 0, 0, 0;
    CountNone(tags[..0]);
    NoPositions(tags, m, posx[..], indx[..]);
    while k < |tags|
      invariant 0 <= k <= |tags| && i == CountBS(tags[..k]) && i + j == k && 0 <= i <= m && 0 <= j <= |tags| - m
      invariant Positions(tags, m, posx[..], indx[..], k, i, j)
    {
      CountNext(tags, k);
      CountPrefix(tags, k + 1);
      if tags[k] == BS {
        NextBasic(tags, m, posx[..], indx[..], k, i, j);
        posx[k] := i;
        indx[i] := k;
        i := i + 1;
      } else {
        NextNonBasic(tags, m, posx[..], indx[..], k, i, j);
        posx[k] := m + j;
        indx[m + j] := k;
        j := j + 1;
      }
      k := k + 1;
    }
    assert tags[..|tags|] == tags;
  }

  /** The two insist conditions of lpp_unload_sol hold of every recovered solution. */
  lemma UnloadChecks(P: LP, S: Sol)
    requires WellFormed(P) && Complete(P) && BasicOptimal(P, S)
    ensures forall k :: 0 <= k < P.m + P.n ==> Conforms(RangeOf(P, k), (S.rs + S.cs)[k])
    ensures CountBS(S.rs + S.cs) == P.m
  {
    forall k | 0 <= k < P.m + P.n ensures Conforms(RangeOf(P, k), (S.rs + S.cs)[k]) {
      TagsConform(P, S, k);
    }
    CountConcat(S.rs, S.cs);
    RowsOf(P);
  }

  // ----- the driver

  /** What simplex1 says about the problem it was given. */
  datatype Outcome = Solved(sol: Sol) | NoPrimal | NoDual | GaveUp

  datatype Ret = Ok | Fault | NoPfs | NoDfs | Failed

  ghost predicate Truthful(R: LP, o: Outcome) {
    match o
    case Solved(S) => Kkt(R, S) && Nonsingular(R, S)
    case NoPrimal => Infeasible(R)
    case NoDual => NoOptimum(R) && !DualFeasible(R)
    case GaveUp => true
  }

  predicate BoundsOk(P: LP) {
    (forall i <- P.row :: P.row[i].Ordered()) && (forall j <- P.col :: P.col[j].rng.Ordered())
  }

  predicate MatrixOk(P: LP) {
    && (forall i <- P.row :: 0 <= i < P.m) && (forall j <- P.col :: 0 <= j < P.n)
    && (forall k <- P.a :: k.0 in P.row && k.1 in P.col && P.a[k] != 0.0)
  }

  method Enumerate(D: set<int>) returns (r: seq<int>)
    ensures Lists(r, D)
  {
    var todo := D;
    r := [];
    while todo != {}
      invariant todo <= D && NoDup(r) && forall i :: i in r <==> i in D && i !in todo
      decreases |todo|
    {
      Inhabited(todo);
      var i :| i in todo;
      r := r + [i];
      todo := todo - {i};
    }
  }

  lemma LoadedWellFormed(P: LP)
    requires BoundsOk(P) && MatrixOk(P)
    ensures WellFormed(P)
  {
    forall i, j | (i, j) in P.a ensures i in P.row && j in P.col && P.a[(i, j)] != 0.0 {
      assert (i, j).0 == i && (i, j).1 == j;
    }
  }

  /** The empty solution of an empty problem. */
  lemma EmptyKkt(P: LP, S: Sol)
    requires P.row == map[] && P.col == map[] && Shape(P, S)
    requires forall i :: 0 <= i < P.m ==> S.rs[i] == Unset
    requires forall j :: 0 <= j < P.n ==> S.cs[j] == Unset
    ensures Kkt(P, S) && Obj(P, S.cp) == P.c0
  {
    NoneBasic(S.rs);
    NoneBasic(S.cs);
    SumZero(CostF(P.col, S.cp), P.n);
  }

  lemma EmptyBasis(P: LP, S: Sol)
    requires P.row == map[] && P.col == map[]
    ensures Nonsingular(P, S)
  {
  }

  lemma BuildRow(P: LP, rr: seq<int>, cr: seq<int>, k: int)
    requires Lists(rr, P.row.Keys) && 0 <= k < |rr|
    ensures var R := Build(P, rr, cr); rr[k] in P.row && k in R.row && R.row[k] == P.row[rr[k]]
  {
    ListsIn(rr, P.row.Keys, k, rr[k]);
  }

  lemma BuildCol(P: LP, rr: seq<int>, cr: seq<int>, k: int)
    requires Lists(cr, P.col.Keys) && 0 <= k < |cr|
    ensures var R := Build(P, rr, cr); cr[k] in P.col && k in R.col && R.col[k] == P.col[cr[k]]
  {
    ListsIn(cr, P.col.Keys, k, cr[k]);
  }

  lemma BuildNumbers(P: LP, rr: seq<int>, cr: seq<int>)
    ensures var R := Build(P, rr, cr);
            R.m == |rr| && R.n == |cr| && (forall k :: k in R.row ==> 0 <= k < |rr|) && forall k :: k in R.col ==> 0 <= k < |cr|
  {
  }

  lemma BuildFeasibleIn(P: LP, rr: seq<int>, cr: seq<int>, x: seq<real>, z: seq<real>)
    requires Refs(P, rr, cr) && Spread(x, cr, z) && |z| == P.n && Feasible(P, z)
    ensures Feasible(Build(P, rr, cr), x)
  {
    hide RowAct, WellFormed, Build, Lists, Val;
    var R := Build(P, rr, cr);
    BuildNumbers(P, rr, cr);
    forall k | k in R.row ensures R.row[k].Holds(RowAct(R, k, x)) {
      BuildRow(P, rr, cr, k);
      BuildRowAct(P, rr, cr, k, x, z);
    }
    forall k | k in R.col ensures R.col[k].rng.Holds(Val(x, k)) {
      BuildCol(P, rr, cr, k);
      SpreadVal(x, cr, z, k);
    }
  }

  lemma BuildFeasibleOut(P: LP, rr: seq<int>, cr: seq<int>, x: seq<real>, z: seq<real>)
    requires Refs(P, rr, cr) && Spread(x, cr, z) && |z| == P.n && Feasible(Build(P, rr, cr), x)
    ensures Feasible(P, z)
  {
    hide RowAct, WellFormed, Build, Lists, Val;
    var R := Build(P, rr, cr);
    forall i | i in P.row ensures P.row[i].Holds(RowAct(P, i, z)) {
      var k := ListedAt(rr, P.row.Keys, i);
      BuildRow(P, rr, cr, k);
      BuildRowAct(P, rr, cr, k, x, z);
    }
    forall j | j in P.col ensures P.col[j].rng.Holds(Val(z, j)) {
      var k := ListedAt(cr, P.col.Keys, j);
      BuildCol(P, rr, cr, k);
      SpreadVal(x, cr, z, k);
    }
  }

  ghost function ListedAt(r: seq<int>, D: set<int>, i: int): (k: int)
    requires Lists(r, D) && i in D
    ensures 0 <= k < |r| && r[k] == i
  {
    PlaceOf(r, i)
  }

  ghost function Gather(z: seq<real>, r: seq<int>): seq<real> {
    seq(|r|, (k: int) => if 0 <= k < |r| then Val(z, r[k]) else 0.0)
  }

  ghost function Scatter(x: seq<real>, r: seq<int>, n: nat): seq<real>
    requires |x| == |r|
  {
    seq(n, (i: int) => if i in r then x[PlaceOf(r, i)] else 0.0)
  }

  ghost function PlaceOf(r: seq<int>, i: int): (k: int)
    requires i in r
    ensures 0 <= k < |r| && r[k] == i
  {
    var k :| 0 <= k < |r| && r[k] == i;
    k
  }

  lemma ScatterSpread(x: seq<real>, r: seq<int>, n: nat)
    requires |x| == |r| && NoDup(r) && forall i :: i in r ==> 0 <= i < n
    ensures Spread(x, r, Scatter(x, r, n)) && |Scatter(x, r, n)| == n
  {
    forall k | 0 <= k < |r| ensures 0 <= r[k] < n && Scatter(x, r, n)[r[k]] == x[k] {
      assert r[k] in r;
    }
  }

  /** Optima, infeasibility and unboundedness do not depend on the numbering of rows and columns. */
  lemma BuildEquivalent(P: LP, rr: seq<int>, cr: seq<int>)
    requires Refs(P, rr, cr)
    ensures Equivalent(P, Build(P, rr, cr))
  {
    hide Feasible, Obj, WellFormed, Build;
    var R := Build(P, rr, cr);
    ColKeysBound(P);
    forall z | Feasible(P, z) ensures exists x :: Feasible(R, x) && Obj(R, x) <= Obj(P, z) {
      var x := Gather(z, cr);
      FeasibleSize(P, z);
      assert Spread(x, cr, z) by {
        forall k | 0 <= k < |cr| ensures 0 <= cr[k] < |z| && z[cr[k]] == x[k] {
          assert cr[k] in cr;
        }
      }
      BuildFeasibleIn(P, rr, cr, x, z);
      BuildCost(P, rr, cr, x, z);
    }
    forall x | Feasible(R, x) ensures exists z :: Feasible(P, z) && Obj(P, z) <= Obj(R, x) {
      FeasibleSize(R, x);
      BuildSize(P, rr, cr);
      var z := Scatter(x, cr, P.n);
      ScatterSpread(x, cr, P.n);
      BuildFeasibleOut(P, rr, cr, x, z);
      BuildCost(P, rr, cr, x, z);
    }
  }

  /** Renumbering keeps multipliers. */
  lemma BuildDual(P: LP, rr: seq<int>, cr: seq<int>)
    requires Refs(P, rr, cr)
    ensures KeepsDual(P, Build(P, rr, cr))
  {
    hide WellFormed, Build, Lists, Multipliers, Price;
    var R := Build(P, rr, cr);
    if y :| Multipliers(P, y) {
      MultiplierAt(P, y, 0, 0);
      var x := Gather(y, rr);
      RowKeysBound(P, rr, cr, y);
      BuildMultipliers(P, rr, cr, x, y);
    }
  }

  lemma RowKeysBound(P: LP, rr: seq<int>, cr: seq<int>, y: seq<real>)
    requires Refs(P, rr, cr) && |y| == P.m
    ensures Spread(Gather(y, rr), rr, y)
  {
    var x := Gather(y, rr);
    forall k | 0 <= k < |rr| ensures 0 <= rr[k] < |y| && y[rr[k]] == x[k] {
      assert rr[k] in rr;
    }
  }

  lemma BuildMultipliers(P: LP, rr: seq<int>, cr: seq<int>, x: seq<real>, y: seq<real>)
    requires Refs(P, rr, cr) && Multipliers(P, y) && |y| == P.m && |x| == |rr| && Spread(x, rr, y)
    ensures Multipliers(Build(P, rr, cr), x)
  {
    hide WellFormed, Build, Lists, ColAct, Spread;
    var R := Build(P, rr, cr);
    BuildNumbers(P, rr, cr);
    forall k | k in R.row ensures Allows(R.row[k], Val(x, k)) {
      BuildRow(P, rr, cr, k);
      SpreadVal(x, rr, y, k);
    }
    forall k | k in R.col ensures Allows(R.col[k].rng, Price(R, k, x)) {
      BuildCol(P, rr, cr, k);
      BuildColAct(P, rr, cr, k, x, y);
    }
  }

  lemma BuildSize(P: LP, rr: seq<int>, cr: seq<int>)
    ensures Build(P, rr, cr).n == |cr|
  {
  }

  lemma FeasibleSize(P: LP, x: seq<real>)
    requires Feasible(P, x)
    ensures |x| == P.n
  {
  }

  lemma CombineReduces(P: LP, T: seq<Entry>, R: LP, T': seq<Entry>, B: LP)
    requires Reduces(P, T, R, T') && Equivalent(R, B) && KeepsDual(R, B)
    ensures Infeasible(B) ==> Infeasible(P)
    ensures NoOptimum(B) ==> NoOptimum(P)
    ensures DualFeasible(P) ==> DualFeasible(B)
  {
    hide Restores, Infeasible, NoOptimum, Simulates, DualFeasible;
    assert Equivalent(P, R);
    EquivalentOptima(P, R);
    EquivalentOptima(R, B);
  }

  /** A reduced problem solved, postsolved with the whole history: optimal for the problem first loaded. */
  lemma ReplaySolves(P: LP, R: LP, es: seq<Entry>, S: Sol)
    requires WellFormed(P) && WellFormed(R) && Reduces(P, [], R, es) && Reduced(R) && Kkt(R, S)
    ensures Shaped(S) && RecoverAll(es, S).Some?
    ensures var T := RecoverAll(es, S).value;
            && BasicOptimal(P, T) && Optimal(P, T.cp) && Obj(P, T.cp) == Obj(R, S.cp)
            && (Nonsingular(R, S) ==> Nonsingular(P, T))
  {
    hide BasicOptimal, Nonsingular, Kkt, Reduced, Equivalent, RecoverAll, Optimal, WellFormed, Obj;
    KktReduced(R, S);
    assert es[..|es| - 0] == es;
    var T := RecoverAll(es, S).value;
    BasicOptimalIsOptimal(R, S);
    BasicOptimalIsOptimal(P, T);
    EquivalentOptima(P, R);
  }

  /** The part of simplex2 between presolving and postsolving: build the resultant problem, solve it, load the result. */
  method SolveResultant(R: LP, solve: LP -> Outcome, sol: Recovered) returns (o: Outcome, z: real, ghost B: LP)
    requires WellFormed(R) && Reduced(R) && forall B :: Truthful(B, solve(B))
    requires sol.Valid() && sol.rowStat.Length == R.m && sol.colStat.Length == R.n
    requires forall i :: 0 <= i < sol.rowStat.Length ==> sol.rowStat[i] == Unset
    requires forall j :: 0 <= j < sol.colStat.Length ==> sol.colStat[j] == Unset
    modifies sol.Arrays()
    ensures Equivalent(R, B) && KeepsDual(R, B)
    ensures o.Solved? ==> Kkt(R, sol.Now()) && Nonsingular(R, sol.Now()) && z == Obj(R, sol.colPrim[..])
    ensures o.NoPrimal? ==> Infeasible(B)
    ensures o.NoDual? ==> NoOptimum(B) && !DualFeasible(B)
    ensures o.GaveUp? ==> solve(B).GaveUp? && exists rr, cr :: Refs(R, rr, cr) && B == Build(R, rr, cr)
  {
    hide WellFormed, Nonsingular, Kkt, Reduced, Infeasible, NoOptimum, Build, Obj, Refs, Lists, Equivalent, DualFeasible;
    z := 0.0;
    EmptyTogether(R);
    if R.row == map[] || R.col == map[] {
      z, B := R.c0, R;
      o := Solved(Sol([], [], [], [], [], []));
      EquivalentRefl(R);
      EmptyKkt(R, sol.Now());
      EmptyBasis(R, sol.Now());
      return;
    }
    var rr := Enumerate(R.row.Keys);
    var cr := Enumerate(R.col.Keys);
    RefsIntro(R, rr, cr);
    var prob := Build(R, rr, cr);
    B := prob;
    BuildEquivalent(R, rr, cr);
    BuildDual(R, rr, cr);
    o := solve(prob);
    assert Truthful(prob, o);
    if o.Solved? {
      z := ObjValue(prob, o.sol.cp);
      LoadSol(sol, R, rr, cr, o.sol);
    }
  }

  lemma EquivalentRefl(P: LP)
    ensures Equivalent(P, P)
  {
    hide Simulates;
    SimulatesRefl(P);
  }

  /** lpp_postsolve and lpp_unload_sol. */
  method RecoverSolution(P: LP, ghost R: LP, es: seq<Entry>, sol: Recovered)
    returns (S: Sol, posx: array<int>, indx: array<int>)
    requires WellFormed(P) && WellFormed(R) && Reduces(P, [], R, es) && Reduced(R) && Complete(P)
    requires sol.Valid() && Kkt(R, sol.Now()) && Nonsingular(R, sol.Now())
    modifies sol.Arrays()
    ensures Nonsingular(P, S) && BasicOptimal(P, S) && Optimal(P, S.cp) && Obj(P, S.cp) == old(Obj(R, sol.colPrim[..]))
    ensures forall k :: 0 <= k < P.m + P.n ==> Conforms(RangeOf(P, k), (S.rs + S.cs)[k])
    ensures Positions(S.rs + S.cs, P.m, posx[..], indx[..], P.m + P.n, P.m, P.n)
  {
    hide WellFormed, BasicOptimal, Nonsingular, Kkt, Reduced, Reduces, Optimal, RecoverAll, Obj, CountBS, Conforms, RangeOf, Positions;
    ReplaySolves(P, R, es, sol.Now());
    sol.Replay(es);
    S := Sol(sol.rowStat[..], sol.rowPrim[..], sol.rowDual[..], sol.colStat[..], sol.colPrim[..], sol.colDual[..]);
    BasicOptimalSizes(P, S);
    UnloadChecks(P, S);
    posx, indx := NumberBasis(S.rs + S.cs, P.m);
  }

  /** simplex2: the simplex method with presolving, around a solver that tells the truth about what it is given. */
  method Simplex2(P: LP, solve: LP -> Outcome)
    returns (ret: Ret, S: Sol, z: real, posx: array<int>, indx: array<int>, ghost B: LP)
    requires MatrixOk(P) && Complete(P)
    requires forall R :: Truthful(R, solve(R))
    ensures ret == Fault <==> P.m == 0 || P.n == 0 || !BoundsOk(P)
    ensures ret == NoPfs ==> Infeasible(P)
    ensures ret == NoDfs ==> NoOptimum(P) && !DualFeasible(P)
    ensures (forall j :: j in P.col ==> P.col[j].rng.lb.Fin? && P.col[j].rng.ub.Fin?) ==> ret != NoDfs
    ensures ret == Ok ==> BasicOptimal(P, S) && Optimal(P, S.cp) && z == Obj(P, S.cp)
    ensures ret == Ok ==> BasicOptimal(P, S) && forall k :: 0 <= k < P.m + P.n ==> Conforms(RangeOf(P, k), (S.rs + S.cs)[k])
    ensures ret == Ok ==> Positions(S.rs + S.cs, P.m, posx[..], indx[..], P.m + P.n, P.m, P.n)
    ensures ret == Ok ==> Nonsingular(P, S)
    ensures ret == Failed ==> solve(B).GaveUp? && BuiltFrom(P, B)
  {
    hide WellFormed, BasicOptimal, Nonsingular, BuiltFrom, Refs, Build, Kkt, Reduced, Reduces, Optimal, Infeasible, NoOptimum, RecoverAll, Obj,
      Conforms, RangeOf, AllActive, QueuesOk, Positions, Truthful, MatrixOk, BoundsOk, Equivalent, DualFeasible, KeepsDual;
    posx, indx := new int[0], new int[0];
    if forall j :: j in P.col ==> P.col[j].rng.lb.Fin? && P.col[j].rng.ub.Fin? {
      BoxedDual(P);
    }
    S, z, B := Sol([], [], [], [], [], []), 0.0, P;
    if P.m == 0 || P.n == 0 || !BoundsOk(P) {
      ret := Fault;
      return;
    }
    LoadedWellFormed(P);
    var w := LoadOrig(P);
    ghost var run, last;
    var code;
    code, run, last := Presolve(w);
    if code != 0 {
      ret := if code == 1 then NoPfs else NoDfs;
      return;
    }
    var R := LP(w.m, w.n, w.row, w.col, w.a, w.c0);
    ReducesSizes(P, [], R, w.tqe);
    var sol := new Recovered(R.m, R.n);
    var o, v;
    o, v, B := SolveResultant(R, solve, sol);
    CombineReduces(P, [], R, w.tqe, B);
    match o {
      case NoPrimal => ret := NoPfs;
      case NoDual => ret := NoDfs;
      case GaveUp =>
        ret := Failed;
        BuiltFromIntro(P, R, w.tqe, B);
      case Solved(_) =>
        z, ret := v, Ok;
        S, posx, indx := RecoverSolution(P, R, w.tqe, sol);
    }
  }

  /** B is what the presolver leaves of P, with rows and columns renumbered. */
  ghost predicate BuiltFrom(P: LP, B: LP) {
    exists R, es, rr, cr :: Reduces(P, [], R, es) && Reduced(R) && Refs(R, rr, cr) && B == Build(R, rr, cr)
  }

  lemma BuiltFromIntro(P: LP, R: LP, es: seq<Entry>, B: LP)
    requires Reduces(P, [], R, es) && Reduced(R) && exists rr, cr :: Refs(R, rr, cr) && B == Build(R, rr, cr)
    ensures BuiltFrom(P, B)
  {
    hide Reduces, Reduced, Refs, Build;
  }

  function ObjValue(P: LP, x: seq<real>): (v: real)
    ensures v == Obj(P, x)
  {
    Obj(P, x)
  }

  lemma BasicOptimalSizes(P: LP, S: Sol)
    requires BasicOptimal(P, S)
    ensures |S.rs| == P.m && |S.cs| == P.n
  {
  }

  lemma RefsIntro(P: LP, rr: seq<int>, cr: seq<int>)
    requires WellFormed(P) && Lists(rr, P.row.Keys) && Lists(cr, P.col.Keys)
    ensures Refs(P, rr, cr)
  {
  }

  lemma ReducesSizes(P: LP, T: seq<Entry>, R: LP, T': seq<Entry>)
    requires Reduces(P, T, R, T')
    ensures P.m == R.m && P.n == R.n
  {
  }

  /** lpp_load_orig */
  method LoadOrig(P: LP) returns (w: Workspace)
    requires WellFormed(P)
    ensures fresh(w) && w.Valid() && w.Problem() == P && w.tqe == [] && AllActive(w.Now())
  {
    var rr := Enumerate(P.row.Keys);
    var cr := Enumerate(P.col.Keys);
    w := new Workspace(P, rr, cr);
  }
}
