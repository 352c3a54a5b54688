/** Linear programs as the presolver sees them, their feasible points, and basic optimal solutions. */
module LpModel {
  import opened Sums

  datatype Option<+T> = None | Some(value: T)

  /** A bound that may be absent; `Inf` stands for -DBL_MAX on the left and +DBL_MAX on the right. */
  datatype Bound = Inf | Fin(v: real)

  datatype Range = Range(lb: Bound, ub: Bound) {
    predicate Fixed() {
      lb.Fin? && ub.Fin? && lb.v == ub.v
    }

    predicate Free() {
      lb.Inf? && ub.Inf?
    }

    predicate Ordered() {
      lb.Fin? && ub.Fin? ==> lb.v <= ub.v
    }

    predicate Holds(x: real) {
      && (lb.Fin? ==> lb.v <= x)
      && (ub.Fin? ==> x <= ub.v)
    }
  }

  const FREE_RANGE := Range(Inf, Inf)

  datatype Column = Column(rng: Range, c: real)

  type Matrix = map<(int, int), real>

  /** A minimization problem. Rows and columns keep their reference numbers when others are removed:
      `m` and `n` are the sizes of arrays indexed by reference number. */
  datatype LP = LP(m: nat, n: nat, row: map<int, Range>, col: map<int, Column>, a: Matrix, c0: real)

  function At(a: Matrix, i: int, j: int): real {
    if (i, j) in a then a[(i, j)] else 0.0
  }

  function CostAt(col: map<int, Column>, j: int): real {
    if j in col then col[j].c else 0.0
  }

  ghost predicate WellFormed(P: LP) {
    && (forall i :: i in P.row ==> 0 <= i < P.m && P.row[i].Ordered())
    && (forall j :: j in P.col ==> 0 <= j < P.n && P.col[j].rng.Ordered())
    && (forall i, j :: (i, j) in P.a ==> i in P.row && j in P.col && P.a[(i, j)] != 0.0)
  }

  // ----- activities

  function RowF(a: Matrix, i: int, x: seq<real>): int -> real {
    (j: int) => At(a, i, j) * Val(x, j)
  }

  function ColF(a: Matrix, j: int, y: seq<real>): int -> real {
    (i: int) => At(a, i, j) * Val(y, i)
  }

  function CostF(col: map<int, Column>, x: seq<real>): int -> real {
    (j: int) => CostAt(col, j) * Val(x, j)
  }

  /** Value of the auxiliary variable of row `i` at `x`. */
  function RowAct(P: LP, i: int, x: seq<real>): real {
    Sum(RowF(P.a, i, x), P.n)
  }

  /** Scalar product of column `j` with the row multipliers `y`. */
  function ColAct(P: LP, j: int, y: seq<real>): real {
    Sum(ColF(P.a, j, y), P.m)
  }

  function Obj(P: LP, x: seq<real>): real {
    P.c0 + Sum(CostF(P.col, x), P.n)
  }

  ghost predicate Feasible(P: LP, x: seq<real>) {
    && |x| == P.n
    && (forall i :: i in P.row ==> P.row[i].Holds(RowAct(P, i, x)))
    && (forall j :: j in P.col ==> P.col[j].rng.Holds(Val(x, j)))
  }

  ghost predicate Optimal(P: LP, x: seq<real>) {
    Feasible(P, x) && forall z :: Feasible(P, z) ==> Obj(P, x) <= Obj(P, z)
  }

  // ----- basic solutions

  /** Row and column statuses; `Unset` is the code 0 of an item that is not recovered yet. */
  datatype Stat = Unset | BS | NL | NU | NF | NS

  datatype Sol = Sol(rs: seq<Stat>, rp: seq<real>, rd: seq<real>,
                     cs: seq<Stat>, cp: seq<real>, cd: seq<real>)

  /** The status fits the kind of the variable, the primal value is where the status says,
      and the dual value has the sign that optimality demands. */
  predicate StatusOk(r: Range, st: Stat, prim: real, dual: real) {
    && r.Holds(prim)
    && match st
       case Unset => false
       case BS => dual == 0.0
       case NL => r.lb.Fin? && !r.Fixed() && prim == r.lb.v && dual >= 0.0
       case NU => r.ub.Fin? && !r.Fixed() && prim == r.ub.v && dual <= 0.0
       case NF => r.Free() && prim == 0.0 && dual == 0.0
       case NS => r.Fixed()
  }

  predicate Shape(P: LP, S: Sol) {
    && |S.rs| == |S.rp| == |S.rd| == P.m
    && |S.cs| == |S.cp| == |S.cd| == P.n
  }

  predicate RowOk(P: LP, S: Sol, i: int)
    requires i in P.row && Shape(P, S)
  {
    && 0 <= i < P.m
    && S.rp[i] == RowAct(P, i, S.cp)
    && StatusOk(P.row[i], S.rs[i], S.rp[i], S.rd[i])
    && S.rs[i] != NF
  }

  predicate ColOk(P: LP, S: Sol, j: int)
    requires j in P.col && Shape(P, S)
  {
    && 0 <= j < P.n
    && ColAct(P, j, S.rd) + S.cd[j] == P.col[j].c
    && StatusOk(P.col[j].rng, S.cs[j], S.cp[j], S.cd[j])
  }

  function CountBS(s: seq<Stat>): nat {
    if s == [] then 0 else CountBS(s[..|s| - 1]) + if s[|s| - 1] == BS then 1 else 0
  }

  /** `S` solves `P` to optimality with a basis: primal and dual equalities, bounds, dual signs and
      complementarity by status, as many basic variables as rows, no free non-basic row, and exactly
      the rows and columns of `P` recovered. */
  ghost predicate BasicOptimal(P: LP, S: Sol) {
    && Shape(P, S)
    && (forall i :: i in P.row ==> RowOk(P, S, i))
    && (forall j :: j in P.col ==> ColOk(P, S, j))
    && (forall i :: 0 <= i < P.m && i !in P.row ==> S.rs[i] == Unset)
    && (forall j :: 0 <= j < P.n && j !in P.col ==> S.cs[j] == Unset)
    && CountBS(S.rs) + CountBS(S.cs) == |P.row.Keys|
  }

  lemma {:induction false} CountUpdate(s: seq<Stat>, k: int, v: Stat)
    requires 0 <= k < |s|
    ensures CountBS(s[k := v]) == CountBS(s) - (if s[k] == BS then 1 else 0) + (if v == BS then 1 else 0)
  {
    var t := s[k := v];
    if k == |s| - 1 {
      assert t[..|t| - 1] == s[..|s| - 1];
    } else {
      assert t[..|t| - 1] == s[..|s| - 1][k := v];
      CountUpdate(s[..|s| - 1], k, v);
    }
  }

  // ----- optimality of KKT points

  /** Every product of a bounded variable with a multiplier of the right sign is smallest at the solution. */
  lemma StatusMin(r: Range, st: Stat, prim: real, dual: real, z: real)
    requires StatusOk(r, st, prim, dual) && r.Holds(z)
    ensures dual * prim <= dual * z
  {
    match st
    case BS =>
    case NL => MulMono(dual, prim, z);
    case NU => MulMono(-dual, z, prim);
    case NF =>
    case NS => assert prim == z;
  }

  lemma MulMono(c: real, x: real, y: real)
    requires c >= 0.0 && x <= y
    ensures c * x <= c * y
  {
    assert c * (y - x) >= 0.0;
  }

  function RowPart(P: LP, S: Sol, z: seq<real>): int -> real {
    (i: int) => Val(S.rd, i) * RowAct(P, i, z)
  }

  function ColPart(P: LP, S: Sol, z: seq<real>): int -> real {
    (j: int) => if j in P.col then Val(S.cd, j) * Val(z, j) else 0.0
  }

  function CrossF(P: LP, S: Sol, z: seq<real>): (int, int) -> real {
    (i: int, j: int) => At(P.a, i, j) * Val(S.rd, i) * Val(z, j)
  }

  function ColCross(P: LP, S: Sol, z: seq<real>): int -> real {
    (j: int) => ColAct(P, j, S.rd) * Val(z, j)
  }

  lemma ScaleSum(f: int -> real, g: int -> real, c: real, n: nat)
    requires forall k :: 0 <= k < n ==> f(k) == c * g(k)
    ensures Sum(f, n) == c * Sum(g, n)
  {
    var zero := (k: int) => 0.0;
    SumZero(zero, n);
    SumLinear(f, zero, g, c, n);
  }

  lemma MulSwap(x: real, y: real, z: real)
    ensures x * y * z == y * (x * z)
  {
  }

  lemma RowCross(P: LP, S: Sol, z: seq<real>, i: int)
    ensures RowPart(P, S, z)(i) == Sum((j: int) => CrossF(P, S, z)(i, j), P.n)
  {
    var f := (j: int) => CrossF(P, S, z)(i, j);
    var g := RowF(P.a, i, z);
    var c := Val(S.rd, i);
    forall k | 0 <= k < P.n ensures f(k) == c * g(k) {
      assert f(k) == CrossF(P, S, z)(i, k);
      MulSwap(At(P.a, i, k), c, Val(z, k));
    }
    ScaleSum(f, g, c, P.n);
  }

  lemma ColCrossSum(P: LP, S: Sol, z: seq<real>, j: int)
    ensures ColCross(P, S, z)(j) == Sum((i: int) => CrossF(P, S, z)(i, j), P.m)
  {
    var f := (i: int) => CrossF(P, S, z)(i, j);
    var g := ColF(P.a, j, S.rd);
    var c := Val(z, j);
    forall k | 0 <= k < P.m ensures f(k) == c * g(k) {
      assert f(k) == CrossF(P, S, z)(k, j);
    }
    ScaleSum(f, g, c, P.m);
  }

  lemma CostSplit(P: LP, S: Sol, z: seq<real>, j: int)
    requires WellFormed(P) && Shape(P, S)
    requires j in P.col ==> ColOk(P, S, j)
    ensures CostF(P.col, z)(j) == ColCross(P, S, z)(j) + 1.0 * ColPart(P, S, z)(j)
  {
    if j in P.col {
      var l, r, t := ColAct(P, j, S.rd), Val(S.cd, j), Val(z, j);
      assert (l + r) * t == l * t + r * t;
    } else {
      SumZero(ColF(P.a, j, S.rd), P.m);
    }
  }

  lemma CrossExchange(P: LP, S: Sol, z: seq<real>)
    ensures Sum(RowPart(P, S, z), P.m) == Sum(ColCross(P, S, z), P.n)
  {
    hide CrossF, RowPart, ColCross;
    forall i | 0 <= i < P.m
      ensures RowPart(P, S, z)(i) == Sum((j: int) => CrossF(P, S, z)(i, j), P.n)
    {
      RowCross(P, S, z, i);
    }
    forall j | 0 <= j < P.n
      ensures ColCross(P, S, z)(j) == Sum((i: int) => CrossF(P, S, z)(i, j), P.m)
    {
      ColCrossSum(P, S, z, j);
    }
    SumExchange(CrossF(P, S, z), RowPart(P, S, z), ColCross(P, S, z), P.m, P.n);
  }

  /** Lagrangian form of the objective: multipliers times row values plus reduced costs times column values. */
  lemma LagrangeForm(P: LP, S: Sol, z: seq<real>)
    requires WellFormed(P) && Shape(P, S)
    requires forall j :: j in P.col ==> ColOk(P, S, j)
    ensures Obj(P, z) == P.c0 + Sum(RowPart(P, S, z), P.m) + Sum(ColPart(P, S, z), P.n)
  {
    hide CostF, ColCross, ColPart, RowPart;
    CrossExchange(P, S, z);
    forall j | 0 <= j < P.n
      ensures CostF(P.col, z)(j) == ColCross(P, S, z)(j) + 1.0 * ColPart(P, S, z)(j)
    {
      CostSplit(P, S, z, j);
    }
    SumLinear(CostF(P.col, z), ColCross(P, S, z), ColPart(P, S, z), 1.0, P.n);
  }

  lemma StatusTimes(r: Range, st: Stat, prim: real, dual: real, z: real)
    requires StatusOk(r, st, prim, dual) && r.Holds(z)
    ensures Times(dual, prim) <= Times(dual, z)
  {
    StatusMin(r, st, prim, dual, z);
  }

  lemma PartsAt(P: LP, S: Sol, z: seq<real>, k: int)
    ensures RowPart(P, S, z)(k) == Times(Val(S.rd, k), RowAct(P, k, z))
    ensures ColPart(P, S, z)(k) == if k in P.col then Times(Val(S.cd, k), Val(z, k)) else 0.0
  {
  }

  lemma RowPartMin(P: LP, S: Sol, z: seq<real>, i: int)
    requires WellFormed(P) && Shape(P, S)
    requires i in P.row ==> RowOk(P, S, i) && P.row[i].Holds(RowAct(P, i, z))
    ensures RowPart(P, S, S.cp)(i) <= RowPart(P, S, z)(i)
  {
    hide Times, RowPart;
    PartsAt(P, S, S.cp, i);
    PartsAt(P, S, z, i);
    if i in P.row {
      StatusTimes(P.row[i], S.rs[i], S.rp[i], S.rd[i], RowAct(P, i, z));
    } else {
      SumZero(RowF(P.a, i, S.cp), P.n);
      SumZero(RowF(P.a, i, z), P.n);
    }
  }

  lemma ColPartMin(P: LP, S: Sol, z: seq<real>, j: int)
    requires Shape(P, S)
    requires j in P.col ==> ColOk(P, S, j) && P.col[j].rng.Holds(Val(z, j))
    ensures ColPart(P, S, S.cp)(j) <= ColPart(P, S, z)(j)
  {
    hide Times, ColPart;
    PartsAt(P, S, S.cp, j);
    PartsAt(P, S, z, j);
    if j in P.col {
      StatusTimes(P.col[j].rng, S.cs[j], S.cp[j], S.cd[j], Val(z, j));
    }
  }

  lemma NotBelow(P: LP, S: Sol, z: seq<real>)
    requires WellFormed(P) && BasicOptimal(P, S) && Feasible(P, z)
    ensures Obj(P, S.cp) <= Obj(P, z)
  {
    hide RowPart, ColPart, Obj;
    LagrangeForm(P, S, S.cp);
    LagrangeForm(P, S, z);
    forall i | 0 <= i < P.m ensures RowPart(P, S, S.cp)(i) <= RowPart(P, S, z)(i) {
      RowPartMin(P, S, z, i);
    }
    forall j | 0 <= j < P.n ensures ColPart(P, S, S.cp)(j) <= ColPart(P, S, z)(j) {
      ColPartMin(P, S, z, j);
    }
    SumLe(RowPart(P, S, S.cp), RowPart(P, S, z), P.m);
    SumLe(ColPart(P, S, S.cp), ColPart(P, S, z), P.n);
  }

  /** The values of a basic optimal solution minimize the objective over all feasible points. */
  lemma BasicOptimalIsOptimal(P: LP, S: Sol)
    requires WellFormed(P) && BasicOptimal(P, S)
    ensures Optimal(P, S.cp)
  {
    hide RowAct, ColAct, CountBS, WellFormed, Obj;
    forall j | j in P.col ensures P.col[j].rng.Holds(Val(S.cp, j)) {
      assert ColOk(P, S, j);
    }
    forall i | i in P.row ensures P.row[i].Holds(RowAct(P, i, S.cp)) {
      assert RowOk(P, S, i);
    }
    forall z | Feasible(P, z) ensures Obj(P, S.cp) <= Obj(P, z) {
      NotBelow(P, S, z);
    }
  }
}
