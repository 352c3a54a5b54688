/** Problem objects as the user sees them: minimization or maximization, with objective coefficients at rows as well. */
module LpSense {
  import opened Sums
  import opened LpModel
  import opened LpRecover
  import opened LpEquiv
  import opened LpBasis
  import opened LpDual
  import opened LpSimplex

  datatype Sense = Min | Max

  /** The costs of the rows are `rc`; those of the columns and the constant term are in P. */
  datatype Orig = Orig(dir: Sense, P: LP, rc: seq<real>)

  function Prices(rc: seq<real>): Sol {
    Sol([], [], rc, [], [], [])
  }

  /** The objective function with row values substituted by their definition. */
  function FullObj(o: Orig, x: seq<real>): real {
    Obj(o.P, x) + Sum(RowPart(o.P, Prices(o.rc), x), o.P.m)
  }

  ghost predicate Best(o: Orig, x: seq<real>) {
    && Feasible(o.P, x)
    && forall z :: Feasible(o.P, z) ==> if o.dir == Min then FullObj(o, x) <= FullObj(o, z) else FullObj(o, x) >= FullObj(o, z)
  }

  // ----- the loaded problem

  function FoldedCol(P: LP, rc: seq<real>, j: int): Column
    requires j in P.col
  {
    P.col[j].(c := P.col[j].c + ColAct(P, j, rc))
  }

  /** The rows are substituted into the objective function. */
  function Folded(P: LP, rc: seq<real>): LP {
    P.(col := map j | j in P.col :: FoldedCol(P, rc, j))
  }

  /** The sign of the objective function is changed. */
  function Negated(P: LP): LP {
    P.(col := map j | j in P.col :: P.col[j].(c := -P.col[j].c), c0 := -P.c0)
  }

  function InSense(dir: Sense, P: LP): LP {
    if dir == Min then P else Negated(P)
  }

  function Loaded(o: Orig): LP {
    InSense(o.dir, Folded(o.P, o.rc))
  }

  lemma FoldedCost(P: LP, rc: seq<real>, x: seq<real>, j: int)
    requires WellFormed(P)
    ensures CostF(Folded(P, rc).col, x)(j) == CostF(P.col, x)(j) + 1.0 * ColCross(P, Prices(rc), x)(j)
  {
    if j in P.col {
      var c, d, t := P.col[j].c, ColAct(P, j, rc), Val(x, j);
      assert (c + d) * t == c * t + d * t;
    } else {
      SumZero(ColF(P.a, j, rc), P.m);
    }
  }

  lemma FoldedObj(P: LP, rc: seq<real>, x: seq<real>)
    requires WellFormed(P)
    ensures Obj(Folded(P, rc), x) == Obj(P, x) + Sum(RowPart(P, Prices(rc), x), P.m)
  {
    hide CostF, ColCross, RowPart;
    var S := Prices(rc);
    forall j | 0 <= j < P.n ensures CostF(Folded(P, rc).col, x)(j) == CostF(P.col, x)(j) + 1.0 * ColCross(P, S, x)(j) {
      FoldedCost(P, rc, x, j);
    }
    SumLinear(CostF(Folded(P, rc).col, x), CostF(P.col, x), ColCross(P, S, x), 1.0, P.n);
    CrossExchange(P, S, x);
  }

  lemma NegatedObj(P: LP, x: seq<real>)
    ensures Obj(Negated(P), x) == -Obj(P, x)
  {
    var f, g := CostF(Negated(P).col, x), CostF(P.col, x);
    forall j | 0 <= j < P.n ensures f(j) == -1.0 * g(j) {
      NegatedCost(P, x, j);
    }
    ScaleSum(f, g, -1.0, P.n);
  }

  lemma NegatedCost(P: LP, x: seq<real>, j: int)
    ensures CostF(Negated(P).col, x)(j) == -1.0 * CostF(P.col, x)(j)
  {
  }

  lemma NegatedTwice(P: LP)
    ensures Negated(Negated(P)) == P
  {
    var Q := Negated(Negated(P));
    assert Q.col.Keys == P.col.Keys;
    forall j | j in P.col ensures Q.col[j] == P.col[j] {
    }
  }

  /** Rows, matrix and bounds are those of the problem object. */
  predicate SameBody(P: LP, R: LP) {
    && R.m == P.m && R.n == P.n && R.row == P.row && R.a == P.a
    && (forall j <- P.col :: j in R.col && R.col[j].rng == P.col[j].rng) && forall j <- R.col :: j in P.col
  }

  lemma LoadedBody(o: Orig)
    ensures SameBody(o.P, Loaded(o))
  {
  }

  lemma BodyFeasible(P: LP, R: LP, x: seq<real>)
    requires SameBody(P, R)
    ensures Feasible(P, x) <==> Feasible(R, x)
  {
    forall i ensures RowAct(P, i, x) == RowAct(R, i, x) {
    }
    forall j ensures j in P.col <==> j in R.col {
    }
  }

  lemma LoadedObj(o: Orig, x: seq<real>)
    requires WellFormed(o.P)
    ensures Obj(Loaded(o), x) == if o.dir == Min then FullObj(o, x) else -FullObj(o, x)
  {
    hide Obj, Folded, Negated;
    FoldedObj(o.P, o.rc, x);
    NegatedObj(Folded(o.P, o.rc), x);
  }

  /** Minimizing the loaded problem is optimizing the problem object in its own sense. */
  lemma LoadedBest(o: Orig, x: seq<real>)
    requires WellFormed(o.P)
    ensures Optimal(Loaded(o), x) <==> Best(o, x)
  {
    hide Obj, Feasible, Loaded, SameBody, FullObj;
    LoadedBody(o);
    forall z ensures (Feasible(o.P, z) <==> Feasible(Loaded(o), z)) && Obj(Loaded(o), z) == if o.dir == Min then FullObj(o, z) else -FullObj(o, z) {
      BodyFeasible(o.P, Loaded(o), z);
      LoadedObj(o, z);
    }
  }

  // ----- signs of dual values

  function Minus(d: seq<real>): (r: seq<real>)
    ensures |r| == |d|
  {
    seq(|d|, k requires 0 <= k < |d| => -d[k])
  }

  function Turned(dir: Sense, S: Sol): Sol {
    if dir == Min then S else S.(rd := Minus(S.rd), cd := Minus(S.cd))
  }

  lemma TurnedTwice(dir: Sense, S: Sol)
    ensures Turned(dir, Turned(dir, S)) == S
  {
    assert Minus(Minus(S.rd)) == S.rd && Minus(Minus(S.cd)) == S.cd;
  }

  // ----- optimality in the sense of the problem

  /** The primal value lies in the range and is where the status says. */
  predicate Placed(r: Range, st: Stat, prim: real) {
    && r.Holds(prim)
    && match st
       case Unset => false
       case BS => true
       case NL => r.lb.Fin? && !r.Fixed() && prim == r.lb.v
       case NU => r.ub.Fin? && !r.Fixed() && prim == r.ub.v
       case NF => r.Free() && prim == 0.0
       case NS => r.Fixed()
  }

  /** The dual value is zero for a basic and for a free item; at a lower bound it is non-negative when minimizing and non-positive when
      maximizing, at an upper bound the other way round. */
  predicate Signed(dir: Sense, st: Stat, dual: real) {
    match st
    case BS => dual == 0.0
    case NF => dual == 0.0
    case NL => if dir == Min then dual >= 0.0 else dual <= 0.0
    case NU => if dir == Min then dual <= 0.0 else dual >= 0.0
    case _ => true
  }

  predicate RowIn(dir: Sense, P: LP, S: Sol, i: int)
    requires i in P.row && Shape(P, S)
  {
    0 <= i < P.m && S.rp[i] == RowAct(P, i, S.cp) && Placed(P.row[i], S.rs[i], S.rp[i]) && Signed(dir, S.rs[i], S.rd[i])
  }

  /** With the dual equality of column j for a given cost. */
  predicate ColIn(dir: Sense, P: LP, S: Sol, j: int, cost: real)
    requires j in P.col && Shape(P, S)
  {
    && 0 <= j < P.n && ColAct(P, j, S.rd) + S.cd[j] == cost
    && Placed(P.col[j].rng, S.cs[j], S.cp[j]) && Signed(dir, S.cs[j], S.cd[j])
  }

  /** Exactly the rows and columns of the problem have a status, as many are basic as there are rows. */
  ghost predicate Counted(P: LP, S: Sol)
    requires Shape(P, S)
  {
    && (forall i :: 0 <= i < P.m && i !in P.row ==> S.rs[i] == Unset)
    && (forall j :: 0 <= j < P.n && j !in P.col ==> S.cs[j] == Unset)
    && CountBS(S.rs) + CountBS(S.cs) == |P.row.Keys|
  }

  /** A basic solution that is optimal in the sense `dir`; the dual values are in terms of the problem's own objective. */
  ghost predicate KktIn(dir: Sense, P: LP, S: Sol) {
    && Shape(P, S) && Counted(P, S)
    && (forall i :: i in P.row ==> RowIn(dir, P, S, i))
    && (forall j :: j in P.col ==> ColIn(dir, P, S, j, P.col[j].c))
  }

  /** The same for a problem object, whose objective function has row costs, too; no row is free and non-basic. */
  ghost predicate BasicBest(o: Orig, S: Sol) {
    && Shape(o.P, S) && Counted(o.P, S)
    && (forall i :: i in o.P.row ==> RowIn(o.dir, o.P, S, i) && S.rs[i] != NF)
    && (forall j :: j in o.P.col ==> ColIn(o.dir, o.P, S, j, o.P.col[j].c + ColAct(o.P, j, o.rc)))
  }

  lemma TurnedSign(dir: Sense, r: Range, st: Stat, prim: real, dual: real)
    ensures StatusOk(r, st, prim, if dir == Min then dual else -dual) <==> Placed(r, st, prim) && Signed(dir, st, dual)
  {
  }

  lemma TurnedDual(dir: Sense, S: Sol, k: int)
    ensures 0 <= k < |S.rd| ==> k < |Turned(dir, S).rd| && Turned(dir, S).rd[k] == if dir == Min then S.rd[k] else -S.rd[k]
    ensures 0 <= k < |S.cd| ==> k < |Turned(dir, S).cd| && Turned(dir, S).cd[k] == if dir == Min then S.cd[k] else -S.cd[k]
    ensures var T := Turned(dir, S);
            T.rs == S.rs && T.rp == S.rp && T.cs == S.cs && T.cp == S.cp && |T.rd| == |S.rd| && |T.cd| == |S.cd|
  {
  }

  lemma TurnedAct(dir: Sense, P: LP, S: Sol, j: int)
    ensures ColAct(P, j, Turned(dir, S).rd) == if dir == Min then ColAct(P, j, S.rd) else -ColAct(P, j, S.rd)
  {
    if dir == Max {
      var f, g := ColF(P.a, j, Minus(S.rd)), ColF(P.a, j, S.rd);
      forall i | 0 <= i < P.m ensures f(i) == -1.0 * g(i) {
        assert Val(Minus(S.rd), i) == -Val(S.rd, i);
      }
      ScaleSum(f, g, -1.0, P.m);
    }
  }

  lemma BodyActs(P: LP, R: LP, i: int, j: int, x: seq<real>, y: seq<real>)
    requires SameBody(P, R)
    ensures RowAct(P, i, x) == RowAct(R, i, x) && ColAct(P, j, y) == ColAct(R, j, y)
  {
  }

  /** What the solver says in its own sense is the truth about the minimization form. */
  lemma KktTurned(dir: Sense, R: LP, S: Sol)
    requires KktIn(dir, R, S)
    ensures Kkt(InSense(dir, R), Turned(dir, S))
  {
    hide Turned, StatusOk, Placed, Signed, RowAct, ColAct, CountBS;
    var Q, T := InSense(dir, R), Turned(dir, S);
    SenseBody(dir, R);
    TurnedDual(dir, S, 0);
    forall i | i in Q.row ensures RowKkt(Q, T, i) {
      assert RowIn(dir, R, S, i);
      TurnedDual(dir, S, i);
      BodyActs(R, Q, i, 0, S.cp, T.rd);
      TurnedSign(dir, R.row[i], S.rs[i], S.rp[i], S.rd[i]);
    }
    forall j | j in Q.col ensures ColOk(Q, T, j) {
      assert ColIn(dir, R, S, j, R.col[j].c);
      TurnedDual(dir, S, j);
      BodyActs(R, Q, 0, j, S.cp, T.rd);
      TurnedAct(dir, R, S, j);
      TurnedSign(dir, R.col[j].rng, S.cs[j], S.cp[j], S.cd[j]);
    }
  }

  lemma SenseBody(dir: Sense, R: LP)
    ensures SameBody(R, InSense(dir, R))
    ensures forall j :: j in R.col ==> InSense(dir, R).col[j].c == if dir == Min then R.col[j].c else -R.col[j].c
    ensures InSense(dir, R).row.Keys == R.row.Keys && InSense(dir, R).col.Keys == R.col.Keys
  {
  }

  lemma LoadedCosts(o: Orig, j: int)
    requires j in o.P.col
    ensures var c := o.P.col[j].c + ColAct(o.P, j, o.rc); j in Loaded(o).col && Loaded(o).col[j].c == if o.dir == Min then c else -c
  {
  }

  /** The minimization form is solved exactly if the problem object is, with the signs of its dual values turned. */
  lemma BestTurned(o: Orig, S: Sol)
    requires BasicOptimal(Loaded(o), Turned(o.dir, S))
    ensures BasicBest(o, S)
  {
    hide Turned, StatusOk, Placed, Signed, RowAct, ColAct, CountBS, Loaded;
    var Q, T := Loaded(o), Turned(o.dir, S);
    LoadedBody(o);
    LoadedKeys(o);
    TurnedDual(o.dir, S, 0);
    forall i | i in o.P.row ensures RowIn(o.dir, o.P, S, i) && S.rs[i] != NF {
      assert RowOk(Q, T, i);
      TurnedDual(o.dir, S, i);
      BodyActs(o.P, Q, i, 0, S.cp, T.rd);
      TurnedSign(o.dir, o.P.row[i], S.rs[i], S.rp[i], S.rd[i]);
    }
    forall j | j in o.P.col ensures ColIn(o.dir, o.P, S, j, o.P.col[j].c + ColAct(o.P, j, o.rc)) {
      LoadedCosts(o, j);
      assert ColOk(Q, T, j);
      TurnedDual(o.dir, S, j);
      BodyActs(o.P, Q, 0, j, S.cp, T.rd);
      TurnedAct(o.dir, o.P, S, j);
      TurnedSign(o.dir, o.P.col[j].rng, S.cs[j], S.cp[j], S.cd[j]);
    }
  }

  lemma LoadedKeys(o: Orig)
    ensures Loaded(o).row == o.P.row && Loaded(o).col.Keys == o.P.col.Keys && Loaded(o).m == o.P.m && Loaded(o).n == o.P.n
  {
  }

  // ----- multipliers in the sense of the problem

  /** A multiplier that pushes towards a bound which is there. */
  predicate AllowsIn(dir: Sense, r: Range, d: real) {
    if dir == Min then (d > 0.0 ==> r.lb.Fin?) && (d < 0.0 ==> r.ub.Fin?) else (d > 0.0 ==> r.ub.Fin?) && (d < 0.0 ==> r.lb.Fin?)
  }

  ghost predicate MultipliersIn(dir: Sense, P: LP, rc: seq<real>, y: seq<real>) {
    && |y| == P.m && (forall i :: i in P.row ==> AllowsIn(dir, P.row[i], Val(y, i)))
    && forall j :: j in P.col ==> AllowsIn(dir, P.col[j].rng, P.col[j].c + ColAct(P, j, rc) - ColAct(P, j, y))
  }

  ghost predicate DualFeasibleIn(dir: Sense, P: LP, rc: seq<real>) {
    exists y :: MultipliersIn(dir, P, rc, y)
  }

  lemma LoadedMultipliers(o: Orig, y: seq<real>)
    requires MultipliersIn(o.dir, o.P, o.rc, y)
    ensures DualFeasible(Loaded(o))
  {
    hide ColAct, Loaded, AllowsIn, Turned;
    var S := Prices(y);
    var z := Turned(o.dir, S).rd;
    LoadedBody(o);
    LoadedKeys(o);
    TurnedDual(o.dir, S, 0);
    var Q := Loaded(o);
    forall i | i in Q.row ensures Allows(Q.row[i], Val(z, i)) {
      TurnedDual(o.dir, S, i);
      AllowsTurned(o.dir, o.P.row[i], Val(y, i));
    }
    forall j | j in Q.col ensures Allows(Q.col[j].rng, Price(Q, j, z)) {
      LoadedCosts(o, j);
      BodyActs(o.P, Q, 0, j, [], z);
      TurnedAct(o.dir, o.P, S, j);
      AllowsTurned(o.dir, o.P.col[j].rng, o.P.col[j].c + ColAct(o.P, j, o.rc) - ColAct(o.P, j, y));
    }
    assert Multipliers(Q, z);
  }

  lemma AllowsTurned(dir: Sense, r: Range, d: real)
    ensures AllowsIn(dir, r, d) <==> Allows(r, if dir == Min then d else -d)
  {
  }

  // ----- the solver

  function TurnedOutcome(dir: Sense, r: Outcome): Outcome {
    match r
    case Solved(S) => Solved(Turned(dir, S))
    case _ => r
  }

  ghost predicate BestIn(dir: Sense, R: LP, x: seq<real>) {
    Feasible(R, x) && forall z :: Feasible(R, z) ==> if dir == Min then Obj(R, x) <= Obj(R, z) else Obj(R, x) >= Obj(R, z)
  }

  /** What the solver says about a problem in its own sense. */
  ghost predicate TruthfulIn(dir: Sense, R: LP, r: Outcome) {
    match r
    case Solved(S) => KktIn(dir, R, S) && Nonsingular(R, S)
    case NoPrimal => Infeasible(R)
    case NoDual => (forall x :: !BestIn(dir, R, x)) && !DualFeasibleIn(dir, R, [])
    case GaveUp => true
  }

  /** Its answer, with signs turned, is true of the minimization form R. */
  lemma SolverTruthful(dir: Sense, solve: (Sense, LP) -> Outcome, R: LP)
    requires TruthfulIn(dir, InSense(dir, R), solve(dir, InSense(dir, R)))
    ensures Truthful(R, TurnedOutcome(dir, solve(dir, InSense(dir, R))))
  {
    hide KktIn, Nonsingular, Kkt, Infeasible, NoOptimum, DualFeasibleIn, DualFeasible, BestIn, Negated, Turned, InSense;
    SenseTwice(dir, R);
    SenseBody(dir, R);
    var Q, r := InSense(dir, R), solve(dir, InSense(dir, R));
    match r
    case Solved(S) =>
      KktTurned(dir, Q, S);
      TurnedDual(dir, S, 0);
      SameBasis(R, Q, S, Turned(dir, S));
    case NoPrimal =>
      SenseInfeasible(dir, R);
    case NoDual =>
      SenseNoOptimum(dir, R);
      SenseNoDual(dir, R);
    case GaveUp =>
  }

  lemma SenseTwice(dir: Sense, R: LP)
    ensures InSense(dir, InSense(dir, R)) == R
  {
    hide Negated;
    NegatedTwice(R);
  }

  lemma SenseInfeasible(dir: Sense, R: LP)
    requires Infeasible(InSense(dir, R))
    ensures Infeasible(R)
  {
    hide Feasible, InSense, SameBody;
    SenseBody(dir, R);
    forall x ensures !Feasible(R, x) {
      BodyFeasible(R, InSense(dir, R), x);
    }
  }

  lemma SenseNoOptimum(dir: Sense, R: LP)
    requires forall x :: !BestIn(dir, InSense(dir, R), x)
    ensures NoOptimum(R)
  {
    hide Feasible, Negated, SameBody, Obj;
    SenseBody(dir, R);
    var Q := InSense(dir, R);
    forall x ensures (Feasible(R, x) <==> Feasible(Q, x)) && Obj(Q, x) == if dir == Min then Obj(R, x) else -Obj(R, x) {
      BodyFeasible(R, Q, x);
      NegatedObj(R, x);
    }
    forall x ensures !Optimal(R, x) {
      assert !BestIn(dir, Q, x);
    }
  }

  lemma SenseNoDual(dir: Sense, R: LP)
    requires !DualFeasibleIn(dir, InSense(dir, R), [])
    ensures !DualFeasible(R)
  {
    hide Multipliers, MultipliersIn, InSense;
    if z :| Multipliers(R, z) {
      SenseMultipliers(dir, R, z);
    }
  }

  lemma SenseMultipliers(dir: Sense, R: LP, z: seq<real>)
    requires Multipliers(R, z)
    ensures MultipliersIn(dir, InSense(dir, R), [], Turned(dir, Prices(z)).rd)
  {
    hide ColAct, InSense, AllowsIn, Turned, Allows;
    var Q, S := InSense(dir, R), Prices(z);
    var y := Turned(dir, S).rd;
    SenseBody(dir, R);
    TurnedDual(dir, S, 0);
    forall i | i in Q.row ensures AllowsIn(dir, Q.row[i], Val(y, i)) {
      TurnedDual(dir, S, i);
      AllowsTurned(dir, R.row[i], Val(y, i));
    }
    forall j | j in Q.col ensures AllowsIn(dir, Q.col[j].rng, Q.col[j].c + ColAct(Q, j, []) - ColAct(Q, j, y)) {
      BodyActs(R, Q, 0, j, [], y);
      BodyActs(R, Q, 0, j, [], []);
      NoPrices(R, j);
      TurnedAct(dir, R, S, j);
      AllowsTurned(dir, R.col[j].rng, Q.col[j].c - ColAct(Q, j, y));
    }
  }

  lemma NoPrices(P: LP, j: int)
    ensures ColAct(P, j, []) == 0.0
  {
    SumZero(ColF(P.a, j, []), P.m);
  }

  // ----- the driver

  lemma LoadedOk(o: Orig)
    requires MatrixOk(o.P) && Complete(o.P)
    ensures MatrixOk(Loaded(o)) && Complete(Loaded(o)) && (BoundsOk(Loaded(o)) <==> BoundsOk(o.P))
    ensures Loaded(o).m == o.P.m && Loaded(o).n == o.P.n
    ensures BoundsOk(o.P) ==> WellFormed(o.P)
  {
    LoadedBody(o);
    if BoundsOk(o.P) {
      LoadedWellFormed(o.P);
    }
  }

  /** simplex2 for a problem object of either sense: the resultant problem is built in the sense of the original one, and the signs of
      dual values are changed on loading and unloading the solution of a maximization problem. */
  method Simplex2Any(o: Orig, solve: (Sense, LP) -> Outcome)
    returns (ret: Ret, S: Sol, z: real, posx: array<int>, indx: array<int>, ghost B: LP)
    requires MatrixOk(o.P) && Complete(o.P) && |o.rc| == o.P.m
    requires forall R :: TruthfulIn(o.dir, R, solve(o.dir, R))
    ensures ret == Fault <==> o.P.m == 0 || o.P.n == 0 || !BoundsOk(o.P)
    ensures ret == NoPfs ==> Infeasible(o.P)
    ensures ret == NoDfs ==> (forall x :: !Best(o, x)) && !DualFeasibleIn(o.dir, o.P, o.rc)
    ensures ret == Ok ==> Best(o, S.cp) && z == FullObj(o, S.cp)
    ensures ret == Ok ==> BasicBest(o, S) && Nonsingular(o.P, S)
    ensures ret == Ok ==> Positions(S.rs + S.cs, o.P.m, posx[..], indx[..], o.P.m + o.P.n, o.P.m, o.P.n)
    ensures ret == Failed ==> solve(o.dir, InSense(o.dir, B)).GaveUp? && BuiltFrom(Loaded(o), B)
  {
    hide MatrixOk, BoundsOk, Complete, Truthful, TruthfulIn, BasicOptimal, Nonsingular, Positions, BuiltFrom, Optimal, Best, Loaded, FullObj, Obj,
      Infeasible, NoOptimum, InSense, TurnedOutcome, Conforms, RangeOf, Turned, BasicBest, DualFeasible, DualFeasibleIn;
    LoadedOk(o);
    var g := (R: LP) => TurnedOutcome(o.dir, solve(o.dir, InSense(o.dir, R)));
    forall R ensures Truthful(R, g(R)) {
      SolverTruthful(o.dir, solve, R);
    }
    var T, v;
    ret, T, v, posx, indx, B := Simplex2(Loaded(o), g);
    S := Turned(o.dir, T);
    z := if o.dir == Min then v else -v;
    TurnedTwice(o.dir, T);
    TurnedSame(o, T);
    if ret == Ok {
      LoadedBest(o, T.cp);
      LoadedObj(o, T.cp);
      BestTurned(o, S);
    } else if ret == NoDfs {
      NoneBest(o);
      NoMultipliers(o);
    } else if ret == NoPfs {
      NoneFeasible(o);
    } else if ret == Failed {
      GaveUpToo(o.dir, solve(o.dir, InSense(o.dir, B)));
    }
  }

  lemma TurnedSame(o: Orig, T: Sol)
    ensures var S := Turned(o.dir, T);
            S.cp == T.cp && S.rs == T.rs && S.cs == T.cs && (Nonsingular(Loaded(o), T) ==> Nonsingular(o.P, S))
  {
    hide Nonsingular, Loaded;
    LoadedBody(o);
    if Nonsingular(Loaded(o), T) {
      SameBasis(o.P, Loaded(o), T, Turned(o.dir, T));
    }
  }

  lemma NoneBest(o: Orig)
    requires NoOptimum(Loaded(o)) && WellFormed(o.P)
    ensures forall x :: !Best(o, x)
  {
    hide Optimal, Best;
    forall x ensures !Best(o, x) {
      LoadedBest(o, x);
    }
  }

  lemma NoMultipliers(o: Orig)
    requires !DualFeasible(Loaded(o))
    ensures !DualFeasibleIn(o.dir, o.P, o.rc)
  {
    hide DualFeasible, Loaded, MultipliersIn;
    if y :| MultipliersIn(o.dir, o.P, o.rc, y) {
      LoadedMultipliers(o, y);
    }
  }

  lemma NoneFeasible(o: Orig)
    requires Infeasible(Loaded(o))
    ensures Infeasible(o.P)
  {
    hide Feasible;
    LoadedBody(o);
    forall x ensures !Feasible(o.P, x) {
      BodyFeasible(o.P, Loaded(o), x);
    }
  }

  lemma GaveUpToo(dir: Sense, r: Outcome)
    ensures TurnedOutcome(dir, r).GaveUp? <==> r.GaveUp?
  {
  }
}
