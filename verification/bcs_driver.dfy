/** The branch-and-cut driver. The LP solver and the application procedure are oracles: one answer drives one pass of the
    main loop. */
module BcsDriver {
  import opened Collections
  import opened IesModel
  import opened IesState
  import opened IesHeld
  import opened IesDelete
  import opened IesClass
  import opened BcsModel
  import opened BcsSearch

  /** A constraint created by the application procedure. */
  datatype NewRow = NewRow(it: Item, holds: Point -> bool)

  /** What the solver and the application procedure say in one pass: the columns that pricing includes, the essential
      constraints and the cutting planes that are generated, and the preferred branching variable; or that the solver found
      neither an optimum nor infeasibility. */
  datatype Answer =
    | Undefined
    | NoFeas(priced: set<int>)
    | Opt(z: real, val: map<int, real>, priced: set<int>, cons: seq<NewRow>, cuts: seq<NewRow>, branch: int)

  /** Columns that are missing in the node problem satisfy their global bounds. */
  ghost predicate OthersHold(ms: Master, P: Prob, pt: Point) {
    forall x :: IsCol(ms, x) && x !in P.at ==> InBounds(Bnds(ms[x].typx, ms[x].lb, ms[x].ub), pt(x))
  }

  /** A point of the LP relaxation over all variables of the workspace, present in the subproblem or not. */
  ghost predicate LpPoint(ms: Master, mean: Rows, P: Prob, pt: Point) {
    ColsHold(ms, P, pt) && OthersHold(ms, P, pt) && RowsHold(mean, P, pt)
  }

  ghost predicate CanInclude(ms: Master, P: Prob, X: set<int>) {
    forall x :: x in X ==> IsCol(ms, x) && x !in P.at
  }

  ghost predicate GoodRows(mip: Mip, ms: Master, P: Prob, rows: seq<NewRow>) {
    forall k :: 0 <= k < |rows| ==> rows[k].it.what == Row && forall pt :: InRegion(mip, ms, P, pt) ==> rows[k].holds(pt)
  }

  function Fractional(ms: Master, ints: set<int>, P: Prob, val: map<int, real>): set<int> {
    set x | x in P.at && x in val && x in ints && IsCol(ms, x) && !IsInt(val[x])
  }

  function FractionalIn(ms: Master, ints: set<int>, P: Prob, a: Answer): set<int> {
    if a.Opt? then Fractional(ms, ints, P, a.val) else {}
  }

  /** What a pass does with the current subproblem: reoptimize it with more rows or columns, give it up, take its solution
      as the best known one, or branch; or fail on a solution that is not optimal. */
  datatype Move = Stuck | Enlarge | Drop | Accept | Branching

  function MoveOf(a: Answer, found: bool, best: real, nonint: set<int>): Move {
    if a.Undefined? then Stuck
    else if a.priced != {} then Enlarge
    else if a.NoFeas? || (found && a.z > best - 0.0000001 * (if best < 0.0 then -best else best)) then Drop
    else if a.cons != [] then Enlarge
    else if nonint == {} then Accept
    else if a.cuts != [] then Enlarge
    else Branching
  }

  /** Exact LP oracles and valid cuts. */
  ghost predicate Truthful(mip: Mip, ms: Master, mean: Rows, P: Prob, a: Answer) {
    match a
    case Undefined => true
    case NoFeas(X) => CanInclude(ms, P, X) && (X == {} ==> forall pt :: !LpPoint(ms, mean, P, pt))
    case Opt(z, val, X, cons, cuts, _) =>
      && CanInclude(ms, P, X) && GoodRows(mip, ms, P, cons) && GoodRows(mip, ms, P, cuts)
      && (X == {} ==> forall pt :: LpPoint(ms, mean, P, pt) ==> mip.obj(pt) >= z)
      && (forall x :: x in P.at && IsCol(ms, x) ==> x in val && InBounds(P.at[x].bnds, val[x]))
      && (X == {} && cons == [] && Fractional(ms, mip.ints, P, val) == {} ==> exists pt :: mip.feasible(pt) && mip.obj(pt) == z)
  }

  // ----- an exact answer for a subproblem with a missing column

  /** Minimize x1 with x0 integer, 0 <= x0 <= 1 and 0 <= x1; x1 is dynamic and has reduced cost 1. */
  function Dynamic(): (Mip, Master, Prob) {
    var ms := map[0 := Item(Col, DB, 0.0, 1.0, 0.0), 1 := Item(Col, LO, 0.0, 0.0, 1.0)];
    (Mip((pt: Point) => 0.0 <= pt(0) <= 1.0 && 0.0 <= pt(1) && IsInt(pt(0)), (pt: Point) => pt(1), {0}), ms, Prob(map[0 := Default(ms[0])], 0.0))
  }

  /** Leaving x1 out of the subproblem is a truthful answer with the exact optimum of the relaxation. */
  lemma PricedOut()
    ensures var (mip, ms, P) := Dynamic();
            && MipOk(mip, ms) && NodeOk(mip, ms, map[], P) && IsCol(ms, 1) && 1 !in P.at
            && Truthful(mip, ms, map[], P, Opt(0.0, map[0 := 0.0], {}, [], [], -1))
            && exists pt :: LpPoint(ms, map[], P, pt) && mip.obj(pt) == 0.0
  {
    var (mip, ms, P) := Dynamic();
    assert IsInt(0.0) && IsInt(1.0);
    forall pt | LpPoint(ms, map[], P, pt) ensures mip.obj(pt) >= 0.0 {
      assert IsCol(ms, 1) && 1 !in P.at;
    }
    var zero: Point := (x: int) => 0.0;
    assert mip.feasible(zero) && mip.obj(zero) == 0.0 && LpPoint(ms, map[], P, zero);
  }

  ghost predicate DriverOk(mip: Mip, s: St, mean: Rows, job: int, found: bool, best: real) {
    && Inv(s) && s.cur == job && Active(s, job) && RowsHeld(s) && Busy(s.nodes)
    && Searching(mip, s, mean, found, best)
    && forall x :: x in mean ==> !IsCol(s.master, x)
  }

  // ----- fathoming

  /** Nothing in the current region improves on the best known solution. */
  ghost predicate Fathomed(mip: Mip, s: St, found: bool, best: real) {
    forall pt :: Better(mip, found, best, pt) ==> !InRegion(mip, s.master, s.inst, pt)
  }

  lemma FathomInfeasible(mip: Mip, s: St, mean: Rows, found: bool, best: real)
    requires MipOk(mip, s.master) && NodeOk(mip, s.master, mean, s.inst) && forall pt :: !LpPoint(s.master, mean, s.inst, pt)
    ensures Fathomed(mip, s, found, best)
  {
    forall pt | Better(mip, found, best, pt) ensures !InRegion(mip, s.master, s.inst, pt) {
      if InRegion(mip, s.master, s.inst, pt) {
        RegionIsLp(mip, s, mean, pt);
      }
    }
  }

  lemma RegionIsLp(mip: Mip, s: St, mean: Rows, pt: Point)
    requires MipOk(mip, s.master) && NodeOk(mip, s.master, mean, s.inst) && InRegion(mip, s.master, s.inst, pt)
    ensures LpPoint(s.master, mean, s.inst, pt)
  {
  }

  /** The bound of the relaxation is not below best - 1e-7*|best|, or has just become the best value itself. */
  lemma FathomByBound(mip: Mip, s: St, mean: Rows, best: real, z: real)
    requires MipOk(mip, s.master) && NodeOk(mip, s.master, mean, s.inst) && z >= best - Eps(best)
    requires forall pt :: LpPoint(s.master, mean, s.inst, pt) ==> mip.obj(pt) >= z
    ensures Fathomed(mip, s, true, best)
  {
    forall pt | Better(mip, true, best, pt) ensures !InRegion(mip, s.master, s.inst, pt) {
      if InRegion(mip, s.master, s.inst, pt) {
        RegionIsLp(mip, s, mean, pt);
      }
    }
  }

  lemma PrunedAgree(s: St, t: St, v: int, u: int, mean: Rows)
    requires Inv(s) && Inv(t) && Pruned(s, t, v) && v == s.cur && t.cur == -1 && Active(s, u) && u != v
    ensures Active(t, u) && ProbOf(t, u) == ProbOf(s, u) && Agrees(s.master, t.master, mean, mean, ProbOf(s, u))
  {
    hide Inv;
    NodesFrom0(s);
    ProbLive(s, u);
    ProbLive(t, u);
  }

  lemma MipShrinks(mip: Mip, ms: Master, ms': Master)
    requires MipOk(mip, ms) && forall x :: x in ms' ==> x in ms && ms'[x] == ms[x]
    ensures MipOk(mip, ms')
  {
    hide InBounds, IsInt, IntBounds;
  }

  /** After the branch of a fathomed node has been pruned nothing better is lost. */
  lemma PruneStep(mip: Mip, s: St, t: St, mean: Rows, found: bool, best: real, v: int)
    requires Inv(s) && Inv(t) && Searching(mip, s, mean, found, best) && Fathomed(mip, s, found, best)
    requires Pruned(s, t, v) && v == s.cur && t.cur == -1 && Active(s, v) && v !in t.nodes
    ensures Searching(mip, t, mean, found, best)
  {
    hide Inv, InRegion, NodeOk, MipOk, Achieved, Better;
    PrunedMip(mip, s, t, v);
    forall u, pt | Active(s, u) && u != v && InRegion(mip, s.master, ProbOf(s, u), pt)
      ensures Active(t, u) && InRegion(mip, t.master, ProbOf(t, u), pt)
    {
      PrunedAgree(s, t, v, u, mean);
      RegionFrame(mip, s.master, t.master, ProbOf(s, u), pt);
    }
    forall u | Active(s, u) && u != v ensures Active(t, u) {
      PrunedAgree(s, t, v, u, mean);
    }
    GivenUp(mip, s, t, found, best, v);
    forall u | Active(t, u) ensures NodeOk(mip, t.master, mean, ProbOf(t, u)) {
      PrunedBack(s, t, v, u);
      PrunedAgree(s, t, v, u, mean);
      assert NodeOk(mip, s.master, mean, ProbOf(s, u));
      NodeFrame(mip, s.master, t.master, mean, mean, ProbOf(s, u));
    }
  }

  lemma PrunedMip(mip: Mip, s: St, t: St, v: int)
    requires Pruned(s, t, v) && MipOk(mip, s.master)
    ensures MipOk(mip, t.master)
  {
    MipShrinks(mip, s.master, t.master);
  }

  lemma PrunedBack(s: St, t: St, v: int, u: int)
    requires Pruned(s, t, v) && Active(t, u) && v !in t.nodes
    ensures Active(s, u) && u != v
  {
  }

  // ----- what a pass does to the open problems

  /** The active nodes of t are those of s without v, which keep their problems, and `kids`. */
  ghost predicate Replaces(s: St, t: St, v: int, kids: set<int>) {
    && (forall u :: Active(t, u) ==> u in kids || (Active(s, u) && u != v))
    && (forall u :: u in kids ==> Active(t, u))
    && (forall u :: Active(s, u) && u != v ==> Active(t, u) && ProbOf(t, u) == ProbOf(s, u))
  }

  /** The current node v is replaced by the children c and d, which differ from it in the bounds of column x only. */
  ghost predicate Split(s: St, t: St, v: int, c: int, d: int, x: int, vx: real)
    requires x in s.inst.at
  {
    && Replaces(s, t, v, {c, d}) && c !in s.nodes && d !in s.nodes && c != d && t.cur == d && t.master == s.master
    && c in t.saved && ProbOf(t, c) == WithBnds(s.inst, x, Down(s.inst.at[x].bnds, vx))
    && d in t.saved && ProbOf(t, d) == WithBnds(s.inst, x, Up(s.inst.at[x].bnds, vx))
  }

  /** The current problem has grown by columns X with their global bounds, and by new rows. */
  ghost predicate Grew(s: St, t: St, X: set<int>) {
    && t.nodes == s.nodes && t.saved == s.saved && t.cur == s.cur
    && (forall x :: x in s.master ==> x in t.master && t.master[x] == s.master[x]) && (forall x :: IsCol(t.master, x) ==> x in s.master)
    && (forall x :: x in s.inst.at ==> x in t.inst.at && t.inst.at[x] == s.inst.at[x])
    && (forall x :: x in X ==> IsCol(s.master, x) && x !in s.inst.at && x in t.inst.at && t.inst.at[x] == Default(s.master[x]))
    && (forall x :: x in t.inst.at && x !in s.inst.at && IsCol(t.master, x) ==> x in X)
  }

  /** Master items only leave. */
  ghost predicate Shrunk(ms: Master, ms': Master) {
    forall x :: x in ms' ==> x in ms && ms'[x] == ms[x]
  }

  // ----- branching

  /** Node v has been replaced by its children c and d. */
  lemma BranchStep(mip: Mip, s: St, t: St, mean: Rows, found: bool, best: real, v: int, c: int, d: int, x: int, vx: real)
    requires Searching(mip, s, mean, found, best) && v == s.cur && Active(s, v) && t.master == s.master
    requires x in s.inst.at && x in mip.ints && IsCol(s.master, x) && InBounds(s.inst.at[x].bnds, vx) && !IsInt(vx)
    requires TwoSided(s.inst.at[x].bnds.typx)
    requires Active(t, c) && ProbOf(t, c) == WithBnds(s.inst, x, Down(s.inst.at[x].bnds, vx))
    requires Active(t, d) && ProbOf(t, d) == WithBnds(s.inst, x, Up(s.inst.at[x].bnds, vx))
    requires forall u :: Active(t, u) ==> u == c || u == d || (Active(s, u) && u != v)
    requires forall u :: Active(s, u) && u != v ==> Active(t, u) && ProbOf(t, u) == ProbOf(s, u)
    ensures Searching(mip, t, mean, found, best)
  {
    hide InRegion, NodeOk, MipOk, Achieved, Better, WithBnds, Down, Up, InBounds, IsInt;
    assert NodeOk(mip, s.master, mean, ProbOf(s, v));
    NodeInts(mip, s.master, mean, s.inst);
    forall pt | Better(mip, found, best, pt) ensures Open(mip, t, pt) {
      var u :| Active(s, u) && InRegion(mip, s.master, ProbOf(s, u), pt);
      if u == v {
        ChildrenCover(mip, s.master, s.inst, x, vx, pt);
        if InRegion(mip, t.master, ProbOf(t, c), pt) {
          assert Active(t, c) && InRegion(mip, t.master, ProbOf(t, c), pt);
        } else {
          assert Active(t, d) && InRegion(mip, t.master, ProbOf(t, d), pt);
        }
      } else {
        assert Active(t, u) && InRegion(mip, t.master, ProbOf(t, u), pt);
      }
    }
    forall u | Active(t, u) ensures NodeOk(mip, t.master, mean, ProbOf(t, u)) {
      if u == c {
        ChildOk(mip, s.master, mean, s.inst, x, vx, false);
      } else if u == d {
        ChildOk(mip, s.master, mean, s.inst, x, vx, true);
      }
    }
  }

  lemma NodeInts(mip: Mip, ms: Master, mean: Rows, P: Prob)
    requires NodeOk(mip, ms, mean, P)
    ensures IntsOk(mip, ms, P)
  {
  }
}
