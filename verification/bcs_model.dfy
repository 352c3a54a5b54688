/** What the branch-and-cut driver searches: integer feasible points, the regions of node problems, and what is left open. */
module BcsModel {
  import opened Sums
  import opened Collections
  import opened IesModel
  import opened IesState

  /** Values of all variables by master column. */
  type Point = int -> real

  /** The problem to be solved (minimization): its integer feasible points, its objective, its integer variables. */
  datatype Mip = Mip(feasible: Point -> bool, obj: Point -> real, ints: set<int>)

  predicate IsInt(x: real) {
    x == x.Floor as real
  }

  function Eps(best: real): real {
    0.0000001 * Abs(best)
  }

  predicate InBounds(b: Bnds, x: real) {
    match b.typx
    case FR => true
    case LO => b.lb <= x
    case UP => x <= b.ub
    case DB => b.lb <= x <= b.ub
    case FX => x == b.lb
  }

  predicate IsCol(ms: Master, x: int) {
    x in ms && ms[x].what == Col
  }

  /** The point satisfies the local bounds of all columns of the node problem. */
  ghost predicate ColsHold(ms: Master, P: Prob, pt: Point) {
    forall x :: x in P.at && IsCol(ms, x) ==> InBounds(P.at[x].bnds, pt(x))
  }

  ghost predicate InRegion(mip: Mip, ms: Master, P: Prob, pt: Point) {
    mip.feasible(pt) && ColsHold(ms, P, pt)
  }

  /** What each row says about a point. */
  type Rows = map<int, Point -> bool>

  ghost predicate RowsHold(mean: Rows, P: Prob, pt: Point) {
    forall r :: r in P.at && r in mean ==> mean[r](pt)
  }

  /** Essential constraints and cutting planes do not cut off integer feasible points of the node. */
  ghost predicate RowsValid(mip: Mip, ms: Master, mean: Rows, P: Prob) {
    forall pt :: InRegion(mip, ms, P, pt) ==> RowsHold(mean, P, pt)
  }

  /** The bounds of an integer column, as far as it has any, are integer. */
  predicate IntBounds(b: Bnds) {
    && (b.typx == LO || b.typx == DB || b.typx == FX ==> IsInt(b.lb))
    && (b.typx == UP || b.typx == DB ==> IsInt(b.ub))
  }

  predicate TwoSided(k: Kind) {
    k == DB || k == FX
  }

  /** Local bounds of an integer column: integer, and two-sided exactly if the column was created so. */
  predicate IntLocal(it: Item, b: Bnds) {
    IntBounds(b) && (TwoSided(b.typx) <==> TwoSided(it.typx))
  }

  ghost predicate IntsOk(mip: Mip, ms: Master, P: Prob) {
    forall x :: x in P.at && x in mip.ints && IsCol(ms, x) ==> IntLocal(ms[x], P.at[x].bnds)
  }

  ghost predicate NodeOk(mip: Mip, ms: Master, mean: Rows, P: Prob) {
    RowsValid(mip, ms, mean, P) && IntsOk(mip, ms, P)
  }

  /** Integer feasible points have integer values and satisfy the global bounds. */
  ghost predicate MipOk(mip: Mip, ms: Master) {
    && (forall pt, x :: mip.feasible(pt) && x in mip.ints ==> IsInt(pt(x)))
    && (forall pt, x :: mip.feasible(pt) && IsCol(ms, x) ==> InBounds(Bnds(ms[x].typx, ms[x].lb, ms[x].ub), pt(x)))
    && (forall x :: x in mip.ints && IsCol(ms, x) ==> IntBounds(Bnds(ms[x].typx, ms[x].lb, ms[x].ub)))
  }

  // ----- what is left open

  /** The problem of an active node: the instance for the current one, what was saved for the others. */
  ghost function ProbOf(s: St, v: int): Prob
    requires v in s.saved
  {
    if v == s.cur then s.inst else s.saved[v]
  }

  ghost predicate Active(s: St, v: int) {
    v in s.nodes && s.nodes[v].count < 0 && v in s.saved
  }

  ghost predicate Open(mip: Mip, s: St, pt: Point) {
    exists v :: Active(s, v) && InRegion(mip, s.master, ProbOf(s, v), pt)
  }

  /** A point that would improve on the best known solution. */
  ghost predicate Better(mip: Mip, found: bool, best: real, pt: Point) {
    mip.feasible(pt) && (found ==> mip.obj(pt) < best - Eps(best))
  }

  ghost predicate Covered(mip: Mip, s: St, found: bool, best: real) {
    forall pt :: Better(mip, found, best, pt) ==> Open(mip, s, pt)
  }

  ghost predicate NodesOk(mip: Mip, s: St, mean: Rows) {
    forall v :: Active(s, v) ==> NodeOk(mip, s.master, mean, ProbOf(s, v))
  }

  /** The best known value belongs to an integer feasible point. */
  ghost predicate Achieved(mip: Mip, found: bool, best: real) {
    found ==> exists pt :: mip.feasible(pt) && mip.obj(pt) == best
  }

  // ----- steps of the argument

  /** A smaller best value is better by the margin than everything given up so far. */
  lemma StillCovered(mip: Mip, s: St, found: bool, best: real, z: real)
    requires Covered(mip, s, found, best) && (found ==> z <= best - Eps(best))
    ensures Covered(mip, s, true, z)
  {
    forall pt | Better(mip, true, z, pt) ensures Open(mip, s, pt) {
      assert Better(mip, found, best, pt);
    }
  }

  /** Two states with the same open problems. */
  lemma SameOpen(mip: Mip, s: St, t: St, found: bool, best: real)
    requires Covered(mip, s, found, best)
    requires forall v :: Active(s, v) ==>
               Active(t, v) && forall pt :: InRegion(mip, s.master, ProbOf(s, v), pt) ==> InRegion(mip, t.master, ProbOf(t, v), pt)
    ensures Covered(mip, t, found, best)
  {
    hide InRegion;
    forall pt | Better(mip, found, best, pt) ensures Open(mip, t, pt) {
      var v :| Active(s, v) && InRegion(mip, s.master, ProbOf(s, v), pt);
      assert Active(t, v) && InRegion(mip, t.master, ProbOf(t, v), pt);
    }
  }

  /** Node v can be given up if nothing in its region improves on the best known solution. */
  lemma GivenUp(mip: Mip, s: St, t: St, found: bool, best: real, v: int)
    requires Covered(mip, s, found, best) && v in s.saved
    requires forall pt :: Better(mip, found, best, pt) ==> !InRegion(mip, s.master, ProbOf(s, v), pt)
    requires forall u :: Active(s, u) && u != v ==>
               Active(t, u) && forall pt :: InRegion(mip, s.master, ProbOf(s, u), pt) ==> InRegion(mip, t.master, ProbOf(t, u), pt)
    ensures Covered(mip, t, found, best)
  {
    hide InRegion;
    forall pt | Better(mip, found, best, pt) ensures Open(mip, t, pt) {
      var u :| Active(s, u) && InRegion(mip, s.master, ProbOf(s, u), pt);
      assert Active(t, u) && InRegion(mip, t.master, ProbOf(t, u), pt);
    }
  }

  // ----- branching

  function Floor(x: real): real {
    x.Floor as real
  }

  /** new_bound for the down branch. */
  function Down(b: Bnds, vx: real): Bnds {
    Bnds(if Floor(vx) == b.lb then FX else DB, b.lb, Floor(vx))
  }

  /** new_bound for the up branch. */
  function Up(b: Bnds, vx: real): Bnds {
    Bnds(if Floor(vx) + 1.0 == b.ub then FX else DB, Floor(vx) + 1.0, b.ub)
  }

  /** The checks of new_bound hold, and the new bounds are integer again. */
  lemma BranchBounds(b: Bnds, vx: real)
    requires IntBounds(b) && TwoSided(b.typx) && InBounds(b, vx) && !IsInt(vx)
    ensures TwoSided(Down(b, vx).typx) && TwoSided(Up(b, vx).typx)
    ensures b.typx == DB && Floor(vx) <= b.ub - 1.0 && (Floor(vx) >= b.lb + 1.0 || Floor(vx) == b.lb)
    ensures Floor(vx) + 1.0 >= b.lb + 1.0 && (Floor(vx) + 1.0 <= b.ub - 1.0 || Floor(vx) + 1.0 == b.ub)
    ensures IntBounds(Down(b, vx)) && IntBounds(Up(b, vx))
    ensures Down(b, vx).lb == b.lb && Up(b, vx).ub == b.ub && vx - 1.0 < Down(b, vx).ub < vx < Up(b, vx).lb < vx + 1.0
    ensures (Down(b, vx).typx == FX <==> Down(b, vx).lb == Down(b, vx).ub) && (Up(b, vx).typx == FX <==> Up(b, vx).lb == Up(b, vx).ub)
  {
    var f, l, u := vx.Floor, b.lb.Floor, b.ub.Floor;
    assert f as real <= vx < f as real + 1.0;
    assert f as real != vx;
    assert l <= f && f + 1 <= u;
    assert IsInt(f as real) && IsInt(f as real + 1.0) by {
      assert (f as real).Floor == f && (f as real + 1.0).Floor == f + 1;
    }
  }

  /** An integer value lies in one of the branches. */
  lemma BranchCovers(b: Bnds, vx: real, x: real)
    requires IntBounds(b) && TwoSided(b.typx) && InBounds(b, vx) && !IsInt(vx) && InBounds(b, x) && IsInt(x)
    ensures InBounds(Down(b, vx), x) || InBounds(Up(b, vx), x)
  {
    BranchBounds(b, vx);
    var f, g := vx.Floor, x.Floor;
    assert g <= f || g >= f + 1;
    assert x <= f as real || x >= f as real + 1.0;
  }

  lemma BranchInside(b: Bnds, vx: real, x: real)
    requires IntBounds(b) && TwoSided(b.typx) && InBounds(b, vx) && !IsInt(vx) && (InBounds(Down(b, vx), x) || InBounds(Up(b, vx), x))
    ensures InBounds(b, x)
  {
    BranchBounds(b, vx);
  }

  function WithBnds(P: Prob, x: int, b: Bnds): Prob
    requires x in P.at
  {
    Prob(P.at[x := P.at[x].(bnds := b)], P.c0)
  }

  lemma ChildOk(mip: Mip, ms: Master, mean: Rows, P: Prob, x: int, vx: real, up: bool)
    requires NodeOk(mip, ms, mean, P) && x in P.at && x in mip.ints && IsCol(ms, x) && TwoSided(P.at[x].bnds.typx)
    requires InBounds(P.at[x].bnds, vx) && !IsInt(vx)
    ensures NodeOk(mip, ms, mean, WithBnds(P, x, if up then Up(P.at[x].bnds, vx) else Down(P.at[x].bnds, vx)))
  {
    hide IntBounds;
    var b := P.at[x].bnds;
    var Q := WithBnds(P, x, if up then Up(b, vx) else Down(b, vx));
    assert IntLocal(ms[x], b);
    BranchBounds(b, vx);
    forall pt | InRegion(mip, ms, Q, pt) ensures RowsHold(mean, Q, pt) {
      ChildRegion(mip, ms, P, x, vx, up, pt);
      assert RowsHold(mean, P, pt);
    }
  }

  lemma ChildRegion(mip: Mip, ms: Master, P: Prob, x: int, vx: real, up: bool, pt: Point)
    requires x in P.at && IsCol(ms, x) && IntBounds(P.at[x].bnds) && TwoSided(P.at[x].bnds.typx) && InBounds(P.at[x].bnds, vx) && !IsInt(vx)
    requires InRegion(mip, ms, WithBnds(P, x, if up then Up(P.at[x].bnds, vx) else Down(P.at[x].bnds, vx)), pt)
    ensures InRegion(mip, ms, P, pt)
  {
    hide IntBounds, Up, Down, InBounds, IsInt;
    var b := P.at[x].bnds;
    var Q := WithBnds(P, x, if up then Up(b, vx) else Down(b, vx));
    assert InBounds(Q.at[x].bnds, pt(x));
    BranchInside(b, vx, pt(x));
    forall y | y in P.at && IsCol(ms, y) ensures InBounds(P.at[y].bnds, pt(y)) {
      assert y in Q.at;
    }
  }

  /** Every integer feasible point of the node lies in one of its two children. */
  lemma ChildrenCover(mip: Mip, ms: Master, P: Prob, x: int, vx: real, pt: Point)
    requires MipOk(mip, ms) && InRegion(mip, ms, P, pt) && IntsOk(mip, ms, P) && x in P.at && x in mip.ints && IsCol(ms, x)
    requires TwoSided(P.at[x].bnds.typx) && InBounds(P.at[x].bnds, vx) && !IsInt(vx)
    ensures InRegion(mip, ms, WithBnds(P, x, Down(P.at[x].bnds, vx)), pt) || InRegion(mip, ms, WithBnds(P, x, Up(P.at[x].bnds, vx)), pt)
  {
    hide IntBounds, Up, Down, InBounds, IsInt;
    var b := P.at[x].bnds;
    assert IntLocal(ms[x], b) && InBounds(b, pt(x)) && IsInt(pt(x));
    BranchCovers(b, vx, pt(x));
  }
}
