/** How many passes the search can take: every pass that does not add constraints uses up some of the work that the open problems
    can cause. */
module BcsBound {
  import opened Collections
  import opened IesModel
  import opened IesState
  import opened BcsModel
  import opened BcsDriver

  /** Number of branchings that a column admits. */
  function Width(b: Bnds): nat {
    if b.typx == DB && b.lb.Floor <= b.ub.Floor then b.ub.Floor - b.lb.Floor else 0
  }

  /** Local bounds, or global ones for a column that is missing. */
  function BoundsOf(ms: Master, P: Prob, x: int): Bnds {
    if x in P.at then P.at[x].bnds else if x in ms then Bnds(ms[x].typx, ms[x].lb, ms[x].ub) else Bnds(FR, 0.0, 0.0)
  }

  function WidthAt(ms: Master, P: Prob): int -> nat {
    (x: int) => Width(BoundsOf(ms, P, x))
  }

  function IntCols(ms: Master, ints: set<int>): set<int> {
    set x | x in ms && ms[x].what == Col && x in ints
  }

  ghost function Breadth(ms: Master, ints: set<int>, P: Prob): nat {
    SumOver(WidthAt(ms, P), IntCols(ms, ints))
  }

  function Absent(ms: Master, P: Prob): set<int> {
    set x | x in ms && ms[x].what == Col && x !in P.at
  }

  function Pow2(k: nat): (r: nat)
    ensures r >= 1
  {
    if k == 0 then 1 else 2 * Pow2(k - 1)
  }

  function Product(a: nat, b: nat): nat {
    a * b
  }

  /** Passes that node problem P and its descendants can take: at most 2^(breadth + 1) - 1 subproblems, each of which may take
      one pass for every missing column and one more. */
  function Passes(breadth: nat, absent: nat): nat {
    Product(Pow2(breadth + 1) - 1, absent + 1)
  }

  ghost function Cost(ms: Master, ints: set<int>, P: Prob): nat {
    Passes(Breadth(ms, ints, P), |Absent(ms, P)|)
  }

  ghost function ActiveSet(s: St): set<int> {
    set v | v in s.nodes && Active(s, v)
  }

  ghost function CostAt(s: St, ints: set<int>): int -> nat {
    (v: int) => if v in s.saved then Cost(s.master, ints, ProbOf(s, v)) else 0
  }

  ghost function Load(s: St, ints: set<int>): nat {
    SumOver(CostAt(s, ints), ActiveSet(s))
  }

  /** The search of a problem with nothing but k binary variables, from the root on: at most 2^(k + 1) - 1 passes. */
  lemma BinaryLoad(s: St, ints: set<int>, v: int)
    requires Active(s, v) && (forall u :: Active(s, u) ==> u == v) && forall x :: x in s.master && s.master[x].what == Col ==> x in ProbOf(s, v).at
    requires forall x :: x in IntCols(s.master, ints) ==> x in ProbOf(s, v).at && ProbOf(s, v).at[x].bnds == Bnds(DB, 0.0, 1.0)
    ensures Load(s, ints) == Pow2(|IntCols(s.master, ints)| + 1) - 1
  {
    hide Pow2;
    var P, I := ProbOf(s, v), IntCols(s.master, ints);
    assert ActiveSet(s) == {v};
    SumPick(CostAt(s, ints), ActiveSet(s), v);
    assert ActiveSet(s) - {v} == {};
    NoneAbsent(s.master, P);
    forall x | x in I ensures WidthAt(s.master, P)(x) == 1 {
      UnitWidth();
    }
    CountOver(WidthAt(s.master, P), I);
  }

  lemma UnitWidth()
    ensures Width(Bnds(DB, 0.0, 1.0)) == 1
  {
  }

  lemma NoneAbsent(ms: Master, P: Prob)
    requires forall x :: x in ms && ms[x].what == Col ==> x in P.at
    ensures |Absent(ms, P)| == 0
  {
    SameSet(Absent(ms, P), {});
  }

  lemma {:induction false} CountOver(f: int -> nat, S: set<int>)
    requires forall x :: x in S ==> f(x) == 1
    ensures SumOver(f, S) == |S|
  {
    if S != {} {
      Inhabited(S);
      var x :| x in S;
      SumPick(f, S, x);
      CountOver(f, S - {x});
    }
  }

  // ----- arithmetic

  lemma {:induction false} Pow2Grows(a: nat, b: nat)
    requires a <= b
    ensures Pow2(a) <= Pow2(b)
    decreases b
  {
    if a < b {
      Pow2Grows(a, b - 1);
    }
  }

  lemma ProductGrows(a: nat, b: nat, c: nat, d: nat)
    requires a <= c && b <= d
    ensures Product(a, b) <= Product(c, d)
  {
    assert a * b <= c * b;
    assert c * b <= c * d;
  }

  lemma PassesGrow(b: nat, k: nat, b': nat, k': nat)
    requires b <= b' && k <= k'
    ensures 1 <= Passes(b, k) <= Passes(b', k')
  {
    hide Product;
    Pow2Grows(b + 1, b' + 1);
    ProductGrows(Pow2(b + 1) - 1, k + 1, Pow2(b' + 1) - 1, k' + 1);
    ProductOne(Pow2(b + 1) - 1, k + 1);
  }

  lemma ProductOne(a: nat, b: nat)
    requires a >= 1 && b >= 1
    ensures Product(a, b) >= 1
  {
  }

  lemma PricingPays(b: nat, k: nat)
    requires k >= 1
    ensures Passes(b, k - 1) + 1 <= Passes(b, k)
  {
    var a: nat := Pow2(b + 1) - 1;
    assert a >= 1;
    assert a * (k + 1) == a * k + a;
  }

  lemma BranchingPays(b: nat, k: nat)
    requires b >= 1
    ensures Passes(b - 1, k) + Passes(b - 1, k) + 1 <= Passes(b, k)
  {
    var p, c := Pow2(b), k + 1;
    assert Pow2(b + 1) == 2 * p;
    assert (2 * p - 1) * c == (p - 1) * c + (p - 1) * c + c;
  }

  // ----- the cost of one problem

  ghost predicate ColsShrunk(ms: Master, ms': Master) {
    forall x :: IsCol(ms', x) ==> IsCol(ms, x) && ms'[x] == ms[x]
  }

  lemma CostShrunk(ms: Master, ms': Master, ints: set<int>, P: Prob)
    requires ColsShrunk(ms, ms')
    ensures 1 <= Cost(ms', ints, P) <= Cost(ms, ints, P)
  {
    hide Passes, Width;
    SumAtMost(WidthAt(ms', P), WidthAt(ms, P), IntCols(ms', ints), IntCols(ms, ints));
    FewerAbsent(Absent(ms', P), Absent(ms, P));
    PassesGrow(Breadth(ms', ints, P), |Absent(ms', P)|, Breadth(ms, ints, P), |Absent(ms, P)|);
  }

  lemma FewerAbsent(s: set<int>, t: set<int>)
    requires forall x :: x in s ==> x in t
    ensures |s| <= |t|
  {
    Subset(s, t);
    SizeOfSubset(s, t);
  }

  lemma {:induction false} SizeOfSubset(s: set<int>, t: set<int>)
    requires s <= t
    ensures |s| <= |t|
    decreases |s|
  {
    if s != {} {
      Inhabited(s);
      var x :| x in s;
      SizeOfSubset(s - {x}, t - {x});
    }
  }

  lemma SameWidth(s: St, t: St, X: set<int>, x: int)
    requires Grew(s, t, X) && IsCol(t.master, x)
    ensures IsCol(s.master, x) && WidthAt(t.master, t.inst)(x) == WidthAt(s.master, s.inst)(x)
  {
    hide Width;
  }

  lemma BreadthGrew(s: St, t: St, X: set<int>, ints: set<int>)
    requires Grew(s, t, X)
    ensures Breadth(t.master, ints, t.inst) <= Breadth(s.master, ints, s.inst)
  {
    hide Grew, WidthAt;
    var f, g := WidthAt(t.master, t.inst), WidthAt(s.master, s.inst);
    forall x | x in IntCols(t.master, ints) ensures x in IntCols(s.master, ints) && f(x) <= g(x) {
      SameWidth(s, t, X, x);
    }
    SumAtMost(f, g, IntCols(t.master, ints), IntCols(s.master, ints));
  }

  lemma AbsentGrew(s: St, t: St, X: set<int>, x: int)
    requires Grew(s, t, X)
    ensures x in Absent(t.master, t.inst) ==> x in Absent(s.master, s.inst) && x !in X
    ensures x in X ==> x in Absent(s.master, s.inst)
  {
  }

  /** A problem that grows admits the same branchings, and columns that were priced in are no longer missing. */
  lemma CostGrew(s: St, t: St, X: set<int>, ints: set<int>)
    requires Grew(s, t, X)
    ensures Cost(t.master, ints, t.inst) + (if X == {} then 0 else 1) <= Cost(s.master, ints, s.inst)
  {
    hide Passes, Breadth, Absent, Grew;
    var A, B := Absent(s.master, s.inst), Absent(t.master, t.inst);
    BreadthGrew(s, t, X, ints);
    var b, b' := Breadth(s.master, ints, s.inst), Breadth(t.master, ints, t.inst);
    forall x ensures (x in B ==> x in A && x !in X) && (x in X ==> x in A) {
      AbsentGrew(s, t, X, x);
    }
    if X == {} {
      FewerAbsent(B, A);
      PassesGrow(b', |B|, b, |A|);
    } else {
      Inhabited(X);
      var x :| x in X;
      FewerAbsent(B, A - {x});
      PassesGrow(b', |B|, b, |A| - 1);
      PricingPays(b, |A|);
    }
  }

  lemma BranchNarrows(b: Bnds, vx: real)
    requires IntBounds(b) && TwoSided(b.typx) && InBounds(b, vx) && !IsInt(vx)
    ensures Width(Down(b, vx)) + 1 <= Width(b) && Width(Up(b, vx)) + 1 <= Width(b)
  {
    BranchBounds(b, vx);
    var f := vx.Floor;
    assert (f as real).Floor == f && (f as real + 1.0).Floor == f + 1;
    assert b.lb.Floor <= f < b.ub.Floor;
  }

  lemma ChildCost(ms: Master, ints: set<int>, P: Prob, x: int, b: Bnds)
    requires x in P.at && x in IntCols(ms, ints) && Width(b) + 1 <= Width(P.at[x].bnds)
    ensures var w := Breadth(ms, ints, P); w >= 1 && Cost(ms, ints, WithBnds(P, x, b)) <= Passes(w - 1, |Absent(ms, P)|)
  {
    hide Passes, Width;
    var Q := WithBnds(P, x, b);
    var f, g, S := WidthAt(ms, P), WidthAt(ms, Q), IntCols(ms, ints);
    SumPick(f, S, x);
    SumPick(g, S, x);
    SumAtMost(g, f, S - {x}, S - {x});
    SameSet(Absent(ms, Q), Absent(ms, P));
    PassesGrow(Breadth(ms, ints, Q), |Absent(ms, P)|, Breadth(ms, ints, P) - 1, |Absent(ms, P)|);
  }

  lemma BranchCost(ms: Master, ints: set<int>, P: Prob, x: int, vx: real)
    requires x in P.at && x in ints && IsCol(ms, x) && IntBounds(P.at[x].bnds) && TwoSided(P.at[x].bnds.typx)
    requires InBounds(P.at[x].bnds, vx) && !IsInt(vx)
    ensures var b := P.at[x].bnds;
            Cost(ms, ints, WithBnds(P, x, Down(b, vx))) + Cost(ms, ints, WithBnds(P, x, Up(b, vx))) + 1 <= Cost(ms, ints, P)
  {
    hide Passes, Width, Breadth, Down, Up, IntBounds, InBounds, IsInt;
    var b := P.at[x].bnds;
    BranchNarrows(b, vx);
    ChildCost(ms, ints, P, x, Down(b, vx));
    ChildCost(ms, ints, P, x, Up(b, vx));
    BranchingPays(Breadth(ms, ints, P), |Absent(ms, P)|);
  }

  // ----- the work that is left

  lemma LoadDropped(s: St, t: St, v: int, ints: set<int>)
    requires Replaces(s, t, v, {}) && Active(s, v) && Shrunk(s.master, t.master)
    ensures Load(t, ints) + 1 <= Load(s, ints)
  {
    hide Cost;
    var f, g, S, T := CostAt(s, ints), CostAt(t, ints), ActiveSet(s), ActiveSet(t);
    CostShrunk(s.master, s.master, ints, ProbOf(s, v));
    SumPick(f, S, v);
    forall u | u in T ensures u in S - {v} && g(u) <= f(u) {
      CostShrunk(s.master, t.master, ints, ProbOf(s, u));
    }
    SumAtMost(g, f, T, S - {v});
  }

  lemma LoadGrew(s: St, t: St, X: set<int>, ints: set<int>)
    requires Grew(s, t, X) && Active(s, s.cur)
    ensures Load(t, ints) + (if X == {} then 0 else 1) <= Load(s, ints)
  {
    hide Cost;
    var v := s.cur;
    var f, g, S, T := CostAt(s, ints), CostAt(t, ints), ActiveSet(s), ActiveSet(t);
    CostGrew(s, t, X, ints);
    SumPick(f, S, v);
    SumPick(g, T, v);
    forall u | u in T - {v} ensures u in S - {v} && g(u) <= f(u) {
      CostShrunk(s.master, t.master, ints, ProbOf(s, u));
    }
    SumAtMost(g, f, T - {v}, S - {v});
  }

  lemma LoadSplit(s: St, t: St, v: int, c: int, d: int, x: int, vx: real, ints: set<int>)
    requires v == s.cur && Active(s, v) && x in s.inst.at && Split(s, t, v, c, d, x, vx)
    requires x in ints && IsCol(s.master, x) && IntBounds(s.inst.at[x].bnds) && TwoSided(s.inst.at[x].bnds.typx)
    requires InBounds(s.inst.at[x].bnds, vx) && !IsInt(vx)
    ensures Load(t, ints) + 1 <= Load(s, ints)
  {
    hide Cost, Down, Up, IntBounds, InBounds, IsInt, WithBnds;
    var f, g, S, T := CostAt(s, ints), CostAt(t, ints), ActiveSet(s), ActiveSet(t);
    BranchCost(s.master, ints, s.inst, x, vx);
    SumPick(f, S, v);
    SumPick(g, T, c);
    SumPick(g, T - {c}, d);
    SumAtMost(g, f, T - {c} - {d}, S - {v});
  }
}
