/** The branch-and-cut driver as an object over the enumeration tree. */
module BcsClass {
  import opened Collections
  import opened IesModel
  import opened IesState
  import opened IesHeld
  import opened IesDelete
  import opened IesClass
  import opened BcsModel
  import opened BcsSearch
  import opened BcsDriver
  import opened BcsBound

  /** When the search ends: without a solution there is no integer feasible point; otherwise the best value is attained and
      every integer feasible point costs at least best - 1e-7*|best|. */
  ghost predicate Solved(mip: Mip, found: bool, best: real) {
    && Achieved(mip, found, best)
    && forall pt :: mip.feasible(pt) ==> found && mip.obj(pt) >= best - 0.0000001 * (if best < 0.0 then -best else best)
  }

  /** Every integer feasible point has an integer objective value. */
  ghost predicate WholeCosts(mip: Mip) {
    forall pt :: mip.feasible(pt) ==> IsInt(mip.obj(pt))
  }

  /** With integer objective values below ten million the margin does not matter: the best value is the optimum. */
  lemma ExactOptimum(mip: Mip, best: real)
    requires Solved(mip, true, best) && WholeCosts(mip) && -10000000.0 < best < 10000000.0
    ensures forall pt :: mip.feasible(pt) ==> mip.obj(pt) >= best
  {
    var at :| mip.feasible(at) && mip.obj(at) == best;
    assert IsInt(best);
    forall pt | mip.feasible(pt) ensures mip.obj(pt) >= best {
      assert IsInt(mip.obj(pt)) && mip.obj(pt) > best - 1.0;
      NextWhole(mip.obj(pt), best);
    }
  }

  lemma NextWhole(x: real, y: real)
    requires IsInt(x) && IsInt(y) && x > y - 1.0
    ensures x >= y
  {
    assert (x.Floor - y.Floor) as real == x - y;
  }

  lemma NothingOpen(mip: Mip, s: St, mean: Rows, found: bool, best: real)
    requires Searching(mip, s, mean, found, best) && forall v :: v in s.nodes ==> s.nodes[v].count >= 0
    ensures Solved(mip, found, best)
  {
    hide InRegion, NodeOk, MipOk, Achieved;
    forall pt | mip.feasible(pt) ensures found && mip.obj(pt) >= best - 0.0000001 * (if best < 0.0 then -best else best) {
      NotOpen(mip, s, pt);
      NotBetter(mip, s, found, best, pt);
    }
  }

  lemma NotOpen(mip: Mip, s: St, pt: Point)
    requires forall v :: v in s.nodes ==> s.nodes[v].count >= 0
    ensures !Open(mip, s, pt)
  {
  }

  lemma NotBetter(mip: Mip, s: St, found: bool, best: real, pt: Point)
    requires Covered(mip, s, found, best) && !Open(mip, s, pt)
    ensures !Better(mip, found, best, pt)
  {
  }

  /** Inactive nodes have children, so a tree without active nodes is empty. */
  lemma NoNodes(s: St, n: int)
    requires Inv(s) && Busy(s.nodes) && (forall v :: v in s.nodes ==> s.nodes[v].count >= 0) && forall v :: v in s.nodes ==> v < n
    ensures s.nodes == map[]
    decreases n
  {
    hide RefsOk, AllNamesOk, AllFaithful, CurrentOk;
    if n - 1 in s.nodes {
      NewestHasNoChild(s.nodes, n - 1);
    }
    if n > 0 {
      NoNodes(s, n - 1);
    } else {
      MapInhabited(s.nodes);
    }
  }

  lemma NewestHasNoChild(nodes: Nodes, v: int)
    requires TreeOk(nodes) && CountsOk(nodes) && v in nodes && forall u :: u in nodes ==> u <= v
    ensures nodes[v].count <= 0
  {
    forall w ensures w !in Children(nodes, v) {
    }
    SameSet(Children(nodes, v), {});
  }

  /** With no node left nothing is counted, so no row is left either. */
  lemma NoRowsLeft(s: St)
    requires Inv(s) && RowsHeld(s) && s.nodes == map[] && s.cur == -1
    ensures forall x :: x in s.master ==> s.master[x].what == Col && x in s.count && s.count[x] == 0
  {
    hide AllNamesOk, AllFaithful, CurrentOk;
    forall x | x in s.master ensures s.master[x].what == Col && x in s.count && s.count[x] == 0 {
      SameSet(Adders(s.nodes, x), {});
      NotHeld(s, x);
    }
  }

  lemma NotHeld(s: St, x: int)
    requires RowsHeld(s) && x in s.master && x in s.count && s.count[x] == 0 && s.cur !in s.nodes
    ensures s.master[x].what == Col
  {
    assert !Held(s, x);
  }

  class Driver {
    const tree: Tree
    const ints: set<int>
    ghost const mip: Mip
    var job: int
    var found: bool
    var best: real
    var mean: Rows

    ghost predicate Valid()
      reads this, tree
    {
      tree.Valid() && ints == mip.ints && DriverOk(mip, tree.Now(), mean, job, found, best)
    }

    /** The whole search is over: no job, no constraint is left in the workspace, only variables, and the claim holds. */
    ghost predicate Finished()
      reads this, tree
    {
      && tree.Valid() && tree.nodes == map[] && tree.cur == -1 && Solved(mip, found, best)
      && forall x :: x in tree.master ==> tree.master[x].what == Col && x in tree.count && tree.count[x] == 0
    }

    /** create_wksp and the root subproblem, which is empty. */
    constructor (ghost problem: Mip, integer: set<int>)
      requires problem.ints == integer && forall pt, x :: problem.feasible(pt) && x in integer ==> IsInt(pt(x))
      ensures Valid() && fresh(tree) && mip == problem && !found && tree.master == map[] && tree.nextItem == 0
      ensures ints == integer && mean == map[] && tree.inst == Prob(map[], 0.0) && forall v :: v in tree.nodes ==> v == tree.cur
    {
      hide Inv, RowsHeld, LogOk, DriverOk;
      tree := new Tree();
      ints, mip, found, best, mean := integer, problem, false, 0.0, map[];
      new;
      job := tree.CreateNode(-1);
      tree.Revive(job);
      InvParts(tree.Now());
      RootDriver(mip, tree.Now());
    }

    /** bcs_add_var, with the reference number it gives to the variable. */
    method AddVar(it: Item)
      requires Valid() && it.what == Col
      requires forall pt :: mip.feasible(pt) ==> InBounds(Bnds(it.typx, it.lb, it.ub), pt(tree.nextItem))
      requires tree.nextItem in ints ==> IntBounds(Bnds(it.typx, it.lb, it.ub))
      requires tree.nextItem !in mean
      modifies tree
      ensures Valid() && tree.master == old(tree.master)[old(tree.nextItem) := it] && tree.inst == old(tree.inst)
      ensures tree.nextItem == old(tree.nextItem) + 1 && tree.nodes == old(tree.nodes) && tree.cur == old(tree.cur)
    {
      hide Inv, Searching, RowsHeld;
      ghost var s := tree.Now();
      var x := tree.AddMaster(it);
      NewItemStep(mip, s, tree.Now(), mean, mean, found, best, x, it);
      NewColHeld(s, tree.Now(), x, it);
    }

    /** include_vars and incl_by_red_cost: columns enter the current subproblem. */
    method IncludeCols(X: set<int>)
      requires Valid() && CanInclude(tree.master, tree.inst, X)
      modifies tree
      ensures Valid() && tree.nodes == old(tree.nodes) && tree.saved == old(tree.saved) && tree.master == old(tree.master) && tree.cur == old(tree.cur)
      ensures tree.inst == WithDefaults(tree.master, old(tree.inst), X) && Grew(old(tree.Now()), tree.Now(), X)
    {
      hide Inv, Searching, RowsHeld, WithDefaults, Grew;
      ghost var s := tree.Now();
      ColumnsValid(mip, s, mean, X);
      ColumnsHeld(s, X);
      tree.AddItems(X);
      GrownIs(s.master, s.inst, X, tree.inst);
      GrowStep(mip, s, tree.Now(), mean, found, best, X);
      GrewCols(s, tree.Now(), X);
    }

    /** The application creates constraints; all of them are marked and enter the current subproblem at once. */
    method IncludeRows(rows: seq<NewRow>) returns (X: set<int>)
      requires Valid() && GoodRows(mip, tree.master, tree.inst, rows)
      modifies this`mean, tree
      ensures Valid() && tree.nodes == old(tree.nodes) && tree.saved == old(tree.saved)
      ensures |X| == |rows| && X !! old(tree.master.Keys) && X <= tree.master.Keys
      ensures tree.inst == WithDefaults(tree.master, old(tree.inst), X) && Grew(old(tree.Now()), tree.Now(), {})
    {
      hide Inv, Searching, RowsHeld, WithDefaults, RowsHeldBut, LogOk, GoodRows, Pending, Grew;
      ghost var s0 := tree.Now();
      X := {};
      var k := 0;
      PendingStart(mip, s0, mean, found, best);
      while k < |rows|
        invariant 0 <= k <= |rows| && tree.Valid() && |X| == k && Pending(mip, s0, tree.Now(), mean, found, best, X)
      {
        ghost var s := tree.Now();
        PendingParts(mip, s0, s, mean, found, best, X);
        var x := tree.AddMaster(rows[k].it);
        PendingStep(mip, s0, s, tree.Now(), mean, found, best, X, x, rows, k);
        mean := mean[x := rows[k].holds];
        X := X + {x};
        k := k + 1;
      }
      ghost var s := tree.Now();
      PendingParts(mip, s0, s, mean, found, best, X);
      CurrentLive(s0);
      PendingValid(mip, s0, s, mean, found, best, X);
      tree.AddItems(X);
      GrownIs(s.master, s.inst, X, tree.inst);
      GrowStep(mip, s, tree.Now(), mean, found, best, X);
      GrewRows(mip, s0, s, tree.Now(), mean, found, best, X);
    }

    /** choose_job: the active node added last. */
    method ChooseJob() returns (v: int)
      requires tree.Valid()
      ensures v == -1 ==> forall u :: u in tree.nodes ==> tree.nodes[u].count >= 0
      ensures v != -1 ==> v in tree.nodes && tree.nodes[v].count < 0
      ensures v != -1 ==> forall u :: u in tree.nodes && tree.nodes[u].count < 0 ==> u <= v
    {
      hide Inv;
      NodesFrom0(tree.Now());
      v := tree.nextNode - 1;
      while v >= 0
        invariant -1 <= v < tree.nextNode && forall u :: u in tree.nodes && u > v ==> tree.nodes[u].count >= 0
      {
        if v in tree.nodes && tree.nodes[v].count < 0 {
          return;
        }
        v := v - 1;
      }
    }

    /** The branch of the current subproblem, which has been fathomed, is pruned; no node is current then. */
    method Prune()
      requires Valid() && Fathomed(mip, tree.Now(), found, best)
      modifies tree
      ensures tree.Valid() && tree.cur == -1 && RowsHeld(tree.Now()) && Busy(tree.nodes) && Searching(mip, tree.Now(), mean, found, best)
      ensures forall x :: x in mean ==> !IsCol(tree.master, x)
      ensures job !in tree.nodes && Replaces(old(tree.Now()), tree.Now(), job, {}) && Shrunk(old(tree.master), tree.master)
    {
      hide Inv, Shrunk, Searching, Fathomed, Pruned, RowsHeld, RowsGo, Replaces, LogOk, BranchGone, IsCol;
      ghost var s := tree.Now();
      var ms := tree.master;
      var keep := (x: int) => x in ms && ms[x].what == Col;
      RowsMayGo(ms, keep);
      OthersBusy(s, job);
      var ok := tree.PruneBranch(job, keep);
      PruneStep(mip, s, tree.Now(), mean, found, best, job);
      PrunedMean(s, tree.Now(), job, mean);
      PrunedReplaces(s, tree.Now(), job, mean);
      PrunedShrunk(s, tree.Now(), job);
    }

    /** The current subproblem has been fathomed: prune the branch and go on with the newest active subproblem. */
    method Fathom() returns (done: bool)
      requires Valid() && Fathomed(mip, tree.Now(), found, best)
      modifies this`job, tree
      ensures !done ==> Valid() && forall u :: Active(tree.Now(), u) ==> u <= job
      ensures done ==> Finished()
      ensures old(job) !in tree.nodes && Replaces(old(tree.Now()), tree.Now(), old(job), {}) && Shrunk(old(tree.master), tree.master)
      ensures done <==> forall u :: Active(old(tree.Now()), u) ==> u == old(job)
    {
      hide Inv, Shrunk, Searching, Fathomed, RowsHeld, Solved, Replaces, IsCol;
      ghost var s, v := tree.Now(), job;
      Prune();
      ghost var t := tree.Now();
      InvParts(t);
      job := ChooseJob();
      OnlyOne(s, t, v, job);
      if job == -1 {
        NothingOpen(mip, t, mean, found, best);
        NoNodes(t, tree.nextNode);
        NoRowsLeft(t);
        return true;
      }
      NodesFrom0(t);
      tree.Revive(job);
      RevivedSame(mip, t, tree.Now(), mean, found, best);
      RevivedReplaces(s, t, tree.Now(), v, {});
      done := false;
    }

    /** new_bound: the local bounds of column x in the current subproblem. */
    method NewBound(x: int, b: Bnds)
      requires tree.Valid() && tree.cur in tree.nodes && tree.nodes[tree.cur].count < 0 && x in tree.inst.at
      modifies tree`inst
      ensures tree.Valid() && tree.inst == WithBnds(old(tree.inst), x, b)
      ensures old(RowsHeld(tree.Now())) ==> RowsHeld(tree.Now())
    {
      hide Inv, RowsHeld;
      tree.SetAttr(x, tree.inst.at[x].(bnds := b));
    }

    /** Create a child of `parent` and make it current; it has the problem of its parent. */
    method OpenChild(parent: int) returns (c: int)
      requires tree.Valid() && tree.cur in tree.nodes && tree.nodes[tree.cur].count < 0 && RowsHeld(tree.Now())
      requires parent in tree.nodes && parent in tree.saved && (parent == tree.cur || tree.nodes[parent].count >= 0)
      modifies tree
      ensures tree.Valid() && RowsHeld(tree.Now()) && Derived(old(tree.Now()), tree.Now(), parent, c)
      ensures tree.inst == old(ProbOf(tree.Now(), parent))
    {
      hide Inv, RowsHeld, LogOk, Derived, Created;
      ghost var s := tree.Now();
      InvParts(s);
      NodesFrom0(s);
      c := tree.CreateNode(parent);
      ghost var t := tree.Now();
      CreatedIntro(s, t, parent, c);
      tree.Revive(c);
      InvParts(tree.Now());
      OpenedDerived(s, t, tree.Now(), parent, c);
    }

    /** Create a child of `parent`, make it current and change the bounds of column x in it. */
    method Derive(parent: int, x: int, b: Bnds) returns (c: int)
      requires tree.Valid() && tree.cur in tree.nodes && tree.nodes[tree.cur].count < 0 && RowsHeld(tree.Now())
      requires parent in tree.nodes && parent in tree.saved && (parent == tree.cur || tree.nodes[parent].count >= 0)
      requires x in ProbOf(tree.Now(), parent).at
      modifies tree
      ensures tree.Valid() && RowsHeld(tree.Now()) && Derived(old(tree.Now()), tree.Now(), parent, c)
      ensures tree.inst == WithBnds(old(ProbOf(tree.Now(), parent)), x, b)
    {
      hide Inv, RowsHeld, WithBnds, LogOk;
      c := OpenChild(parent);
      NewBound(x, b);
    }

    /** Derive the down branch and the up branch; the latter becomes the current subproblem. */
    method Branch(x: int, vx: real) returns (c: int)
      requires Valid() && x in tree.inst.at && x in ints && IsCol(tree.master, x)
      requires TwoSided(tree.inst.at[x].bnds.typx) && InBounds(tree.inst.at[x].bnds, vx) && !IsInt(vx)
      modifies this`job, tree
      ensures Valid() && x in old(tree.inst).at && Split(old(tree.Now()), tree.Now(), old(job), c, job, x, vx)
    {
      hide Inv, Searching, RowsHeld, WithBnds, Down, Up, InBounds, IsInt, IsCol, Derived;
      ghost var s := tree.Now();
      InvParts(s);
      var parent := job;
      var b := tree.inst.at[x].bnds;
      c := Derive(parent, x, Down(b, vx));
      ghost var s1 := tree.Now();
      DerivedParent(s, s1, parent, c);
      var d := Derive(parent, x, Up(b, vx));
      job := d;
      BothDerived(s, s1, tree.Now(), parent, c, d);
      BranchStep(mip, s, tree.Now(), mean, found, best, parent, c, d, x, vx);
    }

    /** One pass of the main loop of bcs_driver; a pass that branches does so on column x, c and `job` are the children. The
        checks fail exactly if the solver finds neither an optimum nor infeasibility, or if the branching variable was not created
        with two bounds. */
    method Pass(a: Answer) returns (done: bool, fault: bool, ghost x: int, ghost c: int)
      requires Valid() && Truthful(mip, tree.master, mean, tree.inst, a)
      modifies this, tree
      ensures !done ==> Valid()
      ensures done ==> Finished()
      ensures var move := old(MoveOf(a, found, best, FractionalIn(tree.master, ints, tree.inst, a)));
              && (found, best) == (if move == Accept then (true, a.z) else old((found, best)))
              && (move == Enlarge ==> !done && job == old(job) && Grew(old(tree.Now()), tree.Now(), a.priced) &&
                                      old(tree.inst).at.Keys < tree.inst.at.Keys)
              && (move == Drop || move == Accept ==> old(job) !in tree.nodes && Replaces(old(tree.Now()), tree.Now(), old(job), {}) &&
                                                     Shrunk(old(tree.master), tree.master))
              && (done <==> (move == Drop || move == Accept) && forall u :: Active(old(tree.Now()), u) ==> u == old(job))
              && (move == Branching ==> x in old(FractionalIn(tree.master, ints, tree.inst, a)) && x in old(tree.inst).at)
              && (fault <==> move == Stuck || (move == Branching && x in old(tree.master) && !TwoSided(old(tree.master)[x].typx)))
              && (fault ==> tree.Now() == old(tree.Now()) && mean == old(mean) && job == old(job))
              && (move == Branching && !fault ==> x in old(tree.inst).at && Split(old(tree.Now()), tree.Now(), old(job), c, job, x, a.val[x]))
    {
      hide Inv, RowsHeld, NodeOk, LpPoint, InRegion, InBounds, IsInt, Covered, Achieved, MipOk, Replaces, Split, WithDefaults, Grew, Shrunk;
      done, fault, x, c := false, false, 0, 0;
      if a.Undefined? {
        fault := true;
        return;
      }
      CurrentNodeOk(mip, tree.Now(), mean);
      if a.priced != {} {
        GrownKeys(tree.master, tree.inst, a.priced);
        IncludeCols(a.priced);
        return;
      }
      if a.NoFeas? {
        FathomInfeasible(mip, tree.Now(), mean, found, best);
        done := Fathom();
        return;
      }
      if found && a.z > best - Eps(best) {
        FathomByBound(mip, tree.Now(), mean, best, a.z);
        done := Fathom();
        return;
      }
      if a.cons != [] {
        Enlarging(a.cons);
        return;
      }
      var nonint := Fractional(tree.master, ints, tree.inst, a.val);
      if nonint == {} {
        StillCovered(mip, tree.Now(), found, best, a.z);
        NowAchieved(mip, a.z);
        EpsPositive(a.z);
        found, best := true, a.z;
        FathomByBound(mip, tree.Now(), mean, best, a.z);
        done := Fathom();
        return;
      }
      if a.cuts != [] {
        Enlarging(a.cuts);
        return;
      }
      Inhabited(nonint);
      var y := a.branch;
      if y !in nonint {
        y :| y in nonint;
      }
      x := y;
      SidesKnown(mip, tree.master, mean, tree.inst, y);
      fault := !TwoSided(tree.inst.at[y].bnds.typx);
      if !fault {
        c := Branch(y, a.val[y]);
      }
    }

    /** bcs_driver from the main loop on, for at most `limit` passes, `grown` of which added constraints. Unless it fails, the search ends
        after at most Load + grown passes; a first pass that settles the only open subproblem ends it. */
    method Search(ask: (nat, Master, Rows, Prob) -> Answer, limit: nat) returns (done: bool, fault: bool, ghost grown: nat, ghost at: nat)
      requires Valid() && Oracle(mip, ask)
      modifies this, tree
      ensures !(done && fault) && (!done ==> Valid())
      ensures fault ==> ask(at, tree.master, mean, tree.inst).Undefined? || OneSided(ints, tree.master)
      ensures done ==> Solved(mip, found, best) && tree.master == map[] && tree.nodes == map[]
      ensures done && found && WholeCosts(mip) && -10000000.0 < best < 10000000.0 ==> forall pt :: mip.feasible(pt) ==> mip.obj(pt) >= best
      ensures done ==> ReleasedOnce(tree.itemsGone, tree.nextItem) && ReleasedOnce(tree.nodesGone, tree.nextNode)
      ensures !done && !fault ==> limit <= old(Load(tree.Now(), ints)) + grown
      ensures NoRows(ask) ==> grown == 0
      ensures limit > 0 && old(Settles(tree.Now(), found, best, ints, ask(0, tree.master, mean, tree.inst))) ==>
                done && (found, best) == old(Settled(found, best, ask(0, tree.master, mean, tree.inst)))
    {
      hide DriverOk, Finished, Oracle, Solved, ReleasedOnce, Load, NoRows, OneSided, Settles, Settled, WholeCosts;
      done, fault, grown, at := false, false, 0, 0;
      var k := 0;
      ghost var s0, mean0, found0, best0 := tree.Now(), mean, found, best;
      ghost var first := ask(0, s0.master, mean0, s0.inst);
      while k < limit
        invariant 0 <= k <= limit && Valid() && k + Load(tree.Now(), ints) <= Load(s0, ints) + grown
        invariant k == 0 ==> tree.Now() == s0 && mean == mean0 && found == found0 && best == best0
        invariant k > 0 ==> !Settles(s0, found0, best0, ints, first)
        invariant NoRows(ask) ==> grown == 0
      {
        ghost var more;
        done, fault, more := Round(ask, k);
        at := k;
        if done {
          DeleteVars();
          if found && WholeCosts(mip) && -10000000.0 < best < 10000000.0 {
            ExactOptimum(mip, best);
          }
          return;
        }
        if fault {
          return;
        }
        grown := grown + more;
        k := k + 1;
      }
    }

    /** One pass with the answer to the question it asks; `more` is 1 if constraints were added. */
    method Round(ask: (nat, Master, Rows, Prob) -> Answer, k: nat) returns (end: bool, bad: bool, ghost more: nat)
      requires Valid() && Oracle(mip, ask)
      modifies this, tree
      ensures !(end && bad) && (if end then Finished() else Valid())
      ensures bad ==> ask(k, tree.master, mean, tree.inst).Undefined? || OneSided(ints, tree.master)
      ensures !end && !bad ==> Load(tree.Now(), ints) + 1 <= old(Load(tree.Now(), ints)) + more
      ensures NoRows(ask) ==> more == 0
      ensures old(Settles(tree.Now(), found, best, ints, ask(k, tree.master, mean, tree.inst))) ==>
                end && (found, best) == old(Settled(found, best, ask(k, tree.master, mean, tree.inst)))
    {
      hide DriverOk, Finished, Truthful, Oracle, Solved, Split, Replaces, Grew, Shrunk, FractionalIn, MoveOf, Load, NoRows, OneSided, Settled, AddsRows;
      ghost var s, f, z, v, mn := tree.Now(), found, best, job, mean;
      AskedTruly(mip, s, mean, job, found, best, ask, k);
      CurrentActive(mip, s, mean, job, found, best);
      var a := ask(k, tree.master, mean, tree.inst);
      ghost var x, c;
      end, bad, x, c := Pass(a);
      more := if AddsRows(a) then 1 else 0;
      AsksRows(ask, k, s.master, mn, s.inst);
      SettledIs(s, f, z, ints, a);
      if bad {
        FaultKnown(s, ints, f, z, a, x);
      } else if !end {
        PassLoad(mip, s, tree.Now(), mn, v, f, z, a, x, c, job, ints);
      }
    }

    /** New constraints make the current subproblem larger. */
    method Enlarging(rows: seq<NewRow>)
      requires Valid() && GoodRows(mip, tree.master, tree.inst, rows) && rows != []
      modifies this`mean, tree
      ensures Valid() && Grew(old(tree.Now()), tree.Now(), {})
      ensures old(tree.inst).at.Keys < tree.inst.at.Keys
    {
      hide Inv, Searching, RowsHeld, GoodRows, WithDefaults, Grew;
      CurrentLive(tree.Now());
      var X := IncludeRows(rows);
      GrownKeys(tree.master, old(tree.inst), X);
    }

    /** The end of bcs_driver: all variables are deleted from the workspace. */
    method DeleteVars()
      requires Finished()
      modifies tree
      ensures tree.Valid() && tree.master == map[] && tree.nodes == map[] && Solved(mip, found, best)
      ensures tree.nextItem == old(tree.nextItem) && tree.nextNode == old(tree.nextNode)
      ensures ReleasedOnce(tree.itemsGone, tree.nextItem) && ReleasedOnce(tree.nodesGone, tree.nextNode)
    {
      hide Inv, Solved;
      var todo := tree.master.Keys;
      while todo != {}
        invariant tree.Valid() && tree.nextItem == old(tree.nextItem) && tree.nextNode == old(tree.nextNode)
        invariant tree.nodes == map[] && tree.cur == -1 && tree.master.Keys == todo && Solved(mip, found, best)
        invariant forall x :: x in tree.master ==> x in tree.count && tree.count[x] == 0
        decreases |todo|
      {
        Inhabited(todo);
        var x :| x in todo;
        tree.DelMaster(x);
        todo := todo - {x};
      }
      MapInhabited(tree.master);
    }
  }

  /** Each of the numbers 0..next-1 that were ever given out was released exactly once, and nothing else was. */
  ghost predicate ReleasedOnce(log: multiset<int>, next: int) {
    forall x :: log[x] == if 0 <= x < next then 1 else 0
  }

  /** Solver and application procedure together: every answer they give about a node problem in order is true. The answers may depend
      on the number of the pass, so that the application may have a state of its own; a solver that finds neither an optimum nor
      infeasibility may say so. */
  ghost predicate Oracle(mip: Mip, ask: (nat, Master, Rows, Prob) -> Answer) {
    forall k, ms, mean, P :: MipOk(mip, ms) && NodeOk(mip, ms, mean, P) ==> Truthful(mip, ms, mean, P, ask(k, ms, mean, P))
  }

  predicate AddsRows(a: Answer) {
    a.Opt? && (a.cons != [] || a.cuts != [])
  }

  /** No constraints and no cutting planes are ever generated. */
  ghost predicate NoRows(ask: (nat, Master, Rows, Prob) -> Answer) {
    forall k, ms, mean, P :: !AddsRows(ask(k, ms, mean, P))
  }

  /** Some integer variable was not created with two bounds. */
  ghost predicate OneSided(ints: set<int>, ms: Master) {
    exists x :: x in ints && x in ms && !TwoSided(ms[x].typx)
  }

  /** The answer gives up the current subproblem or solves it, and no other one is open. */
  ghost predicate Settles(s: St, found: bool, best: real, ints: set<int>, a: Answer) {
    && (var move := MoveOf(a, found, best, FractionalIn(s.master, ints, s.inst, a)); move == Drop || move == Accept)
    && forall u :: Active(s, u) ==> u == s.cur
  }

  /** Best known solution after such an answer. */
  function Settled(found: bool, best: real, a: Answer): (bool, real) {
    if a.Opt? && !(found && a.z > best - 0.0000001 * (if best < 0.0 then -best else best)) then (true, a.z) else (found, best)
  }

  /** A child c of v is new and current; v is inactive; every other active node keeps its problem. */
  ghost predicate Derived(s: St, t: St, v: int, c: int) {
    && t.master == s.master && t.cur == c && c !in s.nodes && t.nodes.Keys == s.nodes.Keys + {c} && t.saved.Keys == t.nodes.Keys
    && v in s.nodes && v in s.saved && t.nodes[c].count < 0 && t.nodes[v].count >= 1 && t.saved[v] == ProbOf(s, v)
    && (forall u :: u in s.nodes && u != v ==> t.nodes[u].count == s.nodes[u].count)
    && (forall u :: u in s.nodes && u != v && u in s.saved && s.nodes[u].count < 0 ==> t.saved[u] == ProbOf(s, u))
  }

  /** Node c is a new child of v, and nothing else is new; the tree keeps its current node. */
  ghost predicate Created(s: St, t: St, v: int, c: int) {
    && t.master == s.master && t.cur == s.cur && t.inst == s.inst && c !in s.nodes && t.nodes.Keys == s.nodes.Keys + {c}
    && v in s.nodes && v in s.saved && v in t.saved && t.nodes[c].count < 0 && t.nodes[v].count >= 1
    && t.saved[v] == ProbOf(s, v) && c in t.saved && t.saved[c] == ProbOf(s, v)
    && (forall u :: u in s.nodes && u != v ==> t.nodes[u].count == s.nodes[u].count)
    && (forall u :: u in s.nodes && u != v ==> u in s.saved && u in t.saved && t.saved[u] == s.saved[u])
  }

  /** What the contract of ies_create_node says, for a parent that is the current active node or not active. */
  lemma CreatedIntro(s: St, t: St, v: int, c: int)
    requires t.master == s.master && t.cur == s.cur && t.inst == s.inst && c !in s.nodes && t.nodes.Keys == s.nodes.Keys + {c}
    requires v in s.nodes && v in s.saved && v in t.saved && c in t.saved && t.nodes[c].count < 0 && t.nodes[v].count >= 1
    requires if v == s.cur then t.saved[c] == t.saved[v] == s.inst
             else t.saved[c] == t.saved[v] == s.saved[v]
    requires forall u :: u in s.nodes && u != v ==>
               u in t.saved && u in s.saved && t.saved[u] == s.saved[u] && t.nodes[u].count == s.nodes[u].count
    ensures Created(s, t, v, c)
  {
  }

  /** The new node becomes current. */
  lemma OpenedDerived(s: St, t: St, w: St, v: int, c: int)
    requires Created(s, t, v, c) && w.cur == c && w.master == t.master && w.nodes.Keys == t.nodes.Keys && w.saved.Keys == w.nodes.Keys
    requires s.cur in s.nodes && s.nodes[s.cur].count < 0
    requires forall u :: u in w.nodes ==> u in t.nodes && w.nodes[u].count == t.nodes[u].count
    requires w.saved == if t.cur in w.nodes && w.nodes[t.cur].count < 0 then t.saved[t.cur := t.inst] else t.saved
    requires c in t.saved && w.inst == t.saved[c]
    ensures Derived(s, w, v, c) && w.inst == ProbOf(s, v)
  {
  }

  lemma DerivedParent(s: St, t: St, v: int, c: int)
    requires Derived(s, t, v, c)
    ensures t.cur in t.nodes && t.nodes[t.cur].count < 0 && v in t.nodes && v in t.saved && t.nodes[v].count >= 0
    ensures v in s.saved && v != t.cur && ProbOf(t, v) == ProbOf(s, v)
  {
  }

  /** After both children have been derived the active nodes are the old ones without the parent, and the children. */
  lemma BothDerived(s: St, s1: St, t: St, v: int, c: int, d: int)
    requires Derived(s, s1, v, c) && Derived(s1, t, v, d) && v == s.cur && Active(s, v) && s.saved.Keys == s.nodes.Keys
    ensures t.cur == d && t.master == s.master && Active(t, c) && ProbOf(t, c) == s1.inst && Active(t, d) && ProbOf(t, d) == t.inst
    ensures forall u :: Active(t, u) ==> u == c || u == d || (Active(s, u) && u != v)
    ensures forall u :: Active(s, u) && u != v ==> Active(t, u) && ProbOf(t, u) == ProbOf(s, u)
    ensures Busy(s.nodes) ==> Busy(t.nodes)
    ensures c !in s.nodes && d !in s.nodes && c != d && Replaces(s, t, v, {c, d})
  {
  }

  lemma OthersBusy(s: St, v: int)
    requires Busy(s.nodes) && Active(s, v)
    ensures v in s.nodes && s.nodes[v].count <= 0 && forall w :: w in s.nodes && w != v ==> s.nodes[w].count != 0
  {
  }

  lemma PrunedShrunk(s: St, t: St, v: int)
    requires Pruned(s, t, v)
    ensures Shrunk(s.master, t.master)
  {
  }

  /** A node is left to go on with exactly if another one was active before. */
  lemma OnlyOne(s: St, t: St, v: int, job: int)
    requires Replaces(s, t, v, {}) && t.saved.Keys == t.nodes.Keys
    requires job == -1 ==> forall u :: u in t.nodes ==> t.nodes[u].count >= 0
    requires job != -1 ==> job in t.nodes && t.nodes[job].count < 0
    ensures job == -1 <==> forall u :: Active(s, u) ==> u == v
  {
    if job != -1 {
      assert job in t.saved.Keys;
      assert Active(t, job);
    }
  }

  lemma GrewCols(s: St, t: St, X: set<int>)
    requires t == s.(inst := WithDefaults(s.master, s.inst, X)) && CanInclude(s.master, s.inst, X)
    ensures Grew(s, t, X)
  {
  }

  lemma GrewRows(mip: Mip, s0: St, s: St, t: St, mean: Rows, found: bool, best: real, X: set<int>)
    requires Pending(mip, s0, s, mean, found, best, X) && t == s.(inst := WithDefaults(s.master, s.inst, X))
    requires s0.inst.at.Keys <= s0.master.Keys
    ensures Grew(s0, t, {})
  {
    hide Searching, RowsHeldBut, NewMeaning;
    forall x | x in s0.inst.at ensures x !in X {
      assert x in s0.master.Keys;
    }
  }

  lemma PrunedReplaces(s: St, t: St, v: int, mean: Rows)
    requires Inv(s) && Inv(t) && Pruned(s, t, v) && v == s.cur && t.cur == -1 && v !in t.nodes
    ensures Replaces(s, t, v, {})
  {
    hide Inv, Pruned;
    forall u | Active(t, u) ensures Active(s, u) && u != v {
      PrunedBack(s, t, v, u);
    }
    forall u | Active(s, u) && u != v ensures Active(t, u) && ProbOf(t, u) == ProbOf(s, u) {
      PrunedAgree(s, t, v, u, mean);
    }
  }

  lemma RevivedReplaces(s: St, r: St, t: St, v: int, kids: set<int>)
    requires Replaces(s, r, v, kids) && r.cur == -1 && -1 !in r.nodes && t.cur in r.saved
    requires t.saved == r.saved && t.nodes.Keys == r.nodes.Keys && t.inst == r.saved[t.cur]
    requires forall u :: u in t.nodes ==> t.nodes[u].count == r.nodes[u].count
    ensures Replaces(s, t, v, kids)
  {
  }

  lemma GrownKeys(ms: Master, P: Prob, X: set<int>)
    requires (forall x :: x in X ==> x in ms && x !in P.at) && X != {}
    ensures P.at.Keys < WithDefaults(ms, P, X).at.Keys
  {
    Inhabited(X);
    var x :| x in X;
    assert x in WithDefaults(ms, P, X).at;
  }

  lemma CurrentNodeOk(mip: Mip, s: St, mean: Rows)
    requires NodesOk(mip, s, mean) && Active(s, s.cur)
    ensures NodeOk(mip, s.master, mean, s.inst)
  {
    assert NodeOk(mip, s.master, mean, ProbOf(s, s.cur));
  }

  lemma AskedTruly(mip: Mip, s: St, mean: Rows, job: int, found: bool, best: real, ask: (nat, Master, Rows, Prob) -> Answer, k: nat)
    requires DriverOk(mip, s, mean, job, found, best) && Oracle(mip, ask)
    ensures Truthful(mip, s.master, mean, s.inst, ask(k, s.master, mean, s.inst))
  {
    hide Inv, RowsHeld, MipOk, NodeOk, Truthful, Covered, Achieved;
    CurrentNodeOk(mip, s, mean);
  }

  lemma CurrentActive(mip: Mip, s: St, mean: Rows, job: int, found: bool, best: real)
    requires DriverOk(mip, s, mean, job, found, best)
    ensures s.cur == job && Active(s, job) && NodeOk(mip, s.master, mean, s.inst)
  {
    hide Inv, RowsHeld, MipOk, NodeOk, Covered, Achieved;
    CurrentNodeOk(mip, s, mean);
  }

  /** Why a pass failed. */
  lemma FaultKnown(s: St, ints: set<int>, found: bool, best: real, a: Answer, x: int)
    requires var move := MoveOf(a, found, best, FractionalIn(s.master, ints, s.inst, a));
             || move == Stuck
             || (move == Branching && x in FractionalIn(s.master, ints, s.inst, a) && x in s.master && !TwoSided(s.master[x].typx))
    ensures a.Undefined? || OneSided(ints, s.master)
  {
  }

  lemma SettledIs(s: St, found: bool, best: real, ints: set<int>, a: Answer)
    ensures var move := MoveOf(a, found, best, FractionalIn(s.master, ints, s.inst, a));
            && (move == Accept ==> Settled(found, best, a) == (true, a.z)) && (move == Drop ==> Settled(found, best, a) == (found, best))
  {
  }

  lemma AsksRows(ask: (nat, Master, Rows, Prob) -> Answer, k: nat, ms: Master, mean: Rows, P: Prob)
    ensures NoRows(ask) ==> !AddsRows(ask(k, ms, mean, P))
  {
  }

  /** A pass that does not add constraints uses up work. */
  lemma PassLoad(mip: Mip, s: St, t: St, mean: Rows, v: int, found: bool, best: real, a: Answer, x: int, c: int, d: int, ints: set<int>)
    requires v == s.cur && Active(s, v) && NodeOk(mip, s.master, mean, s.inst) && ints == mip.ints && Truthful(mip, s.master, mean, s.inst, a)
    requires var nonint := FractionalIn(s.master, ints, s.inst, a);
             var move := MoveOf(a, found, best, nonint);
             && move != Stuck
             && (move == Enlarge ==> Grew(s, t, a.priced))
             && (move == Drop || move == Accept ==> Replaces(s, t, v, {}) && Shrunk(s.master, t.master))
             && (move == Branching ==> x in nonint && x in s.master && TwoSided(s.master[x].typx) && x in s.inst.at && Split(s, t, v, c, d, x, a.val[x]))
    ensures Load(t, ints) + 1 <= Load(s, ints) + if AddsRows(a) then 1 else 0
  {
    hide Load, Grew, Replaces, Split, Shrunk, LpPoint, InBounds, IntBounds, IsInt, RowsValid, GoodRows;
    match MoveOf(a, found, best, FractionalIn(s.master, ints, s.inst, a))
    case Enlarge => LoadGrew(s, t, a.priced, ints);
    case Drop => LoadDropped(s, t, v, ints);
    case Accept => LoadDropped(s, t, v, ints);
    case Branching =>
      assert IntLocal(s.master[x], s.inst.at[x].bnds);
      LoadSplit(s, t, v, c, d, x, a.val[x], ints);
    case Stuck =>
  }

  // ----- a search that ends, with a linear objective

  /** The oracle of the problem `Dynamic`: it knows the optimum of the root problem that contains x0 only, and says nothing
      otherwise. */
  function AskDynamic(k: nat, ms: Master, mean: Rows, P: Prob): Answer {
    var (mip, all, root) := Dynamic();
    if ms == all && mean == map[] && P == root then Opt(0.0, map[0 := 0.0], {}, [], [], -1) else Undefined
  }

  lemma DynamicOracle()
    ensures Oracle(Dynamic().0, AskDynamic) && NoRows(AskDynamic)
  {
    hide MipOk, NodeOk;
    PricedOut();
    forall k: nat, ms, mean, P ensures Truthful(Dynamic().0, ms, mean, P, AskDynamic(k, ms, mean, P)) && !AddsRows(AskDynamic(k, ms, mean, P)) {
      assert AskDynamic(k, ms, mean, P).Undefined? || (ms == Dynamic().1 && mean == map[] && P == Dynamic().2);
    }
  }

  lemma DynamicFeasible()
    ensures var (mip, ms, _) := Dynamic();
            && mip.ints == {0} && (forall pt, x :: mip.feasible(pt) && x in mip.ints ==> IsInt(pt(x)))
            && (forall pt :: mip.feasible(pt) ==> InBounds(Bnds(DB, 0.0, 1.0), pt(0)) && InBounds(Bnds(LO, 0.0, 0.0), pt(1)))
            && ms == map[][0 := Item(Col, DB, 0.0, 1.0, 0.0)][1 := Item(Col, LO, 0.0, 0.0, 1.0)]
            && IntBounds(Bnds(DB, 0.0, 1.0))
  {
    assert IsInt(0.0) && IsInt(1.0);
  }

  lemma DynamicRoot(s: St, best: real)
    requires s.master == Dynamic().1 && s.inst == WithDefaults(s.master, Prob(map[], 0.0), {0}) && forall v :: v in s.nodes ==> v == s.cur
    ensures s.inst == Dynamic().2 && Settles(s, false, best, {0}, AskDynamic(0, s.master, map[], s.inst))
    ensures Settled(false, best, AskDynamic(0, s.master, map[], s.inst)) == (true, 0.0)
  {
    assert s.inst.at == Dynamic().2.at;
    assert IsInt(0.0);
    var a := AskDynamic(0, s.master, map[], s.inst);
    SameSet(FractionalIn(s.master, {0}, s.inst, a), {});
  }

  /** The whole driver on minimize x1, x0 integer in [0, 1], x1 >= 0 and dynamic: the search ends with the optimum although x1 never
      enters the subproblem. */
  method SolveDynamic() returns (d: Driver, done: bool)
    ensures done && d.found && d.best == 0.0 && d.tree.master == map[] && d.tree.nodes == map[]
    ensures Solved(Dynamic().0, d.found, d.best)
    ensures ReleasedOnce(d.tree.itemsGone, d.tree.nextItem) && ReleasedOnce(d.tree.nodesGone, d.tree.nextNode)
  {
    hide DriverOk, Solved, ReleasedOnce, Oracle, NoRows, Load, LogOk, Inv, Settles, Settled, Dynamic, AskDynamic, WithDefaults, InBounds, IntBounds, Grew;
    DynamicFeasible();
    d := new Driver(Dynamic().0, {0});
    d.AddVar(Item(Col, DB, 0.0, 1.0, 0.0));
    d.AddVar(Item(Col, LO, 0.0, 0.0, 1.0));
    d.IncludeCols({0});
    DynamicOracle();
    DynamicRoot(d.tree.Now(), d.best);
    var fault;
    ghost var grown, at;
    done, fault, grown, at := d.Search(AskDynamic, 1);
  }

  lemma SidesKnown(mip: Mip, ms: Master, mean: Rows, P: Prob, x: int)
    requires NodeOk(mip, ms, mean, P) && x in P.at && x in mip.ints && IsCol(ms, x)
    ensures TwoSided(P.at[x].bnds.typx) <==> TwoSided(ms[x].typx)
  {
    assert IntLocal(ms[x], P.at[x].bnds);
  }

  lemma NowAchieved(mip: Mip, z: real)
    requires exists pt :: mip.feasible(pt) && mip.obj(pt) == z
    ensures Achieved(mip, true, z)
  {
  }

  lemma EpsPositive(z: real)
    ensures z >= z - Eps(z)
  {
  }

  lemma RootSearching(mip: Mip, s: St)
    requires s.master == map[] && s.inst == Prob(map[], 0.0) && (forall v :: v in s.nodes ==> v == s.cur) && Active(s, s.cur)
    requires forall pt, x :: mip.feasible(pt) && x in mip.ints ==> IsInt(pt(x))
    ensures Searching(mip, s, map[], false, 0.0)
  {
    forall pt | Better(mip, false, 0.0, pt) ensures Open(mip, s, pt) {
      assert Active(s, s.cur) && InRegion(mip, s.master, ProbOf(s, s.cur), pt);
    }
  }

  /** The search starts with the root as the only node. */
  lemma RootDriver(mip: Mip, s: St)
    requires Inv(s) && s.master == map[] && s.inst == Prob(map[], 0.0) && (forall v :: v in s.nodes ==> v == s.cur) && Active(s, s.cur)
    requires forall pt, x :: mip.feasible(pt) && x in mip.ints ==> IsInt(pt(x))
    ensures DriverOk(mip, s, map[], s.cur, false, 0.0)
  {
    hide Inv, Searching;
    RootSearching(mip, s);
  }

  /** A new master item changes none of the open problems. */
  lemma NewItemStep(mip: Mip, s: St, t: St, mean: Rows, mean': Rows, found: bool, best: real, x: int, it: Item)
    requires Inv(s) && Searching(mip, s, mean, found, best) && x !in s.master && t.master == s.master[x := it]
    requires t.nodes == s.nodes && t.saved == s.saved && t.cur == s.cur && t.inst == s.inst
    requires it.what == Col ==> x in mip.ints ==> IntBounds(Bnds(it.typx, it.lb, it.ub))
    requires it.what == Col ==> forall pt :: mip.feasible(pt) ==> InBounds(Bnds(it.typx, it.lb, it.ub), pt(x))
    requires forall y :: y != x ==> (y in mean' <==> y in mean) && (y in mean && y in mean' ==> mean'[y] == mean[y])
    ensures Searching(mip, t, mean', found, best)
  {
    hide Inv, NodeOk, InRegion, Achieved;
    MipGrows(mip, s.master, x, it);
    forall v | Active(s, v) ensures Agrees(s.master, t.master, mean, mean', ProbOf(s, v)) {
      ProbLive(s, v);
    }
    MasterStep(mip, s, t, mean, mean', found, best);
  }

  lemma MipGrows(mip: Mip, ms: Master, x: int, it: Item)
    requires MipOk(mip, ms) && x !in ms && (it.what == Col ==> x in mip.ints ==> IntBounds(Bnds(it.typx, it.lb, it.ub)))
    requires it.what == Col ==> forall pt :: mip.feasible(pt) ==> InBounds(Bnds(it.typx, it.lb, it.ub), pt(x))
    ensures MipOk(mip, ms[x := it])
  {
    hide InBounds, IntBounds, IsInt;
  }

  lemma NewColHeld(s: St, t: St, x: int, it: Item)
    requires RowsHeld(s) && x !in s.master && t.master == s.master[x := it] && t.count == s.count[x := 0] && it.what == Col
    requires t.nodes == s.nodes && t.cur == s.cur && t.inst == s.inst
    ensures RowsHeld(t)
  {
    forall y | y in t.master && t.master[y].what == Row ensures Held(t, y) {
      assert Held(s, y);
    }
  }

  lemma NewRowHeld(s: St, t: St, X: set<int>, x: int, it: Item)
    requires RowsHeldBut(s, X) && x !in s.master && t.master == s.master[x := it] && t.count == s.count[x := 0]
    requires t.nodes == s.nodes && t.cur == s.cur && t.inst == s.inst
    ensures RowsHeldBut(t, X + {x})
  {
    forall y | y in t.master && t.master[y].what == Row && y !in X + {x} ensures Held(t, y) {
      assert Held(s, y);
    }
  }

  lemma HeldButNone(s: St)
    requires RowsHeld(s)
    ensures RowsHeldBut(s, {})
  {
  }

  lemma ColumnsHeld(s: St, X: set<int>)
    requires RowsHeld(s)
    ensures RowsHeldBut(s, X)
  {
  }

  lemma ColumnsValid(mip: Mip, s: St, mean: Rows, X: set<int>)
    requires CanInclude(s.master, s.inst, X) && forall x :: x in mean ==> !IsCol(s.master, x)
    ensures ValidRows(mip, s.master, mean, s.inst, X) && X !! s.inst.at.Keys && X <= s.master.Keys
  {
    Subset(X, s.master.Keys);
    Disjoint(X, s.inst.at.Keys);
  }

  ghost predicate NewMeaning(mip: Mip, ms: Master, P: Prob, holds: Point -> bool) {
    forall pt :: InRegion(mip, ms, P, pt) ==> holds(pt)
  }

  lemma CurrentLive(s: St)
    requires Inv(s) && s.cur in s.nodes
    ensures s.inst.at.Keys <= s.master.Keys
  {
  }

  lemma NewRowsValid(mip: Mip, s0: St, s: St, mean: Rows, X: set<int>)
    requires s0.inst.at.Keys <= s0.master.Keys && s.inst == s0.inst && X !! s0.master.Keys
    requires forall x :: x in s0.master ==> x in s.master && s.master[x] == s0.master[x]
    requires forall x :: x in X ==> x in mean && NewMeaning(mip, s0.master, s0.inst, mean[x])
    ensures ValidRows(mip, s.master, mean, s.inst, X) && X !! s.inst.at.Keys
  {
    Subset(s.inst.at.Keys, s.master.Keys);
    forall x, pt | x in X && x in mean && InRegion(mip, s.master, s.inst, pt) ensures mean[x](pt) {
      RegionFrame(mip, s0.master, s.master, s.inst, pt);
      assert NewMeaning(mip, s0.master, s0.inst, mean[x]);
    }
  }

  /** New rows X have been created since state s0 and wait to be included in its current problem. */
  ghost predicate Pending(mip: Mip, s0: St, s: St, mean: Rows, found: bool, best: real, X: set<int>) {
    && s.cur == s0.cur && s.nodes == s0.nodes && s.saved == s0.saved && s.inst == s0.inst
    && Searching(mip, s, mean, found, best) && RowsHeldBut(s, X)
    && (forall x :: x in s0.master ==> x in s.master && s.master[x] == s0.master[x])
    && (forall x :: x in s.master ==> x in s0.master || x in X)
    && (forall x :: x in X ==> x in s.master && x !in s0.master && x in mean && NewMeaning(mip, s0.master, s0.inst, mean[x]))
    && (forall x :: x in mean ==> !IsCol(s.master, x))
  }

  lemma PendingStart(mip: Mip, s: St, mean: Rows, found: bool, best: real)
    requires Searching(mip, s, mean, found, best) && RowsHeld(s) && forall x :: x in mean ==> !IsCol(s.master, x)
    ensures Pending(mip, s, s, mean, found, best, {})
  {
    hide Searching;
    HeldButNone(s);
  }

  lemma PendingParts(mip: Mip, s0: St, s: St, mean: Rows, found: bool, best: real, X: set<int>)
    requires Pending(mip, s0, s, mean, found, best, X)
    ensures s.cur == s0.cur && s.nodes == s0.nodes && s.saved == s0.saved && s.inst == s0.inst && Searching(mip, s, mean, found, best)
    ensures RowsHeldBut(s, X) && X <= s.master.Keys && X !! s0.master.Keys && forall x :: x in mean ==> !IsCol(s.master, x)
  {
    hide Searching, RowsHeldBut, IsCol, NewMeaning;
    Subset(X, s.master.Keys);
    Disjoint(X, s0.master.Keys);
  }

  lemma PendingStep(mip: Mip, s0: St, s: St, t: St, mean: Rows, found: bool, best: real, X: set<int>, x: int, rows: seq<NewRow>, k: nat)
    requires Inv(s) && Pending(mip, s0, s, mean, found, best, X) && x !in s.master && k < |rows| && GoodRows(mip, s0.master, s0.inst, rows)
    requires t.master == s.master[x := rows[k].it] && t.count == s.count[x := 0]
    requires t.nodes == s.nodes && t.saved == s.saved && t.cur == s.cur && t.inst == s.inst
    ensures x !in X && Pending(mip, s0, t, mean[x := rows[k].holds], found, best, X + {x})
  {
    hide Inv, Searching, RowsHeldBut;
    var mean' := mean[x := rows[k].holds];
    NewItemStep(mip, s, t, mean, mean', found, best, x, rows[k].it);
    NewRowHeld(s, t, X, x, rows[k].it);
    assert NewMeaning(mip, s0.master, s0.inst, rows[k].holds);
    forall y | y in X + {x} ensures y in t.master && y !in s0.master && y in mean' && NewMeaning(mip, s0.master, s0.inst, mean'[y]) {
      if y != x {
        assert NewMeaning(mip, s0.master, s0.inst, mean[y]);
      }
    }
  }

  lemma PendingValid(mip: Mip, s0: St, s: St, mean: Rows, found: bool, best: real, X: set<int>)
    requires Pending(mip, s0, s, mean, found, best, X) && s0.inst.at.Keys <= s0.master.Keys
    ensures ValidRows(mip, s.master, mean, s.inst, X) && X !! s.inst.at.Keys
  {
    hide Searching, RowsHeldBut, IsCol, ValidRows, NewMeaning;
    PendingParts(mip, s0, s, mean, found, best, X);
    NewRowsValid(mip, s0, s, mean, X);
  }

  lemma GrownIs(ms: Master, P: Prob, X: set<int>, Q: Prob)
    requires Q == Prob(P.at + map x | x in X && x in ms :: Default(ms[x]), P.c0)
    ensures Q == WithDefaults(ms, P, X)
  {
  }

  lemma RowsMayGo(ms: Master, keep: int -> bool)
    requires forall x :: keep(x) <==> x in ms && ms[x].what == Col
    ensures RowsGo(ms, keep)
  {
  }

  lemma PrunedMean(s: St, t: St, v: int, mean: Rows)
    requires Pruned(s, t, v) && forall x :: x in mean ==> !IsCol(s.master, x)
    ensures forall x :: x in mean ==> !IsCol(t.master, x)
  {
  }

  /** Reviving a node opens and closes nothing. */
  lemma RevivedSame(mip: Mip, s: St, t: St, mean: Rows, found: bool, best: real)
    requires Inv(s) && Inv(t) && Searching(mip, s, mean, found, best) && s.cur == -1 && t.cur in t.nodes && t.cur in s.saved
    requires t.master == s.master && t.saved == s.saved && t.nodes.Keys == s.nodes.Keys && t.inst == s.saved[t.cur]
    requires forall u :: u in t.nodes ==> t.nodes[u].count == s.nodes[u].count
    ensures Searching(mip, t, mean, found, best)
  {
    hide Inv, Searching;
    NodesFrom0(s);
    SameProbs(mip, s, t, mean, found, best);
  }
}
