/** How the steps of the driver change what is left open. */
module BcsSearch {
  import opened Collections
  import opened IesModel
  import opened IesState
  import opened IesHeld
  import opened IesClass
  import opened BcsModel

  /** Nothing better is lost, and the open node problems are in order. */
  ghost predicate Searching(mip: Mip, s: St, mean: Rows, found: bool, best: real) {
    MipOk(mip, s.master) && NodesOk(mip, s, mean) && Covered(mip, s, found, best) && Achieved(mip, found, best)
  }

  ghost predicate Busy(nodes: Nodes) {
    forall v :: v in nodes ==> nodes[v].count != 0
  }

  /** Problems of active nodes are made of live items. */
  lemma ProbLive(s: St, v: int)
    requires Inv(s) && Active(s, v)
    ensures ProbOf(s, v).at.Keys <= s.master.Keys
  {
    hide Path, Items;
    if v != s.cur {
      NodeKnown(s, v);
      DecodeItems(s.master, Path(s.nodes, v));
    }
  }

  /** The same active nodes with the same problems. */
  lemma SameProbs(mip: Mip, s: St, t: St, mean: Rows, found: bool, best: real)
    requires Searching(mip, s, mean, found, best) && t.master == s.master
    requires forall v :: Active(t, v) <==> Active(s, v)
    requires forall v :: Active(s, v) && Active(t, v) ==> ProbOf(t, v) == ProbOf(s, v)
    ensures Searching(mip, t, mean, found, best)
  {
    hide InRegion, NodeOk, MipOk, Achieved;
    SameOpen(mip, s, t, found, best);
  }

  // ----- master set

  /** Region and row validity depend on the master set only through the items of the problem. */
  lemma RegionFrame(mip: Mip, ms: Master, ms': Master, P: Prob, pt: Point)
    requires P.at.Keys <= ms.Keys && P.at.Keys <= ms'.Keys && forall x :: x in P.at ==> ms'[x].what == ms[x].what
    ensures InRegion(mip, ms, P, pt) <==> InRegion(mip, ms', P, pt)
  {
    forall x | x in P.at ensures IsCol(ms, x) <==> IsCol(ms', x) {
      assert x in ms && x in ms';
    }
  }

  lemma NodeFrame(mip: Mip, ms: Master, ms': Master, mean: Rows, mean': Rows, P: Prob)
    requires NodeOk(mip, ms, mean, P) && P.at.Keys <= ms.Keys && P.at.Keys <= ms'.Keys
    requires forall x :: x in P.at ==> ms'[x] == ms[x]
    requires forall x :: x in P.at ==> (x in mean' <==> x in mean) && (x in mean && x in mean' ==> mean'[x] == mean[x])
    ensures NodeOk(mip, ms', mean', P)
  {
    hide IntLocal;
    forall pt | InRegion(mip, ms', P, pt) ensures RowsHold(mean', P, pt) {
      RegionFrame(mip, ms, ms', P, pt);
      assert RowsHold(mean, P, pt);
    }
    forall x | x in P.at && x in mip.ints && IsCol(ms', x) ensures IntLocal(ms'[x], P.at[x].bnds) {
      assert x in ms;
      assert IsCol(ms, x);
    }
  }

  ghost predicate Agrees(ms: Master, ms': Master, mean: Rows, mean': Rows, P: Prob) {
    && P.at.Keys <= ms.Keys && P.at.Keys <= ms'.Keys
    && (forall x :: x in P.at ==> ms'[x] == ms[x])
    && (forall x :: x in P.at ==> (x in mean' <==> x in mean) && (x in mean && x in mean' ==> mean'[x] == mean[x]))
  }

  /** Changing the master set outside the open problems. */
  lemma MasterStep(mip: Mip, s: St, t: St, mean: Rows, mean': Rows, found: bool, best: real)
    requires Searching(mip, s, mean, found, best) && MipOk(mip, t.master)
    requires forall v :: Active(t, v) <==> Active(s, v)
    requires forall v :: Active(s, v) && Active(t, v) ==>
               ProbOf(t, v) == ProbOf(s, v) && Agrees(s.master, t.master, mean, mean', ProbOf(s, v))
    ensures Searching(mip, t, mean', found, best)
  {
    hide InRegion, NodeOk, MipOk, Achieved;
    forall v, pt | Active(s, v) && InRegion(mip, s.master, ProbOf(s, v), pt) ensures InRegion(mip, t.master, ProbOf(t, v), pt) {
      RegionFrame(mip, s.master, t.master, ProbOf(s, v), pt);
    }
    SameOpen(mip, s, t, found, best);
    forall v | Active(t, v) ensures NodeOk(mip, t.master, mean', ProbOf(t, v)) {
      assert NodeOk(mip, s.master, mean, ProbOf(s, v));
      NodeFrame(mip, s.master, t.master, mean, mean', ProbOf(s, v));
    }
  }

  // ----- adding rows and columns to the current problem

  function WithDefaults(ms: Master, P: Prob, X: set<int>): Prob {
    Prob(P.at + map x | x in X && x in ms :: Default(ms[x]), P.c0)
  }

  lemma AddedRegion(mip: Mip, ms: Master, P: Prob, X: set<int>, pt: Point)
    requires MipOk(mip, ms) && X !! P.at.Keys && InRegion(mip, ms, P, pt)
    ensures InRegion(mip, ms, WithDefaults(ms, P, X), pt)
  {
    hide InBounds, IsInt, IntBounds;
    var Q := WithDefaults(ms, P, X);
    forall x | x in Q.at && IsCol(ms, x) ensures InBounds(Q.at[x].bnds, pt(x)) {
      if x !in P.at {
        assert Q.at[x] == Default(ms[x]);
      }
    }
  }

  lemma AddedBack(mip: Mip, ms: Master, P: Prob, X: set<int>, pt: Point)
    requires X !! P.at.Keys && InRegion(mip, ms, WithDefaults(ms, P, X), pt)
    ensures InRegion(mip, ms, P, pt)
  {
    hide InBounds;
    var Q := WithDefaults(ms, P, X);
    forall x | x in P.at && IsCol(ms, x) ensures InBounds(P.at[x].bnds, pt(x)) {
      assert x in Q.at && Q.at[x] == P.at[x];
    }
  }

  /** New rows are valid for the current node. */
  ghost predicate ValidRows(mip: Mip, ms: Master, mean: Rows, P: Prob, X: set<int>) {
    forall x, pt :: x in X && x in mean && InRegion(mip, ms, P, pt) ==> mean[x](pt)
  }

  lemma AddedNode(mip: Mip, ms: Master, mean: Rows, P: Prob, X: set<int>)
    requires MipOk(mip, ms) && NodeOk(mip, ms, mean, P) && X !! P.at.Keys && X <= ms.Keys && ValidRows(mip, ms, mean, P, X)
    ensures NodeOk(mip, ms, mean, WithDefaults(ms, P, X))
  {
    hide IntBounds, IsInt, InBounds;
    var Q := WithDefaults(ms, P, X);
    forall pt | InRegion(mip, ms, Q, pt) ensures RowsHold(mean, Q, pt) {
      AddedBack(mip, ms, P, X, pt);
      assert RowsHold(mean, P, pt);
    }
    forall x | x in Q.at && x in mip.ints && IsCol(ms, x) ensures IntLocal(ms[x], Q.at[x].bnds) {
      if x !in P.at {
        assert Q.at[x] == Default(ms[x]);
      } else {
        assert Q.at[x] == P.at[x];
      }
    }
  }

  /** The current problem grows by rows and columns X. */
  lemma GrowStep(mip: Mip, s: St, t: St, mean: Rows, found: bool, best: real, X: set<int>)
    requires Searching(mip, s, mean, found, best) && Active(s, s.cur) && X !! s.inst.at.Keys && X <= s.master.Keys
    requires ValidRows(mip, s.master, mean, s.inst, X)
    requires t == s.(inst := WithDefaults(s.master, s.inst, X))
    ensures Searching(mip, t, mean, found, best)
  {
    hide InRegion, NodeOk, MipOk, Achieved, WithDefaults, ValidRows;
    forall v, pt | Active(s, v) && InRegion(mip, s.master, ProbOf(s, v), pt) ensures InRegion(mip, t.master, ProbOf(t, v), pt) {
      if v == s.cur {
        AddedRegion(mip, s.master, s.inst, X, pt);
      }
    }
    SameOpen(mip, s, t, found, best);
    forall v | Active(t, v) ensures NodeOk(mip, t.master, mean, ProbOf(t, v)) {
      assert NodeOk(mip, s.master, mean, ProbOf(s, v));
      if v == s.cur {
        AddedNode(mip, s.master, mean, s.inst, X);
      }
    }
  }
}
