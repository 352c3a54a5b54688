/** The enumeration tree together with the problem object: the constraint matrix is kept through every operation. */
module IesSuite {
  import opened Collections
  import opened IesModel
  import opened IesState
  import opened IesHeld
  import opened IesClass
  import opened IesMatrix

  /** Coefficients join master rows and master columns. */
  ghost predicate ElemsOk(e: Elems, ms: Master) {
    forall i, j :: (i, j) in e ==> i in ms && ms[i].what == Row && j in ms && ms[j].what == Col
  }

  /** The positions on one side hold different master items of the right kind, or nothing. */
  ghost predicate SideOk(s: seq<int>, ms: Master, w: What) {
    BoundOnce(s) && forall x :: x in s ==> x == UNBOUND || (x in ms && ms[x].what == w)
  }

  /** They hold exactly the items of the node problem. */
  ghost predicate Exactly(s: seq<int>, ms: Master, P: Prob, w: What) {
    UNBOUND !in s && forall x :: x in s <==> x in P.at && x in ms && ms[x].what == w
  }

  function Side(ms: Master, P: Prob, w: What): set<int> {
    set x | x in P.at && x in ms && ms[x].what == w
  }

  /** The items of D that have no position yet, in some order. */
  method Missing(D: set<int>, s: seq<int>) returns (r: seq<int>)
    ensures BoundOnce(r) && forall x :: x in r <==> x in D && x !in s
  {
    r := [];
    var todo := D;
    while todo != {}
      invariant todo <= D && BoundOnce(r) && forall x :: x in r <==> x in D && x !in todo && x !in s
      decreases |todo|
    {
      Inhabited(todo);
      var x :| x in todo;
      if x !in s {
        r := r + [x];
      }
      todo := todo - {x};
    }
  }

  /** What stays, followed by what was missing, is the new node problem. */
  lemma SideExtended(s: seq<int>, r: seq<int>, ms: Master, P: Prob, w: What)
    requires BoundOnce(s) && BoundOnce(r) && UNBOUND !in ms && (forall x :: x in s ==> x in Side(ms, P, w))
    requires forall x :: x in r <==> x in Side(ms, P, w) && x !in s
    ensures SideOk(s + r, ms, w) && Exactly(s + r, ms, P, w)
  {
    var t := s + r;
    forall x ensures x in t <==> x in s || x in r {
    }
    forall i, j | 0 <= i < j < |t| && t[i] != UNBOUND ensures t[i] != t[j] {
      if i < |s| <= j {
        assert t[j] == r[j - |s|] && t[j] in r && t[i] in s;
      } else if i >= |s| {
        assert t[i] == r[i - |s|] && t[j] == r[j - |s|];
      }
    }
  }

  function WithRow(e: Elems, x: int, coef: map<int, real>): Elems {
    e + map j | j in coef :: (x, j) := coef[j]
  }

  function WithCol(e: Elems, x: int, coef: map<int, real>): Elems {
    e + map i | i in coef :: (i, x) := coef[i]
  }

  /** A new master row or column brings coefficients of its own only. */
  lemma NewElems(e: Elems, f: Elems, ms: Master, x: int, it: Item, coef: map<int, real>)
    requires ElemsOk(e, ms) && x !in ms && (forall y :: y in coef ==> y in ms && ms[y].what == if it.what == Row then Col else Row)
    requires f == if it.what == Row then WithRow(e, x, coef) else WithCol(e, x, coef)
    ensures ElemsOk(f, ms[x := it])
    ensures forall i, j :: i != x && j != x ==> ((i, j) in f <==> (i, j) in e)
    ensures forall i, j :: i != x && j != x && (i, j) in f && (i, j) in e ==> f[(i, j)] == e[(i, j)]
  {
    forall i, j
      ensures i != x && j != x ==> ((i, j) in f <==> (i, j) in e)
      ensures i != x && j != x && (i, j) in f && (i, j) in e ==> f[(i, j)] == e[(i, j)]
      ensures (i, j) in f ==> (i, j) in e || (it.what == Row && i == x && j in coef) || (it.what == Col && j == x && i in coef)
    {
      assert (i, j).0 == i && (i, j).1 == j;
    }
  }

  lemma RemainingOk(e: Elems, ms: Master, ms': Master)
    requires ElemsOk(e, ms) && forall x :: x in ms' ==> x in ms && ms'[x] == ms[x]
    ensures ElemsOk(Remaining(e, ms'.Keys), ms')
  {
    var f := Remaining(e, ms'.Keys);
    forall i, j | (i, j) in f ensures i in ms' && ms'[i].what == Row && j in ms' && ms'[j].what == Col {
      assert (i, j).0 == i && (i, j).1 == j && (i, j) in e;
    }
  }

  lemma SideForgotten(s: seq<int>, ms: Master, ms': Master, w: What)
    requires SideOk(s, ms, w) && forall x :: x in ms' ==> x in ms && ms'[x] == ms[x]
    ensures SideOk(Unbound(s, ms'.Keys), ms', w)
  {
    UnboundFacts(s, ms'.Keys);
    forall x | x in Unbound(s, ms'.Keys) ensures x == UNBOUND || (x in ms' && ms'[x].what == w) {
      if x != UNBOUND {
        assert x in s && x in ms'.Keys;
      }
    }
  }

  lemma ExactForgotten(s: seq<int>, ms: Master, ms': Master, P: Prob, w: What)
    requires Exactly(s, ms, P, w) && P.at.Keys <= ms'.Keys && forall x :: x in ms' ==> x in ms && ms'[x] == ms[x]
    ensures Unbound(s, ms'.Keys) == s && Exactly(s, ms', P, w)
  {
    forall x | x in s ensures x in ms'.Keys {
      assert x in P.at;
    }
    UnboundFacts(s, ms'.Keys);
    forall x ensures x in s <==> x in P.at && x in ms' && ms'[x].what == w {
      if x in P.at {
        assert x in ms'.Keys;
      }
    }
  }

  class Suite {
    const tree: Tree
    const lp: Instance
    var elem: Elems

    /** The matrix is what load_matrix would build; while a node is current its positions list the rows and columns of the node. */
    ghost predicate Valid()
      reads this, tree, lp
    {
      tree.Valid() && Kept()
    }

    ghost predicate Kept()
      reads this, tree, lp
    {
      && lp.Valid(elem) && ElemsOk(elem, tree.master) && SideOk(lp.rows, tree.master, Row) && SideOk(lp.cols, tree.master, Col)
      && (tree.cur != -1 ==> Exactly(lp.rows, tree.master, tree.inst, Row) && Exactly(lp.cols, tree.master, tree.inst, Col))
    }

    constructor ()
      ensures Valid() && fresh(tree) && fresh(lp) && tree.master == map[] && tree.nodes == map[]
    {
      tree := new Tree();
      lp := new Instance();
      elem := map[];
    }

    /** ies_add_master_row and ies_add_master_col with the coefficients in existing items of the other kind. */
    method AddMaster(it: Item, coef: map<int, real>) returns (x: int)
      requires Valid() && forall y :: y in coef ==> y in tree.master && tree.master[y].what == if it.what == Row then Col else Row
      modifies this, tree
      ensures Valid() && x !in old(tree.master) && tree.master == old(tree.master)[x := it] && tree.inst == old(tree.inst)
      ensures elem == if it.what == Row then WithRow(old(elem), x, coef) else WithCol(old(elem), x, coef)
    {
      hide Inv, LogOk, Loaded, ElemsOk, WithRow, WithCol, SideOk, Exactly;
      ghost var ms, e := tree.master, elem;
      InvParts(tree.Now());
      x := tree.AddMaster(it);
      ItemNumbers(tree);
      elem := if it.what == Row then WithRow(elem, x, coef) else WithCol(elem, x, coef);
      NewElems(e, elem, ms, x, it, coef);
      NotListed(lp.rows, ms, Row, x);
      NotListed(lp.cols, ms, Col, x);
      NewItemLoaded(e, elem, lp.rows, lp.cols, lp.mat, x);
      SideMore(lp.rows, ms, x, it, tree.inst, Row);
      SideMore(lp.cols, ms, x, it, tree.inst, Col);
    }

    /** Items have left the master set: their coefficients go, and positions that still name them are unbound. */
    method Forget(ghost ms: Master)
      requires tree.Valid() && lp.Valid(elem) && ElemsOk(elem, ms) && SideOk(lp.rows, ms, Row) && SideOk(lp.cols, ms, Col)
      requires forall x :: x in tree.master ==> x in ms && tree.master[x] == ms[x]
      requires tree.cur != -1 ==> Exactly(lp.rows, ms, tree.inst, Row) && Exactly(lp.cols, ms, tree.inst, Col)
      modifies this, lp
      ensures Valid() && lp.mat == old(lp.mat) && elem == Remaining(old(elem), tree.master.Keys)
      ensures tree.cur != -1 ==> lp.rows == old(lp.rows) && lp.cols == old(lp.cols)
    {
      hide Inv, LogOk, Loaded, ElemsOk, SideOk, Exactly, Remaining, Unbound;
      var live := tree.master.Keys;
      UnboundLoaded(elem, lp.rows, lp.cols, lp.mat, live);
      RemainingOk(elem, ms, tree.master);
      SideForgotten(lp.rows, ms, tree.master, Row);
      SideForgotten(lp.cols, ms, tree.master, Col);
      if tree.cur != -1 {
        InvParts(tree.Now());
        ExactForgotten(lp.rows, ms, tree.master, tree.inst, Row);
        ExactForgotten(lp.cols, ms, tree.master, tree.inst, Col);
      }
      elem := Remaining(elem, live);
      lp.rows, lp.cols := Unbound(lp.rows, live), Unbound(lp.cols, live);
    }

    /** ies_del_master_row and ies_del_master_col. */
    method DelMaster(x: int)
      requires Valid() && x in tree.master && x in tree.count && tree.count[x] == 0 && (tree.cur != -1 ==> x !in tree.inst.at)
      modifies this, tree, lp
      ensures Valid() && tree.master == old(tree.master) - {x} && lp.mat == old(lp.mat) && elem == Remaining(old(elem), tree.master.Keys)
    {
      hide Inv, LogOk, Loaded, ElemsOk, SideOk, Exactly, Remaining;
      ghost var ms := tree.master;
      tree.DelMaster(x);
      Forget(ms);
    }

    /** The problem object is rebuilt for the items of the instance: what is not needed goes, what is missing is appended. */
    method Rebuild()
      requires tree.Valid() && tree.cur != -1
      requires lp.Valid(elem) && ElemsOk(elem, tree.master) && SideOk(lp.rows, tree.master, Row) && SideOk(lp.cols, tree.master, Col)
      modifies lp
      ensures Valid()
    {
      hide Inv, LogOk, Loaded, ElemsOk, Pick;
      ItemNumbers(tree);
      var needR, needC := Side(tree.master, tree.inst, Row), Side(tree.master, tree.inst, Col);
      NotUnbound(tree.master, tree.inst, Row);
      NotUnbound(tree.master, tree.inst, Col);
      KeptList(lp.rows, needR);
      KeptList(lp.cols, needC);
      lp.Keep(elem, needR, needC);
      var nr := Missing(needR, lp.rows);
      var nc := Missing(needC, lp.cols);
      SideExtended(lp.rows, nr, tree.master, tree.inst, Row);
      SideExtended(lp.cols, nc, tree.master, tree.inst, Col);
      lp.Extend(elem, nr, nc);
    }

    /** ies_revive_node; without a new node the problem object stays as it is. */
    method Revive(v: int)
      requires Valid() && (v == -1 || v in tree.nodes)
      modifies tree, lp
      ensures Valid() && tree.cur == v && tree.master == old(tree.master)
      ensures v != -1 && old(tree.cur) != v ==> v in old(tree.saved) && tree.inst == old(tree.saved)[v]
      ensures v == -1 || old(tree.cur) == v ==> lp.rows == old(lp.rows) && lp.cols == old(lp.cols) && lp.mat == old(lp.mat)
    {
      hide Inv, LogOk, Loaded, ElemsOk, SideOk, Exactly;
      var same := tree.cur == v;
      tree.Revive(v);
      if !same && v != -1 {
        Rebuild();
      }
    }

    /** ies_create_node. */
    method CreateNode(parent: int) returns (w: int)
      requires Valid() && (if parent == -1 then tree.nodes == map[] else parent in tree.nodes)
      modifies tree
      ensures Valid() && w in tree.nodes && w !in old(tree.nodes) && tree.cur == old(tree.cur) && tree.inst == old(tree.inst)
    {
      hide Inv, LogOk, Loaded, ElemsOk, SideOk, Exactly;
      w := tree.CreateNode(parent);
    }

    /** ies_add_rows and ies_add_cols: the listed items are appended, the last one first. */
    method AddItems(nr: seq<int>, nc: seq<int>)
      requires Valid() && tree.cur in tree.nodes && tree.nodes[tree.cur].count < 0 && BoundOnce(nr) && BoundOnce(nc)
      requires NewOnes(nr, tree.master, tree.inst, Row) && NewOnes(nc, tree.master, tree.inst, Col)
      modifies tree, lp
      ensures Valid() && lp.rows == old(lp.rows) + Backwards(nr) && lp.cols == old(lp.cols) + Backwards(nc)
      ensures forall x :: x in tree.inst.at <==> x in old(tree.inst).at || x in nr || x in nc
      ensures forall x :: x in old(tree.inst).at ==> x in tree.inst.at && tree.inst.at[x] == old(tree.inst).at[x]
    {
      hide Inv, LogOk, Loaded, ElemsOk, Exactly, SideOk, BoundOnce, NewOnes;
      NodesFrom0(tree.Now());
      ItemNumbers(tree);
      ghost var P := tree.inst;
      var X := Joined(nr, nc);
      JoinedFacts(nr, nc, tree.master, tree.inst);
      tree.AddItems(X);
      GrownItems(tree.master, P, tree.inst, X, nr, nc);
      BackwardsFacts(nr);
      BackwardsFacts(nc);
      SideAppended(lp.rows, Backwards(nr), nr, nc, tree.master, P, tree.inst, Row);
      SideAppended(lp.cols, Backwards(nc), nc, nr, tree.master, P, tree.inst, Col);
      lp.Extend(elem, Backwards(nr), Backwards(nc));
    }

    /** ies_del_items. */
    method DelItems(X: set<int>, keep: int -> bool)
      requires Valid() && tree.cur in tree.nodes && tree.nodes[tree.cur].count < 0 && X <= tree.inst.at.Keys
      modifies this, tree, lp
      ensures Valid() && tree.inst == Prob(old(tree.inst.at) - X, old(tree.inst.c0))
    {
      hide Inv, LogOk, Loaded, ElemsOk, Pick, Remaining;
      InvParts(tree.Now());
      ItemNumbers(tree);
      NodesFrom0(tree.Now());
      ghost var ms := tree.master;
      ghost var P := Prob(tree.inst.at - X, tree.inst.c0);
      var stayR := Side(tree.master, Prob(tree.inst.at - X, tree.inst.c0), Row);
      var stayC := Side(tree.master, Prob(tree.inst.at - X, tree.inst.c0), Col);
      NotUnbound(ms, P, Row);
      NotUnbound(ms, P, Col);
      KeptList(lp.rows, stayR);
      KeptList(lp.cols, stayC);
      lp.Keep(elem, stayR, stayC);
      SideStays(lp.rows, ms, P, Row);
      SideStays(lp.cols, ms, P, Col);
      tree.DelItems(X, keep);
      Forget(ms);
    }

    /** ies_set_row_bnds, ies_set_col_bnds and the like do not touch the matrix. */
    method SetAttr(x: int, a: Attr)
      requires Valid() && tree.cur in tree.nodes && tree.nodes[tree.cur].count < 0 && x in tree.inst.at
      modifies tree
      ensures Valid() && tree.inst == Prob(old(tree.inst.at)[x := a], old(tree.inst.c0))
    {
      hide Inv, LogOk, Loaded, ElemsOk, SideOk;
      tree.SetAttr(x, a);
    }

    /** ies_delete_node. */
    method DeleteNode(v: int, keep: int -> bool) returns (ok: bool)
      requires Valid() && v in tree.nodes && tree.nodes[v].count <= 0
      modifies this, tree, lp
      ensures old(tree.cur) == -1 || old(tree.cur) == v ==> ok
      ensures ok ==> Valid() && tree.nodes.Keys == old(tree.nodes.Keys) - {v} && lp.mat == old(lp.mat)
    {
      hide Inv, LogOk, Loaded, ElemsOk, SideOk, Exactly, Remaining;
      ghost var ms := tree.master;
      ok := tree.DeleteNode(v, keep);
      if ok {
        Forget(ms);
      }
    }

    /** ies_prune_branch. */
    method PruneBranch(v: int, keep: int -> bool) returns (ok: bool)
      requires Valid() && v in tree.nodes && tree.nodes[v].count <= 0
      modifies this, tree, lp
      ensures old(tree.cur) == -1 || old(tree.cur) == v ==> ok
      ensures ok ==> Valid() && v !in tree.nodes && BranchGone(old(tree.nodes), tree.nodes, v) && lp.mat == old(lp.mat)
    {
      hide Inv, LogOk, Loaded, ElemsOk, SideOk, Exactly, BranchGone, Remaining;
      ghost var ms := tree.master;
      ok := tree.PruneBranch(v, keep);
      if ok {
        Forget(ms);
      }
    }
  }

  /** Through every operation, while a node is current: any matrix that load_matrix could build from the master set is the one that
      was kept, and the positions list the rows and columns of the node, each once. */
  lemma AsLoaded(u: Suite, other: Matrix)
    requires u.Valid() && u.tree.cur != -1 && Loaded(u.elem, u.lp.rows, u.lp.cols, other)
    ensures u.lp.mat == other
    ensures forall x :: x in u.lp.rows <==> x in u.tree.inst.at && x in u.tree.master && u.tree.master[x].what == Row
    ensures forall x :: x in u.lp.cols <==> x in u.tree.inst.at && x in u.tree.master && u.tree.master[x].what == Col
    ensures forall i, j :: 0 <= i < j < |u.lp.rows| ==> u.lp.rows[i] != u.lp.rows[j]
    ensures forall i, j :: 0 <= i < j < |u.lp.cols| ==> u.lp.cols[i] != u.lp.cols[j]
  {
    hide Inv, LogOk, Loaded, ElemsOk;
    LoadedOnce(u.elem, u.lp.rows, u.lp.cols, u.lp.mat, other);
  }

  function Backwards(s: seq<int>): (r: seq<int>)
    ensures |r| == |s| && forall i :: 0 <= i < |s| ==> r[i] == s[|s| - 1 - i]
  {
    seq(|s|, i requires 0 <= i < |s| => s[|s| - 1 - i])
  }

  lemma BackwardsFacts(s: seq<int>)
    ensures (BoundOnce(s) ==> BoundOnce(Backwards(s))) && forall x :: x in Backwards(s) <==> x in s
  {
    var r := Backwards(s);
    forall x | x in s ensures x in r {
      var i :| 0 <= i < |s| && s[i] == x;
      assert r[|s| - 1 - i] == x;
    }
    forall x | x in r ensures x in s {
      var i :| 0 <= i < |r| && r[i] == x;
      assert s[|s| - 1 - i] == x;
    }
  }

  /** Master items of one kind that the problem does not contain yet. */
  ghost predicate NewOnes(s: seq<int>, ms: Master, P: Prob, w: What) {
    forall x :: x in s ==> x in ms && ms[x].what == w && x !in P.at
  }

  function Joined(nr: seq<int>, nc: seq<int>): set<int> {
    (set x | x in nr) + (set x | x in nc)
  }

  lemma JoinedFacts(nr: seq<int>, nc: seq<int>, ms: Master, P: Prob)
    requires NewOnes(nr, ms, P, Row) && NewOnes(nc, ms, P, Col)
    ensures Joined(nr, nc) <= ms.Keys && Joined(nr, nc) !! P.at.Keys
  {
    Subset(Joined(nr, nc), ms.Keys);
    Disjoint(Joined(nr, nc), P.at.Keys);
  }

  lemma GrownItems(ms: Master, P: Prob, Q: Prob, X: set<int>, nr: seq<int>, nc: seq<int>)
    requires Q == Prob(P.at + map x | x in X && x in ms :: Default(ms[x]), P.c0) && X == Joined(nr, nc) && X <= ms.Keys && X !! P.at.Keys
    ensures forall x :: x in Q.at <==> x in P.at || x in nr || x in nc
    ensures forall x :: x in P.at ==> x in Q.at && Q.at[x] == P.at[x]
  {
    forall x | x in nr || x in nc ensures x in Q.at {
      assert x in X;
      assert x in ms.Keys;
    }
  }

  /** Positions of the old items followed by those of the new ones of the same kind. */
  lemma SideAppended(s: seq<int>, r: seq<int>, mine: seq<int>, other: seq<int>, ms: Master, P: Prob, Q: Prob, w: What)
    requires SideOk(s, ms, w) && Exactly(s, ms, P, w) && BoundOnce(r) && (forall x :: x in r <==> x in mine)
    requires NewOnes(mine, ms, P, w) && NewOnes(other, ms, P, if w == Row then Col else Row)
    requires forall x :: x in Q.at <==> x in P.at || x in mine || x in other
    ensures SideOk(s + r, ms, w) && (UNBOUND !in ms ==> Exactly(s + r, ms, Q, w))
  {
    var t := s + r;
    forall x ensures x in t <==> x in s || x in r {
    }
    forall i, j | 0 <= i < j < |t| && t[i] != UNBOUND ensures t[i] != t[j] {
      if i < |s| <= j {
        assert t[j] == r[j - |s|] && t[j] in r && t[i] in s;
      } else if i >= |s| {
        assert t[i] == r[i - |s|] && t[j] == r[j - |s|];
      }
    }
  }

  lemma NotUnbound(ms: Master, P: Prob, w: What)
    requires UNBOUND !in ms
    ensures UNBOUND !in Side(ms, P, w)
  {
  }

  lemma SideStays(s: seq<int>, ms: Master, P: Prob, w: What)
    requires BoundOnce(s) && UNBOUND !in ms && forall x :: x in s <==> x in Side(ms, P, w)
    ensures SideOk(s, ms, w) && Exactly(s, ms, P, w)
  {
  }

  lemma NotListed(s: seq<int>, ms: Master, w: What, x: int)
    requires SideOk(s, ms, w) && x !in ms && x != UNBOUND
    ensures x !in s
  {
  }

  lemma SideMore(s: seq<int>, ms: Master, x: int, it: Item, P: Prob, w: What)
    requires SideOk(s, ms, w) && x !in ms
    ensures SideOk(s, ms[x := it], w)
    ensures Exactly(s, ms, P, w) && P.at.Keys <= ms.Keys ==> Exactly(s, ms[x := it], P, w)
  {
    if Exactly(s, ms, P, w) && P.at.Keys <= ms.Keys {
      assert x !in P.at.Keys;
    }
  }

  lemma ItemNumbers(t: Tree)
    requires t.Valid()
    ensures UNBOUND !in t.master
  {
  }
}
