/** Operations on the implicit enumeration tree. */
module IesClass {
  import opened Collections
  import opened IesModel
  import opened IesState
  import opened IesSave
  import opened IesRevive
  import opened IesDelete
  import opened IesTree
  import opened IesHeld

  lemma InvParts(s: St)
    requires Inv(s)
    ensures TreeOk(s.nodes) && s.count.Keys == s.master.Keys && s.saved.Keys == s.nodes.Keys
    ensures s.cur == -1 || (s.cur in s.nodes && s.inst.at.Keys <= s.master.Keys)
  {
  }

  lemma NodeKnown(s: St, v: int)
    requires Inv(s) && v in s.nodes && !ActiveCurrent(s, v)
    ensures TreeOk(s.nodes) && v in s.saved && Known(s.master, Path(s.nodes, v))
    ensures Decode(s.master, Path(s.nodes, v)) == s.saved[v]
  {
    assert Faithful(s, v);
  }

  lemma DecodeItems(ms: Master, path: seq<Patch>)
    requires Known(ms, path)
    ensures Decode(ms, path).at.Keys == Items(path)
  {
    assert Decode(ms, path).at.Keys == Items(path);
  }

  lemma AboveUp(nodes: Nodes, u: int, path: seq<Patch>)
    requires TreeOk(nodes) && u in nodes && nodes[u].up != -1
    ensures var w := nodes[u].up;
            0 <= w < u && w in nodes && Above(nodes, u) + path == Above(nodes, w) + ([nodes[w].patch] + path)
  {
    var w := nodes[u].up;
    PathIs(nodes, w);
    assert Above(nodes, w) + [nodes[w].patch] + path == Above(nodes, w) + ([nodes[w].patch] + path);
  }

  lemma AboveRoot(nodes: Nodes, u: int, path: seq<Patch>)
    requires TreeOk(nodes) && u in nodes && nodes[u].up == -1
    ensures Above(nodes, u) + path == path
  {
    assert [] + path == path;
  }

  // ----- rows stay held

  lemma SuspendRows(s: St, p: Patch)
    requires CanSuspend(s, p)
    ensures RowsHeld(s) ==> RowsHeld(Suspended(s, p))
  {
    hide CanSuspend, Held;
    SuspendMaster(s, p);
    if RowsHeld(s) {
      forall x | x in s.master && s.master[x].what == Row ensures Held(Suspended(s, p), x) {
        assert Held(s, x);
        SuspendHeld(s, p, x);
      }
    }
  }

  lemma SuspendMaster(s: St, p: Patch)
    requires CanSuspend(s, p)
    ensures s.cur in s.nodes && Suspended(s, p).master == s.master
  {
  }

  lemma LeaveRows(s: St)
    requires s.cur in s.nodes && s.nodes[s.cur].count >= 0
    ensures RowsHeld(s) ==> RowsHeld(s.(cur := -1))
  {
  }

  lemma EnterRows(s: St, v: int, P: Prob)
    requires s.cur == -1 && s.cur !in s.nodes
    ensures RowsHeld(s) ==> RowsHeld(s.(cur := v, inst := P))
  {
  }

  lemma ResumeRows(s: St, v: int, P: Prob)
    requires Inv(s) && s.cur == -1 && v in s.nodes && s.nodes[v].count < 0 && P.at.Keys == Items(Path(s.nodes, v))
    ensures RowsHeld(s) ==> RowsHeld(Resumed(s, v, P))
  {
    hide Inv, Held, Path, Items;
    if RowsHeld(s) {
      forall x | x in s.master && s.master[x].what == Row ensures Held(Resumed(s, v, P), x) {
        assert Held(s, x);
        ResumeHeld(s, v, P, x);
      }
    }
  }

  lemma DeactivateRows(s: St, v: int)
    requires v in s.nodes && v != s.cur
    ensures RowsHeld(s) ==> RowsHeld(Deactivated(s, v))
  {
  }

  lemma CreateRows(s: St, w: int, parent: int)
    requires w !in s.nodes && w != s.cur && (parent == -1 || (parent in s.nodes && parent in s.saved && s.nodes[parent].count >= 0))
    ensures RowsHeld(s) ==> RowsHeld(WithNode(s, w, parent))
  {
  }

  /** The parts of a state with a new node. */
  lemma WithNodeIs(s: St, w: int, parent: int)
    requires w !in s.nodes && (parent == -1 || (parent in s.nodes && parent in s.saved && s.nodes[parent].count >= 0))
    ensures var t := WithNode(s, w, parent);
            && t == s.(nodes := t.nodes, saved := t.saved) && t.nodes.Keys == s.nodes.Keys + {w}
            && t.nodes == (var n := s.nodes[w := Node(parent, -1, NO_PATCH)];
                           if parent == -1 then n else n[parent := n[parent].(count := n[parent].count + 1)])
            && t.saved == s.saved[w := if parent == -1 then Prob(map[], 0.0) else s.saved[parent]]
  {
    UpdatedKeys(s.nodes, w, Node(parent, -1, NO_PATCH));
  }

  /** The nodes of s keep their contents in t, and all but one their records. */
  ghost predicate OthersSame(s: St, t: St, parent: int) {
    && (forall u :: u in s.nodes ==> u in t.saved && u in s.saved && t.saved[u] == s.saved[u])
    && (forall u :: u in s.nodes && u != parent ==> u in t.nodes && t.nodes[u] == s.nodes[u])
  }

  lemma WithNodeFacts(s: St, w: int, parent: int)
    requires w !in s.nodes && s.saved.Keys == s.nodes.Keys && (parent == -1 || (parent in s.nodes && s.nodes[parent].count >= 0))
    ensures OthersSame(s, WithNode(s, w, parent), parent)
  {
  }

  /** The filter lets every row go. */
  ghost predicate RowsGo(ms: Master, keep: int -> bool) {
    forall x :: x in ms && ms[x].what == Row ==> !keep(x)
  }

  lemma RemovedActives(s: St, v: int)
    requires Inv(s) && v in s.nodes
    ensures forall u :: u in s.nodes && u != v ==>
              u in WithoutLeaf(s, v).nodes && (WithoutLeaf(s, v).nodes[u].count < 0 <==> s.nodes[u].count < 0)
  {
    hide AllFaithful, RefsOk, AllNamesOk, CountsOk, WithoutLeaf;
    forall u | u in s.nodes && u != v
      ensures u in WithoutLeaf(s, v).nodes && (WithoutLeaf(s, v).nodes[u].count < 0 <==> s.nodes[u].count < 0)
    {
      RemovedActive(s, v, u);
    }
  }

  lemma RemoveRows(s: St, v: int, gone: set<int>, keep: int -> bool)
    requires Inv(s) && v in s.nodes && v != s.cur && RowsHeld(s) && RowsGo(s.master, keep)
    requires forall x :: x in gone <==> x in s.nodes[v].patch.add && x in s.count && s.count[x] == 1 && !keep(x)
    ensures RowsHeldBut(WithoutLeaf(s, v), gone)
  {
    hide Inv, Held;
    var t := WithoutLeaf(s, v);
    forall x | x in t.master && t.master[x].what == Row && x !in gone ensures Held(t, x) {
      assert Held(s, x);
      RemoveHeld(s, v, x);
    }
  }

  lemma DropRows(s: St, t: St, gone: set<int>, keep: int -> bool)
    requires RowsHeldBut(s, gone) && t.nodes == s.nodes && t.cur == s.cur && t.inst == s.inst
    requires forall x :: x in gone ==> x in s.count && s.count[x] == 0 && !keep(x)
    requires forall x :: x in t.master <==> x in s.master && !(x in gone && x in s.count && s.count[x] == 0 && !keep(x))
    requires forall x :: x in t.master ==> t.master[x] == s.master[x] && x in t.count && x in s.count && t.count[x] == s.count[x]
    ensures RowsHeld(t)
  {
    forall x | x in t.master && t.master[x].what == Row ensures Held(t, x) {
      assert Held(s, x);
    }
  }

  /** Numbers below `next` have been given out; a number is in the log of the hook routine exactly once after its item or node was
      deleted, and not before. */
  ghost predicate LogOk(log: multiset<int>, live: set<int>, next: int) {
    && 0 <= next && (forall x :: x in live ==> 0 <= x < next)
    && forall x :: log[x] == if 0 <= x < next && x !in live then 1 else 0
  }

  lemma LogNew(log: multiset<int>, live: set<int>, next: int)
    requires LogOk(log, live, next)
    ensures LogOk(log, live + {next}, next + 1)
  {
  }

  lemma LogGone(log: multiset<int>, live: set<int>, next: int, x: int)
    requires LogOk(log, live, next) && x in live
    ensures LogOk(log + multiset{x}, live - {x}, next)
  {
  }

  lemma LogLive(log: multiset<int>, live: set<int>, next: int)
    requires LogOk(log, live, next)
    ensures 0 <= next && forall x :: x in live ==> 0 <= x < next
  {
  }

  lemma DropChildKeys(nodes: Nodes, p: int)
    ensures DropChild(nodes, p).Keys == nodes.Keys
  {
    if p in nodes {
      UpdatedKeys(nodes, p, nodes[p].(count := nodes[p].count - 1));
    }
  }

  /** Items that only one node adds are not counted any more when it is gone. */
  lemma OrphansFree(count: map<int, int>, add: set<int>, gone: set<int>, keep: int -> bool)
    requires forall x :: x in gone ==> x in add && x in count && count[x] == 1 && !keep(x)
    ensures forall x :: x in gone ==> x in Bump(count, add, -1) && Bump(count, add, -1)[x] == 0 && !keep(x)
  {
  }

  /** Attributes of a row or column that joins a node problem: its own bounds and coefficient, and a status that is basic exactly for a
      row and names one of its bounds, except for a double-bounded column with the lower bound greater in absolute value. */
  predicate NewAttr(it: Item, a: Attr) {
    && a.bnds == Bnds(it.typx, it.lb, it.ub) && a.coef == it.coef && (a.tag == BS <==> it.what == Row) && (a.tag == NU ==> it.typx == UP)
    && if it.what == Col && it.typx == DB && (if it.lb < 0.0 then -it.lb else it.lb) > (if it.ub < 0.0 then -it.ub else it.ub) then a.tag == NF
       else NamesBound(it.typx, a.tag)
  }

  class Tree {
    var master: Master
    var count: map<int, int>
    var nodes: Nodes
    var cur: int
    var inst: Prob
    var nextNode: int
    var nextItem: int
    ghost var saved: map<int, Prob>
    ghost var itemsGone: multiset<int>
    ghost var nodesGone: multiset<int>

    ghost function Now(): St
      reads this
    {
      St(master, count, nodes, cur, inst, saved)
    }

    ghost predicate Valid()
      reads this
    {
      Inv(Now()) && LogOk(nodesGone, nodes.Keys, nextNode) && LogOk(itemsGone, master.Keys, nextItem)
    }

    /** ies_create_tree */
    constructor ()
      ensures Valid() && nodes == map[] && master == map[] && cur == -1 && nextItem == 0 && itemsGone == nodesGone == multiset{}
    {
      master, count, nodes, cur, inst := map[], map[], map[], -1, Prob(map[], 0.0);
      nextNode, nextItem, saved, itemsGone, nodesGone := 0, 0, map[], multiset{}, multiset{};
    }

    /** Walk up from node v and list the patches from the root down. */
    method MakePath(v: int) returns (path: seq<Patch>)
      requires TreeOk(nodes) && v in nodes
      ensures path == Path(nodes, v)
    {
      hide TreeOk, Path, Above;
      path := [nodes[v].patch];
      var u := v;
      PathIs(nodes, v);
      while nodes[u].up != -1
        invariant u in nodes && Path(nodes, v) == Above(nodes, u) + path
        decreases u
      {
        AboveUp(nodes, u, path);
        u := nodes[u].up;
        path := [nodes[u].patch] + path;
      }
      AboveRoot(nodes, u, path);
    }

    /** The patch lists of the current node: its differences from the node above it. */
    method CurrentPatch() returns (p: Patch)
      requires Valid() && cur in nodes && nodes[cur].count < 0
      ensures CanSuspend(Now(), p)
    {
      hide Inv, Encodes, TreeOk, LogOk;
      InvParts(Now());
      var path := [];
      if nodes[cur].up != -1 {
        path := MakePath(nodes[cur].up);
      }
      p := MakePatch(master, path, inst);
    }

    /** make_patch_lists, for the current node, which is active; the node then is no longer current. */
    method Suspend()
      requires Valid() && cur in nodes && nodes[cur].count < 0
      modifies this`nodes, this`count, this`saved, this`cur
      ensures Valid() && cur == -1 && nodes.Keys == old(nodes.Keys) && saved == old(saved)[old(cur) := inst]
      ensures forall v :: v in nodes ==> nodes[v].up == old(nodes[v].up) && nodes[v].count == old(nodes[v].count)
      ensures NewOrphans(old(count), inst, count, nodes[old(cur)].patch.add)
      ensures old(RowsHeld(Now())) ==> RowsHeld(Now())
    {
      hide Inv, CanSuspend, RowsHeld, LogOk, NewOrphans, Bump;
      ghost var s := Now();
      var p := CurrentPatch();
      SuspendKeeps(s, p);
      SuspendRows(s, p);
      SuspendOrphans(s, p);
      UpdatedKeys(nodes, cur, nodes[cur].(patch := p));
      nodes := nodes[cur := nodes[cur].(patch := p)];
      count := Bump(count, p.add, 1);
      saved := saved[cur := inst];
      cur := -1;
    }

    /** The current node, if any, becomes non-current. */
    method Leave()
      requires Valid()
      modifies this`nodes, this`count, this`saved, this`cur
      ensures Valid() && cur == -1 && nodes.Keys == old(nodes.Keys)
      ensures forall u :: u in nodes ==> nodes[u].up == old(nodes[u].up) && nodes[u].count == old(nodes[u].count)
      ensures saved == if old(cur) in nodes && nodes[old(cur)].count < 0 then old(saved)[old(cur) := old(inst)] else old(saved)
      ensures if old(cur) in nodes && nodes[old(cur)].count < 0 then NewOrphans(old(count), inst, count, nodes[old(cur)].patch.add)
              else nodes == old(nodes) && count == old(count)
      ensures old(RowsHeld(Now())) ==> RowsHeld(Now())
    {
      hide Inv, RowsHeld, LogOk, NewOrphans;
      InvParts(Now());
      NodesFrom0(Now());
      if cur != -1 {
        if nodes[cur].count < 0 {
          Suspend();
        } else {
          LeaveInactive(Now());
          LeaveRows(Now());
          cur := -1;
        }
      }
    }

    /** Decode node v into the instance and make it current. */
    method Enter(v: int)
      requires Valid() && cur == -1 && v in nodes
      modifies this`nodes, this`count, this`cur, this`inst
      ensures Valid() && cur == v && nodes.Keys == old(nodes.Keys) && v in saved && inst == saved[v]
      ensures forall u :: u in nodes ==> nodes[u].up == old(nodes[u].up) && nodes[u].count == old(nodes[u].count)
      ensures old(RowsHeld(Now())) ==> RowsHeld(Now())
    {
      hide Inv, Decode, RowsHeld, LogOk, Bump;
      ghost var s := Now();
      InvParts(s);
      NodeKnown(s, v);
      DecodeItems(master, Path(nodes, v));
      UpdatedKeys(nodes, v, nodes[v].(patch := NO_PATCH));
      var path := MakePath(v);
      inst := ApplyPatches(master, path);
      cur := v;
      if nodes[v].count < 0 {
        ResumeActive(s, v, inst);
        ResumeRows(s, v, inst);
        count := Bump(count, nodes[v].patch.add, -1);
        nodes := nodes[v := nodes[v].(patch := NO_PATCH)];
      } else {
        ResumeInactive(s, v, inst);
        EnterRows(s, v, inst);
      }
    }

    /** ies_revive_node; -1 stands for no node. A revived node has exactly the problem that was saved for it. */
    method Revive(v: int)
      requires Valid() && (v == -1 || v in nodes)
      modifies this`nodes, this`count, this`saved, this`cur, this`inst
      ensures Valid() && cur == v && nodes.Keys == old(nodes.Keys)
      ensures forall u :: u in nodes ==> nodes[u].up == old(nodes[u].up) && nodes[u].count == old(nodes[u].count)
      ensures saved == if old(cur) != v && old(cur) in nodes && nodes[old(cur)].count < 0 then old(saved)[old(cur) := old(inst)] else old(saved)
      ensures v != -1 && old(cur) != v ==> v in old(saved) && inst == old(saved)[v]
      ensures old(cur) == v ==> inst == old(inst)
      ensures old(RowsHeld(Now())) ==> RowsHeld(Now())
    {
      hide Inv, RowsHeld;
      if cur != v {
        Leave();
        InvParts(Now());
        if v != -1 {
          Enter(v);
        }
      }
    }

    /** The part of ies_create_node that marks an active parent as inactive; it stays current if it was. */
    method Deactivate(v: int)
      requires Valid() && v in nodes && nodes[v].count < 0
      modifies this`nodes, this`count, this`saved, this`cur
      ensures Valid() && cur == old(cur) && nodes.Keys == old(nodes.Keys) && nodes[v].count == 0
      ensures forall u :: u in nodes && u != v ==> nodes[u].count == old(nodes[u].count)
      ensures saved == if old(cur) == v then old(saved)[v := inst] else old(saved)
      ensures old(RowsHeld(Now())) ==> RowsHeld(Now())
    {
      hide Inv, RowsHeld, LogOk, NewOrphans, TreeOk;
      InvParts(Now());
      var current := cur == v;
      if current {
        Suspend();
      }
      DeactivateKeeps(Now(), v);
      DeactivateRows(Now(), v);
      UpdatedKeys(nodes, v, nodes[v].(count := 0));
      nodes := nodes[v := nodes[v].(count := 0)];
      if current {
        Stay(v);
      }
    }

    /** A node that is not active and whose problem is in the instance becomes current again. */
    method Stay(v: int)
      requires Valid() && cur == -1 && v in nodes && nodes[v].count >= 0 && v in saved && saved[v] == inst
      modifies this`cur
      ensures Valid() && cur == v
      ensures old(RowsHeld(Now())) ==> RowsHeld(Now())
    {
      hide Inv, Decode, RowsHeld, LogOk;
      ghost var s := Now();
      InvParts(s);
      NodesFrom0(s);
      NodeKnown(s, v);
      DecodeItems(master, Path(nodes, v));
      ResumeInactive(s, v, inst);
      EnterRows(s, v, inst);
      cur := v;
    }

    /** The new node is attached to its parent, which is not active. */
    method Attach(parent: int) returns (w: int)
      requires Valid() && (parent == -1 || (parent in nodes && nodes[parent].count >= 0))
      modifies this`nodes, this`saved, this`nextNode
      ensures Valid() && w !in old(nodes) && w in nodes && nodes[w] == Node(parent, -1, NO_PATCH)
      ensures nodes.Keys == old(nodes.Keys) + {w} && (parent != -1 ==> parent in nodes && nodes[parent].count >= 1)
      ensures w in saved && (parent == -1 ==> saved[w] == Prob(map[], 0.0))
      ensures parent != -1 ==> parent in old(saved) && saved[w] == old(saved)[parent]
      ensures OthersSame(old(Now()), Now(), parent)
      ensures old(RowsHeld(Now())) ==> RowsHeld(Now())
    {
      hide Inv, TreeOk, RowsHeld, LogOk, WithNode, OthersSame;
      w := nextNode;
      LogNew(nodesGone, nodes.Keys, nextNode);
      LogLive(nodesGone, nodes.Keys, nextNode);
      ghost var s := Now();
      InvParts(s);
      CreateKeeps(s, w, parent);
      CreateRows(s, w, parent);
      WithNodeIs(s, w, parent);
      nodes := nodes[w := Node(parent, -1, NO_PATCH)];
      saved := saved[w := if parent == -1 then Prob(map[], 0.0) else saved[parent]];
      if parent != -1 {
        nodes := nodes[parent := nodes[parent].(count := nodes[parent].count + 1)];
      }
      nextNode := nextNode + 1;
      assert Now() == WithNode(s, w, parent);
      WithNodeFacts(s, w, parent);
    }

    /** ies_create_node; -1 stands for no parent. */
    method CreateNode(parent: int) returns (w: int)
      requires Valid() && (if parent == -1 then nodes == map[] else parent in nodes)
      modifies this`nodes, this`count, this`saved, this`nextNode, this`cur
      ensures Valid() && w !in old(nodes) && w in nodes && nodes[w] == Node(parent, -1, NO_PATCH)
      ensures nodes.Keys == old(nodes.Keys) + {w} && cur == old(cur)
      ensures parent != -1 ==> parent in nodes && nodes[parent].count >= 1
      ensures w in saved && (parent == -1 ==> saved[w] == Prob(map[], 0.0))
      ensures parent != -1 && old(cur) == parent && old(nodes)[parent].count < 0 ==>
                saved[w] == inst && parent in saved && saved[parent] == inst
      ensures parent != -1 && old(nodes)[parent].count >= 0 ==> parent in saved && parent in old(saved) && saved[parent] == old(saved)[parent]
      ensures parent != -1 && !(old(cur) == parent && old(nodes)[parent].count < 0) ==>
                parent in old(saved) && saved[w] == old(saved)[parent]
      ensures forall u :: u in old(nodes) && u != parent ==>
                u in saved && u in old(saved) && saved[u] == old(saved)[u] && nodes[u].count == old(nodes)[u].count
      ensures old(RowsHeld(Now())) ==> RowsHeld(Now())
    {
      hide Inv, TreeOk, RowsHeld;
      InvParts(Now());
      if parent != -1 && nodes[parent].count < 0 {
        Deactivate(parent);
      }
      InvParts(Now());
      w := Attach(parent);
    }

    // ----- master items

    /** ies_add_master_row, ies_add_master_col */
    method AddMaster(it: Item) returns (x: int)
      requires Valid()
      modifies this`master, this`count, this`nextItem
      ensures Valid() && x !in old(master) && master == old(master)[x := it] && count == old(count)[x := 0]
      ensures x == old(nextItem) && nextItem == x + 1
    {
      hide Inv, LogOk;
      x := nextItem;
      LogNew(itemsGone, master.Keys, nextItem);
      LogLive(itemsGone, master.Keys, nextItem);
      UpdatedKeys(master, x, it);
      AddItemKeeps(Now(), x, it);
      master, count, nextItem := master[x := it], count[x := 0], nextItem + 1;
    }

    /** ies_del_master_row, ies_del_master_col: allowed if no node problem uses the item. */
    method DelMaster(x: int)
      requires Valid() && x in master && x in count && count[x] == 0 && (cur != -1 ==> x !in inst.at)
      modifies this`master, this`count, this`itemsGone
      ensures Valid() && master == old(master) - {x} && count == old(count) - {x}
    {
      hide Inv, LogOk;
      DropKeeps(Now(), x);
      LogGone(itemsGone, master.Keys, nextItem, x);
      itemsGone := itemsGone + multiset{x};
      RemainingKeys(master, x);
      master, count := master - {x}, count - {x};
    }

    /** Delete the items of X that no node problem references and the filter does not keep. */
    method DelUnused(X: set<int>, keep: int -> bool)
      requires Valid() && X <= master.Keys && (cur != -1 ==> X !! inst.at.Keys)
      modifies this`master, this`count, this`itemsGone
      ensures Valid()
      ensures forall x :: x in master <==> x in old(master) && !(x in X && x in old(count) && old(count)[x] == 0 && !keep(x))
      ensures forall x :: x in master ==> master[x] == old(master)[x] && x in count && x in old(count) && count[x] == old(count)[x]
    {
      hide Inv, LogOk;
      var todo := X;
      InvParts(Now());
      while todo != {}
        invariant Valid() && todo <= X && todo <= master.Keys && count.Keys == master.Keys
        invariant forall x :: x in master <==> x in old(master) && (x in X - todo ==> old(count)[x] != 0 || keep(x))
        invariant forall x :: x in master ==> x in old(count) && master[x] == old(master)[x] && count[x] == old(count)[x]
        decreases |todo|
      {
        Inhabited(todo);
        var x :| x in todo;
        if count[x] == 0 && !keep(x) {
          DelMaster(x);
        }
        todo := todo - {x};
      }
    }

    // ----- changes of the current node problem

    /** ies_add_rows, ies_add_cols: the items get their default attributes. */
    method AddItems(X: set<int>)
      requires Valid() && cur in nodes && nodes[cur].count < 0 && X <= master.Keys && X !! inst.at.Keys
      modifies this`inst
      ensures Valid() && inst == Prob(old(inst.at) + map x | x in X && x in master :: Default(master[x]), old(inst.c0))
      ensures forall x :: x in X ==> x in inst.at && NewAttr(master[x], inst.at[x])
      ensures old(RowsHeldBut(Now(), X)) ==> RowsHeld(Now())
    {
      hide Inv;
      InvParts(Now());
      forall x | x in X ensures NewAttr(master[x], Default(master[x])) {
        DefaultStatus(master[x]);
      }
      var P := Prob(inst.at + map x | x in X && x in master :: Default(master[x]), inst.c0);
      assert P.at.Keys == inst.at.Keys + X;
      EditKeeps(Now(), P);
      inst := P;
    }

    /** ies_del_items: rows and columns leave the node problem; those that no other node uses may leave the master set. */
    method DelItems(X: set<int>, keep: int -> bool)
      requires Valid() && cur in nodes && nodes[cur].count < 0 && X <= inst.at.Keys
      modifies this`inst, this`master, this`count, this`itemsGone
      ensures Valid() && inst == Prob(old(inst.at) - X, old(inst.c0))
      ensures forall x :: x in master <==> x in old(master) && !(x in X && x in old(count) && old(count)[x] == 0 && !keep(x))
      ensures forall x :: x in master ==> master[x] == old(master)[x]
    {
      hide Inv;
      InvParts(Now());
      var P := Prob(inst.at - X, inst.c0);
      EditKeeps(Now(), P);
      inst := P;
      DelUnused(X, keep);
    }

    /** ies_set_row_bnds, ies_set_obj_coef, ies_set_row_stat and their column forms. */
    method SetAttr(x: int, a: Attr)
      requires Valid() && cur in nodes && nodes[cur].count < 0 && x in inst.at
      modifies this`inst
      ensures Valid() && inst == Prob(old(inst.at)[x := a], old(inst.c0))
      ensures old(RowsHeld(Now())) ==> RowsHeld(Now())
    {
      hide Inv;
      InvParts(Now());
      var P := Prob(inst.at[x := a], inst.c0);
      assert P.at.Keys == inst.at.Keys;
      EditKeeps(Now(), P);
      inst := P;
    }

    method SetConst(c: real)
      requires Valid() && cur in nodes && nodes[cur].count < 0
      modifies this`inst
      ensures Valid() && inst == Prob(old(inst.at), c)
    {
      hide Inv;
      InvParts(Now());
      EditKeeps(Now(), Prob(inst.at, c));
      inst := Prob(inst.at, c);
    }

    /** ies_solve_node: the solver stores new statuses, also when the current node is not active. */
    method StoreStatuses(tags: map<int, Tag>)
      requires Valid() && cur in nodes && tags.Keys == inst.at.Keys
      modifies this`inst
      ensures Valid() && inst.c0 == old(inst.c0) && inst.at.Keys == old(inst.at.Keys)
      ensures forall x :: x in inst.at ==> inst.at[x] == old(inst.at)[x].(tag := tags[x])
      ensures old(RowsHeld(Now())) ==> RowsHeld(Now())
    {
      hide Inv;
      InvParts(Now());
      var P := Prob(map x | x in inst.at :: inst.at[x].(tag := tags[x]), inst.c0);
      assert P.at.Keys == inst.at.Keys;
      EditKeeps(Now(), P);
      inst := P;
    }

    // ----- deleting nodes

    /** Items that only node v adds and the filter does not keep. */
    function Orphans(v: int, keep: int -> bool): set<int>
      requires v in nodes
      reads this
    {
      set x | x in nodes[v].patch.add && x in count && count[x] == 1 && !keep(x)
    }

    /** Items that leave the master set together with node v. */
    function Leaving(v: int, keep: int -> bool): set<int>
      requires v in nodes
      reads this
    {
      if cur == v && nodes[v].count < 0 then set x | x in inst.at && x in count && count[x] == 0 && !keep(x) else Orphans(v, keep)
    }

    /** The record of leaf v is removed and its patch lists are freed. */
    method RemoveLeaf(v: int)
      requires Valid() && v in nodes && nodes[v].count <= 0 && v != cur
      modifies this`nodes, this`count, this`saved, this`nodesGone
      ensures Valid() && nodes.Keys == old(nodes.Keys) - {v} && saved == old(saved) - {v}
      ensures count == Bump(old(count), old(nodes)[v].patch.add, -1)
      ensures forall u :: u in nodes ==> nodes[u].up == old(nodes)[u].up && nodes[u].patch == old(nodes)[u].patch
      ensures forall u :: u in nodes ==> nodes[u].count == if u == old(nodes)[v].up then old(nodes)[u].count - 1 else old(nodes)[u].count
      ensures forall u :: u in nodes ==> (nodes[u].count < 0 <==> old(nodes)[u].count < 0)
      ensures Now() == WithoutLeaf(old(Now()), v)
    {
      hide Inv, LogOk, Bump, TreeOk;
      InvParts(Now());
      LogGone(nodesGone, nodes.Keys, nextNode, v);
      nodesGone := nodesGone + multiset{v};
      RemainingKeys(nodes, v);
      DropChildKeys(nodes - {v}, nodes[v].up);
      RemoveKeeps(Now(), v);
      RemovedActives(Now(), v);
      count := Bump(count, nodes[v].patch.add, -1);
      nodes := DropChild(nodes - {v}, nodes[v].up);
      saved := saved - {v};
    }

    /** Items that are not counted and that the filter does not keep leave the master set. */
    method Discard(gone: set<int>, keep: int -> bool)
      requires Valid() && (cur != -1 ==> gone !! inst.at.Keys) && forall x :: x in gone ==> x in count && count[x] == 0 && !keep(x)
      modifies this`count, this`master, this`itemsGone
      ensures Valid() && forall x :: x in master <==> x in old(master) && x !in gone
      ensures forall x :: x in master ==> x in old(master) && master[x] == old(master)[x]
      ensures old(RowsHeldBut(Now(), gone)) ==> RowsHeld(Now())
    {
      hide Inv, RowsHeld, TreeOk, RowsHeldBut, LogOk;
      ghost var t := Now();
      InvParts(t);
      Subset(gone, master.Keys);
      DelUnused(gone, keep);
      if RowsHeldBut(t, gone) {
        DropRows(t, Now(), gone, keep);
      }
    }

    /** Delete leaf v, which is not current, and the items that only it adds. */
    method DeleteOther(v: int, keep: int -> bool) returns (ok: bool)
      requires Valid() && v in nodes && nodes[v].count <= 0 && cur != v
      modifies this`nodes, this`count, this`saved, this`master, this`itemsGone, this`nodesGone
      ensures ok <==> cur == -1 || old(Orphans(v, keep)) !! inst.at.Keys
      ensures ok ==> Valid() && nodes.Keys == old(nodes.Keys) - {v}
      ensures ok ==> forall x :: x in master <==> x in old(master) && x !in old(Orphans(v, keep))
      ensures ok ==> forall u :: u in nodes ==> u in saved && u in old(saved) && saved[u] == old(saved)[u]
      ensures ok ==> forall u :: u in nodes ==> (nodes[u].count < 0 <==> old(nodes)[u].count < 0)
      ensures ok ==> forall u :: u in nodes ==> nodes[u].count == if u == old(nodes)[v].up then old(nodes)[u].count - 1 else old(nodes)[u].count
      ensures ok ==> forall u :: u in nodes ==> nodes[u].up == old(nodes)[u].up
      ensures ok ==> forall x :: x in master ==> x in old(master) && master[x] == old(master)[x]
      ensures ok && old(RowsHeld(Now())) && RowsGo(old(master), keep) ==> RowsHeld(Now())
    {
      hide Inv, RowsHeld, RowsGo, TreeOk, RowsHeldBut, WithoutLeaf, LogOk, Bump;
      InvParts(Now());
      var gone := Orphans(v, keep);
      ok := cur == -1 || gone !! inst.at.Keys;
      if !ok {
        return;
      }
      ghost var held := RowsHeld(Now()) && RowsGo(master, keep);
      if held {
        RemoveRows(Now(), v, gone, keep);
      }
      OrphansFree(count, nodes[v].patch.add, gone, keep);
      RemoveLeaf(v);
      Discard(gone, keep);
    }

    /** ies_delete_node. It faults if an item that would be deleted with the node is used in another, current node. */
    method DeleteNode(v: int, keep: int -> bool) returns (ok: bool)
      requires Valid() && v in nodes && nodes[v].count <= 0
      modifies this`nodes, this`count, this`saved, this`cur, this`master, this`itemsGone, this`nodesGone
      ensures old(cur) == -1 || old(cur) == v ==> ok && cur == -1
      ensures old(cur) != v ==> (ok <==> cur == -1 || old(Orphans(v, keep)) !! inst.at.Keys)
      ensures ok ==> forall x :: x in master <==> x in old(master) && x !in old(Leaving(v, keep))
      ensures ok ==> Valid() && nodes.Keys == old(nodes.Keys) - {v} && (old(cur) != v ==> cur == old(cur))
      ensures ok ==> forall u :: u in nodes ==> u in saved && u in old(saved) && saved[u] == old(saved)[u]
      ensures ok ==> forall u :: u in nodes ==> (nodes[u].count < 0 <==> old(nodes)[u].count < 0)
      ensures ok ==> forall u :: u in nodes ==> nodes[u].count == if u == old(nodes)[v].up then old(nodes)[u].count - 1 else old(nodes)[u].count
      ensures ok ==> forall u :: u in nodes ==> nodes[u].up == old(nodes)[u].up
      ensures ok ==> forall x :: x in master ==> x in old(master) && master[x] == old(master)[x]
      ensures ok && old(RowsHeld(Now())) && RowsGo(old(master), keep) ==> RowsHeld(Now())
    {
      hide Inv, RowsHeld, RowsGo, TreeOk, LogOk;
      InvParts(Now());
      if cur == v {
        Leave();
        InvParts(Now());
      }
      ok := DeleteOther(v, keep);
    }

    /** ies_prune_branch */
    method PruneBranch(v: int, keep: int -> bool) returns (ok: bool)
      requires Valid() && v in nodes && nodes[v].count <= 0
      modifies this`nodes, this`count, this`saved, this`cur, this`master, this`itemsGone, this`nodesGone
      ensures old(cur) == -1 || old(cur) == v ==> ok
      ensures ok ==> Valid() && v !in nodes && Pruned(old(Now()), Now(), v)
      ensures ok ==> BranchGone(old(nodes), nodes, v)
      ensures ok && (old(cur) == -1 || old(cur) == v) ==> cur == -1
      ensures ok ==> cur == -1 || cur == old(cur)
      ensures ok && (forall w :: w in old(nodes) && w != v ==> old(nodes)[w].count != 0) ==> forall w :: w in nodes ==> nodes[w].count != 0
      ensures ok && old(RowsHeld(Now())) && RowsGo(old(master), keep) ==> RowsHeld(Now())
    {
      hide Inv, RowsHeld, TreeOk, Pruned, RowsGo, BranchGone, Going, LogOk;
      var u := v;
      ok := true;
      ghost var s0 := Now();
      ParentFacts(s0, v);
      PrunedRefl(s0, v);
      GoingStart(s0, v);
      while u != -1
        invariant ok && Valid() && (u == -1 || u in nodes) && u <= v && (u == v || v !in nodes)
        invariant u == v ==> Now() == s0
        invariant Going(s0.nodes, nodes, v, u)
        invariant u != v && (s0.cur == -1 || s0.cur == v) ==> cur == -1
        invariant cur == -1 || cur == s0.cur
        invariant Pruned(s0, Now(), v) && (u != v && u != -1 ==> nodes[u].count >= 0)
        invariant RowsHeld(s0) && RowsGo(s0.master, keep) ==> RowsHeld(Now())
        invariant (forall w :: w in s0.nodes && w != v ==> s0.nodes[w].count != 0) ==>
                    forall w :: w in nodes && w != u ==> nodes[w].count != 0
        decreases u + 1
      {
        if nodes[u].count > 0 {
          GoingStops(s0, Now(), v, u);
          break;
        }
        ghost var s := Now();
        ParentFacts(s, u);
        var next := nodes[u].up;
        ok := DeleteNode(u, keep);
        if !ok {
          return;
        }
        PrunedStep(s0, s, Now(), v, u);
        PrunedGo(s0, s, v, keep);
        GoingStep(s0, s, Now(), v, u);
        u := next;
      }
      GoingEnds(s0.nodes, nodes, v, u);
      NodesFrom0(Now());
    }
  }

  /** Nodes are only removed; active nodes other than v, what is saved, and the records of the items stay. */
  ghost predicate Pruned(s: St, t: St, v: int) {
    && t.nodes.Keys <= s.nodes.Keys
    && (forall w :: w in t.nodes ==> w in s.nodes && (t.nodes[w].count < 0 <==> s.nodes[w].count < 0))
    && (forall w :: w in s.nodes && s.nodes[w].count < 0 && w != v ==> w in t.nodes)
    && (forall w :: w in t.nodes ==> w in t.saved && w in s.saved && t.saved[w] == s.saved[w])
    && (forall x :: x in t.master ==> x in s.master && t.master[x] == s.master[x])
  }

  /** Exactly v and those of its ancestors that were left without children are gone; nothing is attached elsewhere. */
  ghost predicate BranchGone(s: Nodes, t: Nodes, v: int) {
    && TreeOk(s) && v in s && (forall w :: w in t ==> w in s && t[w].up == s[w].up)
    && (forall w :: w in s && w !in t ==> OnPath(s, w, v))
    && (forall w :: w in t && w in s && OnPath(s, w, v) ==> t[w].count > 0)
  }

  /** Midway: the nodes from v up to u, exclusively, are gone. */
  ghost predicate Going(s: Nodes, t: Nodes, v: int, u: int) {
    && TreeOk(s) && v in s && (u == -1 || u in s) && (forall w :: w in t ==> w in s && t[w].up == s[w].up)
    && (forall w :: w in s && w !in t ==> OnPath(s, w, v))
    && (u != -1 ==> OnPath(s, u, v))
    && (forall w :: w in t && w in s && OnPath(s, w, v) ==> u != -1 && OnPath(s, w, u))
  }

  lemma GoingStart(s: St, v: int)
    requires Inv(s) && v in s.nodes
    ensures Going(s.nodes, s.nodes, v, v)
  {
    InvParts(s);
  }

  lemma {:induction false} ParentOnPath(nodes: Nodes, u: int, v: int)
    requires TreeOk(nodes) && v in nodes && u in nodes && OnPath(nodes, u, v) && nodes[u].up != -1
    ensures OnPath(nodes, nodes[u].up, v)
    decreases v
  {
    if u != v {
      ParentOnPath(nodes, u, nodes[v].up);
    }
  }

  lemma GoingStep(s0: St, s: St, t: St, v: int, u: int)
    requires Going(s0.nodes, s.nodes, v, u) && u in s.nodes && t.nodes.Keys == s.nodes.Keys - {u}
    requires forall w :: w in t.nodes ==> t.nodes[w].up == s.nodes[w].up
    ensures Going(s0.nodes, t.nodes, v, s.nodes[u].up)
  {
    var n := s0.nodes;
    if n[u].up != -1 {
      ParentOnPath(n, u, v);
    }
    forall w | w in n && w !in t.nodes ensures OnPath(n, w, v) {
    }
    forall w | w in t.nodes && w in n && OnPath(n, w, v) ensures n[u].up != -1 && OnPath(n, w, n[u].up) {
      assert OnPath(n, w, u) && w != u;
    }
  }

  lemma {:induction false} PathStays(s: Nodes, t: Nodes, w: int, u: int)
    requires TreeOk(s) && TreeOk(t) && u in s && u in t && OnPath(s, w, u) && forall x :: x in t ==> x in s && t[x].up == s[x].up
    ensures OnPath(t, w, u)
    decreases u
  {
    if w != u {
      PathStays(s, t, w, s[u].up);
    }
  }

  /** The node where pruning stops has children, and so have all nodes above it. */
  lemma GoingStops(s0: St, s: St, v: int, u: int)
    requires Going(s0.nodes, s.nodes, v, u) && Inv(s) && u in s.nodes && s.nodes[u].count > 0
    ensures BranchGone(s0.nodes, s.nodes, v)
  {
    hide AllFaithful, RefsOk, AllNamesOk, CurrentOk;
    forall w | w in s.nodes && w in s0.nodes && OnPath(s0.nodes, w, v) ensures s.nodes[w].count > 0 {
      PathStays(s0.nodes, s.nodes, w, u);
      if w != u {
        LeafOffPath(s.nodes, w, u);
        assert |Children(s.nodes, w)| > 0;
      }
    }
  }

  lemma GoingEnds(s: Nodes, t: Nodes, v: int, u: int)
    requires Going(s, t, v, u)
    ensures u == -1 ==> BranchGone(s, t, v)
  {
  }

  lemma PrunedRefl(s: St, v: int)
    ensures Inv(s) ==> Pruned(s, s, v)
  {
    if Inv(s) {
      InvParts(s);
    }
  }

  lemma PrunedStep(s: St, t: St, r: St, v: int, u: int)
    requires Pruned(s, t, v) && u in t.nodes && (u == v || t.nodes[u].count >= 0)
    requires r.nodes.Keys == t.nodes.Keys - {u}
    requires forall w :: w in r.nodes ==> (r.nodes[w].count < 0 <==> t.nodes[w].count < 0)
    requires forall w :: w in r.nodes ==> w in r.saved && w in t.saved && r.saved[w] == t.saved[w]
    requires forall x :: x in r.master ==> x in t.master && r.master[x] == t.master[x]
    ensures Pruned(s, r, v)
  {
  }

  lemma PrunedGo(s: St, t: St, v: int, keep: int -> bool)
    requires Pruned(s, t, v)
    ensures RowsGo(s.master, keep) ==> RowsGo(t.master, keep)
  {
  }

  lemma NodesFrom0(s: St)
    requires Inv(s)
    ensures forall v :: v in s.nodes ==> v >= 0
  {
  }

  lemma ParentFacts(s: St, u: int)
    requires Inv(s) && u in s.nodes
    ensures u >= 0 && (s.nodes[u].up == -1 || (s.nodes[u].up in s.nodes && s.nodes[u].up < u && s.nodes[s.nodes[u].up].count >= 1))
  {
    hide AllFaithful, RefsOk, AllNamesOk;
    if s.nodes[u].up != -1 {
      ParentCounts(s.nodes, u);
    }
  }

  /** An inactive node can be left at any time. */
  lemma LeaveInactive(s: St)
    requires Inv(s) && s.cur in s.nodes && s.nodes[s.cur].count >= 0
    ensures Inv(s.(cur := -1))
  {
    hide CountsOk, NamesOk, Decode, Adders;
    var t := s.(cur := -1);
    forall u | u in t.nodes && !ActiveCurrent(t, u) ensures Faithful(t, u) {
      assert Faithful(s, u);
    }
  }
}
