/** Deleting master items and leaf nodes keeps the invariant of the enumeration tree. */
module IesDelete {
  import opened Collections
  import opened IesModel
  import opened IesState
  import opened IesSave

  // ----- master items

  ghost function WithoutItem(s: St, x: int): St {
    s.(master := s.master - {x}, count := s.count - {x})
  }

  lemma Unreferenced(s: St, x: int, v: int)
    requires TreeOk(s.nodes) && RefsOk(s) && x in s.master && s.count[x] == 0 && v in s.nodes
    ensures !AddedOn(s.nodes, v, x)
  {
    hide AddedOn, RefsOk;
    if AddedOn(s.nodes, v, x) {
      Referenced(s, x, v);
    }
  }

  lemma Referenced(s: St, x: int, v: int)
    requires TreeOk(s.nodes) && RefsOk(s) && x in s.master && v in s.nodes && AddedOn(s.nodes, v, x)
    ensures x in s.count && s.count[x] >= 1
  {
    var u :| u in s.nodes && OnPath(s.nodes, u, v) && x in s.nodes[u].patch.add;
    assert u in Adders(s.nodes, x);
    SizeWithout(Adders(s.nodes, x), u);
  }

  lemma DropFaithful(s: St, x: int, v: int)
    requires TreeOk(s.nodes) && RefsOk(s) && AllNamesOk(s) && x in s.master && s.count[x] == 0
    requires v in s.nodes && v in s.saved && Faithful(s, v)
    ensures Faithful(WithoutItem(s, x), v)
  {
    hide AddedOn, RefsOk, Path, AllNamesOk;
    Unreferenced(s, x, v);
    forall y | y in Items(Path(s.nodes, v)) ensures y in WithoutItem(s, x).master {
      ItemsLive(s, v, y);
    }
    DecodeFrame(s.master, WithoutItem(s, x).master, Path(s.nodes, v));
  }

  /** An item that no add_them list names is named in no patch list at all, so it can go. */
  lemma DropKeeps(s: St, x: int)
    requires Inv(s) && x in s.master && s.count[x] == 0 && (s.cur != -1 ==> x !in s.inst.at)
    ensures Inv(WithoutItem(s, x))
  {
    hide CountsOk, Faithful, AddedOn, Path, Items;
    var t := WithoutItem(s, x);
    forall v | v in t.nodes ensures NamesOk(t.master, t.nodes, v) {
      Unreferenced(s, x, v);
      assert NamesOk(s.master, s.nodes, v);
    }
    forall v | v in t.nodes && !ActiveCurrent(t, v) ensures Faithful(t, v) {
      DropFaithful(s, x, v);
    }
  }

  ghost function WithItem(s: St, x: int, it: Item): St {
    s.(master := s.master[x := it], count := s.count[x := 0])
  }

  lemma FreshUnnamed(s: St, x: int)
    requires TreeOk(s.nodes) && AllNamesOk(s) && x !in s.master
    ensures Adders(s.nodes, x) == {}
  {
    Inhabited(Adders(s.nodes, x));
    if v :| v in Adders(s.nodes, x) {
      AdderKnows(s, x, v);
    }
  }

  lemma AdderKnows(s: St, x: int, v: int)
    requires TreeOk(s.nodes) && AllNamesOk(s) && v in Adders(s.nodes, x)
    ensures x in s.master
  {
    assert Names(s.nodes[v].patch, x) && NamesOk(s.master, s.nodes, v);
  }

  lemma AddedFaithful(s: St, x: int, it: Item, v: int)
    requires TreeOk(s.nodes) && x !in s.master && v in s.nodes && v in s.saved && Faithful(s, v)
    ensures Faithful(WithItem(s, x, it), v)
  {
    hide Path;
    DecodeFrame(s.master, WithItem(s, x, it).master, Path(s.nodes, v));
  }

  /** ies_add_master_row, ies_add_master_col */
  lemma AddItemKeeps(s: St, x: int, it: Item)
    requires Inv(s) && x !in s.master
    ensures Inv(WithItem(s, x, it))
  {
    hide CountsOk, Faithful, AddedOn, Path, Items, Adders;
    var t := WithItem(s, x, it);
    FreshUnnamed(s, x);
    forall v | v in t.nodes ensures NamesOk(t.master, t.nodes, v) {
      assert NamesOk(s.master, s.nodes, v);
    }
    forall v | v in t.nodes && !ActiveCurrent(t, v) ensures Faithful(t, v) {
      AddedFaithful(s, x, it, v);
    }
  }

  /** Changes of the current node problem. */
  lemma EditKeeps(s: St, P: Prob)
    requires Inv(s) && P.at.Keys <= s.master.Keys
    requires s.cur != -1 && s.cur in s.nodes ==> s.nodes[s.cur].count < 0 || P.at.Keys == s.inst.at.Keys
    ensures Inv(s.(inst := P))
  {
    hide CountsOk, NamesOk, Decode, Adders, Items, Path;
    var t := s.(inst := P);
    forall v | v in t.nodes && !ActiveCurrent(t, v) ensures Faithful(t, v) {
      assert Faithful(s, v);
    }
  }

  // ----- ies_delete_node

  function DropChild(nodes: Nodes, p: int): Nodes {
    if p in nodes then nodes[p := nodes[p].(count := nodes[p].count - 1)] else nodes
  }

  ghost function WithoutLeaf(s: St, v: int): St
    requires v in s.nodes
  {
    s.(nodes := DropChild(s.nodes - {v}, s.nodes[v].up), count := Bump(s.count, s.nodes[v].patch.add, -1),
       saved := s.saved - {v})
  }

  ghost predicate CanRemove(s: St, v: int) {
    Inv(s) && v in s.nodes && s.nodes[v].count <= 0 && v != s.cur
  }

  lemma HasParent(nodes: Nodes, u: int)
    requires u in nodes
    ensures u in Children(nodes, nodes[u].up)
  {
  }

  lemma RemovedTree(s: St, v: int)
    requires TreeOk(s.nodes) && Leaf(s.nodes, v)
    ensures TreeOk(WithoutLeaf(s, v).nodes)
  {
    var t := WithoutLeaf(s, v);
    forall u | u in t.nodes ensures u >= 0 && (t.nodes[u].up == -1 || (t.nodes[u].up in t.nodes && t.nodes[u].up < u)) {
      HasParent(s.nodes, u);
    }
  }

  lemma RemovedFrame(s: St, v: int, u: int)
    requires TreeOk(s.nodes) && Leaf(s.nodes, v) && TreeOk(WithoutLeaf(s, v).nodes) && u in s.nodes && u != v
    ensures u in WithoutLeaf(s, v).nodes && Path(WithoutLeaf(s, v).nodes, u) == Path(s.nodes, u)
    ensures !OnPath(s.nodes, v, u) && forall w :: OnPath(WithoutLeaf(s, v).nodes, w, u) <==> OnPath(s.nodes, w, u)
  {
    if OnPath(s.nodes, v, u) {
      LeafOffPath(s.nodes, v, u);
    }
    PathFrame(s.nodes, WithoutLeaf(s, v).nodes, u);
  }

  lemma RemovedAdded(s: St, v: int, u: int, x: int)
    requires TreeOk(s.nodes) && Leaf(s.nodes, v) && TreeOk(WithoutLeaf(s, v).nodes) && u in s.nodes && u != v
    requires AddedOn(s.nodes, u, x)
    ensures u in WithoutLeaf(s, v).nodes && AddedOn(WithoutLeaf(s, v).nodes, u, x)
  {
    hide Path;
    var t := WithoutLeaf(s, v);
    RemovedFrame(s, v, u);
    var w :| w in s.nodes && OnPath(s.nodes, w, u) && x in s.nodes[w].patch.add;
    assert w in t.nodes && OnPath(t.nodes, w, u) && x in t.nodes[w].patch.add;
  }

  lemma RemovedAdders(s: St, v: int, x: int)
    requires v in s.nodes
    ensures |Adders(WithoutLeaf(s, v).nodes, x)| == |Adders(s.nodes, x)| - if x in s.nodes[v].patch.add then 1 else 0
  {
    SameSet(Adders(WithoutLeaf(s, v).nodes, x), Adders(s.nodes, x) - {v});
    SizeWithout(Adders(s.nodes, x), v);
  }

  lemma RemovedChildren(s: St, v: int, u: int)
    requires v in s.nodes && u in s.nodes && u != v
    ensures |Children(WithoutLeaf(s, v).nodes, u)| == |Children(s.nodes, u)| - if s.nodes[v].up == u then 1 else 0
  {
    SameSet(Children(WithoutLeaf(s, v).nodes, u), Children(s.nodes, u) - {v});
    SizeWithout(Children(s.nodes, u), v);
  }

  lemma RemovedRefs(s: St, v: int)
    requires RefsOk(s) && v in s.nodes
    ensures RefsOk(WithoutLeaf(s, v))
  {
    hide Adders;
    var t := WithoutLeaf(s, v);
    forall x | x in t.master ensures t.count[x] == |Adders(t.nodes, x)| {
      RemovedAdders(s, v, x);
    }
  }

  /** The parent of a leaf is not active, and counts it. */
  lemma ParentCounts(nodes: Nodes, v: int)
    requires CountsOk(nodes) && v in nodes && nodes[v].up in nodes
    ensures nodes[nodes[v].up].count >= 1
  {
    var p := nodes[v].up;
    assert v in Children(nodes, p);
    SizeWithout(Children(nodes, p), v);
  }

  lemma RemovedCounts(s: St, v: int)
    requires CountsOk(s.nodes) && v in s.nodes && TreeOk(s.nodes)
    ensures CountsOk(WithoutLeaf(s, v).nodes)
  {
    hide Children;
    var t := WithoutLeaf(s, v);
    if s.nodes[v].up != -1 {
      ParentCounts(s.nodes, v);
    }
    forall u | u in t.nodes ensures |Children(t.nodes, u)| == if t.nodes[u].count < 0 then 0 else t.nodes[u].count {
      RemovedChildren(s, v, u);
    }
  }

  lemma RemovedNames(s: St, v: int, u: int)
    requires TreeOk(s.nodes) && Leaf(s.nodes, v) && TreeOk(WithoutLeaf(s, v).nodes) && u in s.nodes && u != v
    requires NamesOk(s.master, s.nodes, u)
    ensures u in WithoutLeaf(s, v).nodes && NamesOk(s.master, WithoutLeaf(s, v).nodes, u)
  {
    hide AddedOn, Path, OnPath;
    RemovedFrame(s, v, u);
    forall x | Names(s.nodes[u].patch, x) ensures AddedOn(WithoutLeaf(s, v).nodes, u, x) {
      RemovedAdded(s, v, u, x);
    }
  }

  lemma RemovedFaithful(s: St, v: int, u: int)
    requires TreeOk(s.nodes) && Leaf(s.nodes, v) && TreeOk(WithoutLeaf(s, v).nodes) && u in s.nodes && u != v
    requires u in s.saved && Faithful(s, u)
    ensures u in WithoutLeaf(s, v).nodes && Faithful(WithoutLeaf(s, v), u)
  {
    hide Decode, OnPath;
    RemovedFrame(s, v, u);
  }

  lemma RemoveKeeps(s: St, v: int)
    requires CanRemove(s, v)
    ensures Inv(WithoutLeaf(s, v))
  {
    hide NamesOk, Decode, Faithful, AddedOn, CountsOk, RefsOk, Path, Leaf, Items;
    var t := WithoutLeaf(s, v);
    ActiveLeaf(s.nodes, v);
    RemovedTree(s, v);
    RemovedCounts(s, v);
    RemovedRefs(s, v);
    forall u | u in t.nodes ensures NamesOk(t.master, t.nodes, u) {
      RemovedNames(s, v, u);
    }
    forall u | u in t.nodes && !ActiveCurrent(t, u) ensures Faithful(t, u) {
      RemovedActive(s, v, u);
      RemovedFaithful(s, v, u);
    }
    if s.cur != -1 {
      RemovedFrame(s, v, s.cur);
      RemovedActive(s, v, s.cur);
    }
  }

  lemma RemovedActive(s: St, v: int, u: int)
    requires TreeOk(s.nodes) && CountsOk(s.nodes) && v in s.nodes && u in s.nodes && u != v
    ensures u in WithoutLeaf(s, v).nodes && (WithoutLeaf(s, v).nodes[u].count < 0 <==> s.nodes[u].count < 0)
    ensures WithoutLeaf(s, v).nodes[u].patch == s.nodes[u].patch
  {
    if s.nodes[v].up != -1 {
      ParentCounts(s.nodes, v);
    }
  }
}
