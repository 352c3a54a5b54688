/** Reviving, creating and deleting nodes and master items keeps the invariant of the enumeration tree. */
module IesRevive {
  import opened Collections
  import opened IesModel
  import opened IesState
  import opened IesSave

  // ----- ies_revive_node, with no current node

  /** An inactive node becomes current. */
  lemma ResumeInactive(s: St, v: int, P: Prob)
    requires Inv(s) && s.cur == -1 && v in s.nodes && s.nodes[v].count >= 0 && P.at.Keys == Items(Path(s.nodes, v))
    ensures Inv(s.(cur := v, inst := P))
  {
    hide CountsOk, NamesOk, Decode;
    var t := s.(cur := v, inst := P);
    forall x | x in P.at ensures x in s.master {
      ItemsLive(s, v, x);
    }
    forall u | u in t.nodes && !ActiveCurrent(t, u) ensures Faithful(t, u) {
      assert Faithful(s, u);
    }
  }

  /** An active node becomes current: its patch lists are freed. */
  ghost function Resumed(s: St, v: int, P: Prob): St
    requires v in s.nodes
  {
    s.(nodes := s.nodes[v := s.nodes[v].(patch := NO_PATCH)], count := Bump(s.count, s.nodes[v].patch.add, -1), cur := v, inst := P)
  }

  lemma ResumeActive(s: St, v: int, P: Prob)
    requires Inv(s) && s.cur == -1 && v in s.nodes && s.nodes[v].count < 0 && P.at.Keys == Items(Path(s.nodes, v))
    ensures Inv(Resumed(s, v, P))
  {
    hide CountsOk, NamesOk, Decode, Faithful, AddedOn, RefsOk, Leaf, Path, Items;
    var n, t := s.nodes[v].(patch := NO_PATCH), Resumed(s, v, P);
    LeafTree(s.nodes, v, n);
    ActiveLeaf(s.nodes, v);
    LeafCounts(s.nodes, v, n);
    forall x | x in P.at ensures x in s.master {
      ItemsLive(s, v, x);
    }
    ResumedRefs(s, v, P);
    forall u | u in t.nodes ensures NamesOk(t.master, t.nodes, u) {
      if u == v {
        NoNames(t.master, t.nodes, v);
      } else {
        LeafNames(s.master, s.nodes, v, n, u);
      }
    }
    forall u | u in t.nodes && u != v ensures Faithful(t, u) {
      assert Faithful(s, u);
      ResumedFaithful(s, v, P, u);
    }
  }

  lemma ResumedRefs(s: St, v: int, P: Prob)
    requires RefsOk(s) && v in s.nodes
    ensures RefsOk(Resumed(s, v, P))
  {
    hide Adders;
    var n, t := s.nodes[v].(patch := NO_PATCH), Resumed(s, v, P);
    forall x | x in t.master ensures t.count[x] == |Adders(t.nodes, x)| {
      LeafRefs(s, v, n, x);
    }
  }

  lemma NoNames(ms: Master, nodes: Nodes, v: int)
    requires TreeOk(nodes) && v in nodes && nodes[v].patch == NO_PATCH
    ensures NamesOk(ms, nodes, v)
  {
  }

  lemma ResumedFaithful(s: St, v: int, P: Prob, u: int)
    requires TreeOk(s.nodes) && Leaf(s.nodes, v) && u in s.nodes && u != v && u in s.saved && Faithful(s, u)
    requires TreeOk(Resumed(s, v, P).nodes)
    ensures Faithful(Resumed(s, v, P), u)
  {
    hide Decode;
    LeafFrame(s.nodes, v, s.nodes[v].(patch := NO_PATCH), u);
  }

  // ----- ies_create_node

  ghost function WithNode(s: St, w: int, parent: int): St
    requires parent == -1 || (parent in s.nodes && parent in s.saved)
  {
    var nodes := s.nodes[w := Node(parent, -1, NO_PATCH)];
    if parent == -1 then s.(nodes := nodes, saved := s.saved[w := Prob(map[], 0.0)])
    else s.(nodes := nodes[parent := s.nodes[parent].(count := s.nodes[parent].count + 1)],
            saved := s.saved[w := s.saved[parent]])
  }

  /** Adding a leaf below a parent does not change any other path. */
  lemma NewLeafFrame(s: St, w: int, parent: int, u: int)
    requires TreeOk(s.nodes) && w !in s.nodes && w >= 0 && u in s.nodes
    requires parent == -1 || (parent in s.nodes && parent in s.saved && parent < w)
    ensures TreeOk(WithNode(s, w, parent).nodes)
    ensures Path(WithNode(s, w, parent).nodes, u) == Path(s.nodes, u)
    ensures forall y :: OnPath(WithNode(s, w, parent).nodes, y, u) <==> OnPath(s.nodes, y, u)
  {
    hide Children, Adders;
    PathFrame(s.nodes, WithNode(s, w, parent).nodes, u);
  }

  lemma NewLeafAdded(s: St, w: int, parent: int, u: int, x: int)
    requires TreeOk(s.nodes) && w !in s.nodes && w >= 0 && u in s.nodes && AddedOn(s.nodes, u, x)
    requires parent == -1 || (parent in s.nodes && parent in s.saved && parent < w)
    ensures TreeOk(WithNode(s, w, parent).nodes) && AddedOn(WithNode(s, w, parent).nodes, u, x)
  {
    hide Path;
    var t := WithNode(s, w, parent);
    NewLeafFrame(s, w, parent, u);
    var y :| y in s.nodes && OnPath(s.nodes, y, u) && x in s.nodes[y].patch.add;
    assert y in t.nodes && OnPath(t.nodes, y, u) && x in t.nodes[y].patch.add;
  }

  lemma NewChildren(s: St, w: int, parent: int, u: int)
    requires TreeOk(s.nodes) && w !in s.nodes && w >= 0 && u in s.nodes && (parent == -1 || (parent in s.nodes && parent in s.saved))
    ensures |Children(WithNode(s, w, parent).nodes, u)| == |Children(s.nodes, u)| + if u == parent then 1 else 0
  {
    var t := WithNode(s, w, parent);
    if u == parent {
      SameSet(Children(t.nodes, u), Children(s.nodes, u) + {w});
    } else {
      SameSet(Children(t.nodes, u), Children(s.nodes, u));
    }
  }

  lemma NoChildren(s: St, w: int, parent: int)
    requires TreeOk(s.nodes) && w !in s.nodes && w >= 0 && (parent == -1 || (parent in s.nodes && parent in s.saved))
    ensures Children(WithNode(s, w, parent).nodes, w) == {}
  {
    SameSet(Children(WithNode(s, w, parent).nodes, w), {});
  }

  lemma NewAdders(s: St, w: int, parent: int, x: int)
    requires w !in s.nodes && (parent == -1 || (parent in s.nodes && parent in s.saved))
    ensures Adders(WithNode(s, w, parent).nodes, x) == Adders(s.nodes, x)
  {
    SameSet(Adders(WithNode(s, w, parent).nodes, x), Adders(s.nodes, x));
  }

  lemma NewFaithful(s: St, w: int, parent: int)
    requires TreeOk(s.nodes) && w !in s.nodes && w >= 0
    requires parent == -1 || (parent in s.nodes && parent in s.saved && parent < w && Faithful(s, parent))
    ensures TreeOk(WithNode(s, w, parent).nodes) && Faithful(WithNode(s, w, parent), w)
  {
    hide Decode;
    var t := WithNode(s, w, parent);
    if parent == -1 {
      assert Path(t.nodes, w) == [NO_PATCH];
      RootDecodes(t.master);
    } else {
      NewLeafFrame(s, w, parent, parent);
      Inherits(s.master, Path(s.nodes, parent));
      assert Path(t.nodes, w) == Path(s.nodes, parent) + [NO_PATCH];
    }
  }

  lemma RootDecodes(ms: Master)
    ensures Known(ms, [NO_PATCH]) && Decode(ms, [NO_PATCH]) == Prob(map[], 0.0)
  {
    ItemsLast([], NO_PATCH);
    assert [] + [NO_PATCH] == [NO_PATCH];
    assert Items([NO_PATCH]) == {};
  }

  /** The new node inherits the problem of its parent; the root node starts empty. */
  lemma CreateKeeps(s: St, w: int, parent: int)
    requires Inv(s) && w !in s.nodes && w >= 0
    requires parent == -1 || (parent in s.nodes && parent < w && s.nodes[parent].count >= 0)
    ensures Inv(WithNode(s, w, parent))
    ensures WithNode(s, w, parent).saved[w] == if parent == -1 then Prob(map[], 0.0) else s.saved[parent]
  {
    hide NamesOk, Decode, Faithful, AddedOn, Children, Adders;
    var t := WithNode(s, w, parent);
    if parent != -1 {
      assert Faithful(s, parent);
    }
    NewFaithful(s, w, parent);
    forall u | u in t.nodes ensures |Children(t.nodes, u)| == if t.nodes[u].count < 0 then 0 else t.nodes[u].count {
      if u == w {
        NoChildren(s, w, parent);
      } else {
        NewChildren(s, w, parent, u);
      }
    }
    forall x | x in t.master ensures t.count[x] == |Adders(t.nodes, x)| {
      NewAdders(s, w, parent, x);
    }
    forall u | u in t.nodes ensures NamesOk(t.master, t.nodes, u) {
      if u == w {
        NoNames(t.master, t.nodes, w);
      } else {
        NewNames(s, w, parent, u);
      }
    }
    forall u | u in t.nodes && !ActiveCurrent(t, u) ensures Faithful(t, u) {
      if u != w {
        assert Faithful(s, u);
        NewOthers(s, w, parent, u);
      }
    }
    if s.cur != -1 {
      NewLeafFrame(s, w, parent, s.cur);
    }
  }

  lemma NewNames(s: St, w: int, parent: int, u: int)
    requires TreeOk(s.nodes) && w !in s.nodes && w >= 0 && u in s.nodes && NamesOk(s.master, s.nodes, u)
    requires parent == -1 || (parent in s.nodes && parent in s.saved && parent < w)
    ensures TreeOk(WithNode(s, w, parent).nodes) && NamesOk(s.master, WithNode(s, w, parent).nodes, u)
  {
    hide AddedOn;
    NewLeafFrame(s, w, parent, u);
    forall x | Names(s.nodes[u].patch, x) ensures AddedOn(WithNode(s, w, parent).nodes, u, x) {
      NewLeafAdded(s, w, parent, u, x);
    }
  }

  lemma NewOthers(s: St, w: int, parent: int, u: int)
    requires TreeOk(s.nodes) && w !in s.nodes && w >= 0 && u in s.nodes && u in s.saved && Faithful(s, u)
    requires parent == -1 || (parent in s.nodes && parent in s.saved && parent < w)
    ensures TreeOk(WithNode(s, w, parent).nodes) && Faithful(WithNode(s, w, parent), u)
  {
    hide Decode;
    NewLeafFrame(s, w, parent, u);
  }
}
