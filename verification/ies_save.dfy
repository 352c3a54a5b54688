/** Every step on the enumeration tree keeps its invariant. */
module IesSave {
  import opened Collections
  import opened IesModel
  import opened IesState

  function Bump(count: map<int, int>, add: set<int>, d: int): (r: map<int, int>)
    ensures r.Keys == count.Keys
  {
    map x | x in count :: if x in add then count[x] + d else count[x]
  }

  ghost predicate Leaf(nodes: Nodes, v: int) {
    v in nodes && Children(nodes, v) == {}
  }

  lemma ActiveLeaf(nodes: Nodes, v: int)
    requires CountsOk(nodes) && v in nodes && nodes[v].count <= 0
    ensures Leaf(nodes, v)
  {
    assert |Children(nodes, v)| == 0;
  }

  // ----- replacing the record of a leaf

  lemma LeafTree(nodes: Nodes, v: int, n: Node)
    requires TreeOk(nodes) && v in nodes && n.up == nodes[v].up
    ensures TreeOk(nodes[v := n])
  {
  }

  lemma LeafFrame(nodes: Nodes, v: int, n: Node, u: int)
    requires TreeOk(nodes) && TreeOk(nodes[v := n]) && Leaf(nodes, v) && n.up == nodes[v].up && u in nodes && u != v
    ensures Path(nodes[v := n], u) == Path(nodes, u) && !OnPath(nodes, v, u)
    ensures forall w :: OnPath(nodes[v := n], w, u) <==> OnPath(nodes, w, u)
  {
    if OnPath(nodes, v, u) {
      LeafOffPath(nodes, v, u);
    }
    PathFrame(nodes, nodes[v := n], u);
  }

  lemma {:induction false} LeafAbove(nodes: Nodes, v: int, n: Node)
    requires TreeOk(nodes) && TreeOk(nodes[v := n]) && Leaf(nodes, v) && n.up == nodes[v].up
    ensures Above(nodes[v := n], v) == Above(nodes, v)
    ensures Path(nodes[v := n], v) == Above(nodes, v) + [n.patch]
    ensures forall w :: w != v ==> (OnPath(nodes[v := n], w, v) <==> OnPath(nodes, w, v))
  {
    if n.up != -1 {
      LeafFrame(nodes, v, n, n.up);
    }
  }

  lemma LeafCounts(nodes: Nodes, v: int, n: Node)
    requires CountsOk(nodes) && Leaf(nodes, v) && n.up == nodes[v].up && n.count <= 0
    ensures CountsOk(nodes[v := n])
  {
    forall w | w in nodes ensures |Children(nodes[v := n], w)| == |Children(nodes, w)| {
      ChildrenSet(nodes, v, n, w);
    }
  }

  /** Names of the other nodes stay in order when a leaf changes. */
  lemma LeafNames(ms: Master, nodes: Nodes, v: int, n: Node, u: int)
    requires TreeOk(nodes) && TreeOk(nodes[v := n]) && Leaf(nodes, v) && n.up == nodes[v].up && u in nodes && u != v
    requires NamesOk(ms, nodes, u)
    ensures NamesOk(ms, nodes[v := n], u)
  {
    hide AddedOn;
    forall x | Names(nodes[u].patch, x) ensures x in ms && AddedOn(nodes[v := n], u, x) {
      LeafAdded(nodes, v, n, u, x);
    }
  }

  lemma LeafAdded(nodes: Nodes, v: int, n: Node, u: int, x: int)
    requires TreeOk(nodes) && TreeOk(nodes[v := n]) && Leaf(nodes, v) && n.up == nodes[v].up && u in nodes && u != v
    requires AddedOn(nodes, u, x)
    ensures AddedOn(nodes[v := n], u, x)
  {
    LeafFrame(nodes, v, n, u);
    var w :| w in nodes && OnPath(nodes, w, u) && x in nodes[w].patch.add;
    assert w in nodes[v := n] && OnPath(nodes[v := n], w, u) && x in nodes[v := n][w].patch.add;
  }

  lemma LeafRefs(s: St, v: int, n: Node, x: int)
    requires RefsOk(s) && v in s.nodes && x in s.master
    ensures s.count[x] - (if x in s.nodes[v].patch.add then 1 else 0) + (if x in n.patch.add then 1 else 0) ==
            |Adders(s.nodes[v := n], x)|
  {
    AddersSet(s.nodes, v, n, x);
  }

  // ----- make_patch_lists: the current active node becomes non-current

  ghost function Suspended(s: St, p: Patch): St
    requires s.cur in s.nodes
  {
    s.(nodes := s.nodes[s.cur := s.nodes[s.cur].(patch := p)], count := Bump(s.count, p.add, 1),
       saved := s.saved[s.cur := s.inst], cur := -1)
  }

  ghost predicate CanSuspend(s: St, p: Patch) {
    && Inv(s) && s.cur in s.nodes && s.nodes[s.cur].count < 0
    && Encodes(s.master, Above(s.nodes, s.cur), s.inst, p)
  }

  lemma EncodedNames(s: St, p: Patch, x: int)
    requires CanSuspend(s, p) && Names(p, x)
    ensures x in s.master && (x in p.add || x in Items(Above(s.nodes, s.cur)))
  {
    hide CountsOk, RefsOk, AllFaithful, AttrOf;
    if x in p.del && s.nodes[s.cur].up != -1 {
      ItemsLive(s, s.nodes[s.cur].up, x);
    }
  }

  lemma AddedSelf(nodes: Nodes, v: int, x: int)
    requires TreeOk(nodes) && v in nodes && x in nodes[v].patch.add
    ensures AddedOn(nodes, v, x)
  {
    assert OnPath(nodes, v, v);
  }

  lemma SuspendedAdded(s: St, p: Patch, x: int)
    requires CanSuspend(s, p) && Names(p, x) && TreeOk(Suspended(s, p).nodes)
    ensures x in s.master && AddedOn(Suspended(s, p).nodes, s.cur, x)
  {
    hide Encodes, AddedOn, RefsOk, CountsOk, CurrentOk, AllFaithful;
    var v, n := s.cur, s.nodes[s.cur].(patch := p);
    var nodes := s.nodes[v := n];
    EncodedNames(s, p, x);
    if x in p.add {
      AddedSelf(nodes, v, x);
    } else {
      var w := s.nodes[v].up;
      ItemsLive(s, w, x);
      CurrentLeaf(s);
      LeafAdded(s.nodes, v, n, w, x);
      AddedBelow(nodes, v, x);
    }
  }

  lemma CurrentLeaf(s: St)
    requires Inv(s) && s.cur in s.nodes && s.nodes[s.cur].count < 0
    ensures Leaf(s.nodes, s.cur)
  {
    hide RefsOk, AllNamesOk, CurrentOk, AllFaithful;
    ActiveLeaf(s.nodes, s.cur);
  }

  lemma SuspendedNames(s: St, p: Patch)
    requires CanSuspend(s, p)
    ensures var t := Suspended(s, p); TreeOk(t.nodes) && NamesOk(t.master, t.nodes, s.cur)
  {
    hide Encodes, AddedOn, RefsOk, CountsOk, CurrentOk, AllFaithful, AllNamesOk;
    LeafTree(s.nodes, s.cur, s.nodes[s.cur].(patch := p));
    forall x | Names(p, x) ensures x in s.master && AddedOn(Suspended(s, p).nodes, s.cur, x) {
      SuspendedAdded(s, p, x);
    }
  }

  lemma SuspendedRefs(s: St, p: Patch)
    requires CanSuspend(s, p)
    ensures RefsOk(Suspended(s, p))
  {
    hide Encodes, AllFaithful, AllNamesOk, CountsOk;
    var t := Suspended(s, p);
    forall x | x in t.master ensures t.count[x] == |Adders(t.nodes, x)| {
      LeafRefs(s, s.cur, s.nodes[s.cur].(patch := p), x);
    }
  }

  lemma SuspendedFaithful(s: St, p: Patch, u: int)
    requires CanSuspend(s, p) && u in s.nodes
    ensures var t := Suspended(s, p); TreeOk(t.nodes) && Faithful(t, u)
  {
    hide Encodes, Decode;
    var v, n, t := s.cur, s.nodes[s.cur].(patch := p), Suspended(s, p);
    LeafTree(s.nodes, v, n);
    ActiveLeaf(s.nodes, v);
    if u == v {
      LeafAbove(s.nodes, v, n);
      RoundTrip(s.master, Above(s.nodes, v), s.inst, p);
    } else {
      LeafFrame(s.nodes, v, n, u);
      assert Faithful(s, u);
    }
  }

  /** Saving the current node keeps the invariant; from now on it is decoded to what it was. */
  lemma SuspendKeeps(s: St, p: Patch)
    requires CanSuspend(s, p)
    ensures Inv(Suspended(s, p)) && Suspended(s, p).saved[s.cur] == s.inst
  {
    hide Encodes, Decode, Faithful, NamesOk, RefsOk, CountsOk;
    var v, n, t := s.cur, s.nodes[s.cur].(patch := p), Suspended(s, p);
    LeafTree(s.nodes, v, n);
    ActiveLeaf(s.nodes, v);
    LeafCounts(s.nodes, v, n);
    SuspendedRefs(s, p);
    forall u | u in t.nodes ensures NamesOk(t.master, t.nodes, u) {
      if u == v {
        SuspendedNames(s, p);
      } else {
        LeafNames(s.master, s.nodes, v, n, u);
      }
    }
    forall u | u in t.nodes ensures Faithful(t, u) {
      SuspendedFaithful(s, p, u);
    }
  }

  // ----- deactivation and reactivation

  ghost function Deactivated(s: St, v: int): St
    requires v in s.nodes
  {
    s.(nodes := s.nodes[v := s.nodes[v].(count := 0)])
  }

  lemma RecordFaithful(s: St, t: St, v: int, n: Node, u: int)
    requires TreeOk(s.nodes) && TreeOk(t.nodes) && Leaf(s.nodes, v) && n.up == s.nodes[v].up && n.patch == s.nodes[v].patch
    requires t.nodes == s.nodes[v := n] && t.master == s.master && u in s.nodes && u in s.saved && u in t.saved
    requires t.saved[u] == s.saved[u] && Faithful(s, u)
    ensures Faithful(t, u)
  {
    hide Decode;
    if u == v {
      LeafAbove(s.nodes, v, n);
      PathIs(s.nodes, v);
    } else {
      LeafFrame(s.nodes, v, n, u);
    }
  }

  lemma RecordNames(ms: Master, nodes: Nodes, v: int, n: Node, u: int)
    requires TreeOk(nodes) && TreeOk(nodes[v := n]) && Leaf(nodes, v) && n.up == nodes[v].up && n.patch == nodes[v].patch
    requires u in nodes && NamesOk(ms, nodes, u)
    ensures NamesOk(ms, nodes[v := n], u)
  {
    hide AddedOn;
    if u == v {
      forall x | Names(nodes[v].patch, x) ensures x in ms && AddedOn(nodes[v := n], v, x) {
        RecordAdded(nodes, v, n, x);
      }
    } else {
      LeafNames(ms, nodes, v, n, u);
    }
  }

  lemma RecordAdded(nodes: Nodes, v: int, n: Node, x: int)
    requires TreeOk(nodes) && TreeOk(nodes[v := n]) && Leaf(nodes, v) && n.up == nodes[v].up && n.patch == nodes[v].patch
    requires AddedOn(nodes, v, x)
    ensures AddedOn(nodes[v := n], v, x)
  {
    LeafAbove(nodes, v, n);
    var w :| w in nodes && OnPath(nodes, w, v) && x in nodes[w].patch.add;
    assert w in nodes[v := n] && OnPath(nodes[v := n], w, v) && x in nodes[v := n][w].patch.add;
  }

  /** A node that becomes a parent is no longer active. */
  lemma DeactivateKeeps(s: St, v: int)
    requires Inv(s) && v in s.nodes && s.nodes[v].count < 0 && v != s.cur
    ensures Inv(Deactivated(s, v))
  {
    hide Decode, Faithful, NamesOk, CountsOk;
    var n, t := s.nodes[v].(count := 0), Deactivated(s, v);
    LeafTree(s.nodes, v, n);
    ActiveLeaf(s.nodes, v);
    LeafCounts(s.nodes, v, n);
    forall x | x in t.master ensures t.count[x] == |Adders(t.nodes, x)| {
      LeafRefs(s, v, n, x);
    }
    forall u | u in t.nodes ensures NamesOk(t.master, t.nodes, u) {
      RecordNames(s.master, s.nodes, v, n, u);
    }
    forall u | u in t.nodes && !ActiveCurrent(t, u) ensures Faithful(t, u) {
      RecordFaithful(s, t, v, n, u);
    }
    if s.cur != -1 {
      LeafFrame(s.nodes, v, n, s.cur);
    }
  }
}
