/** States of the enumeration tree, and what every operation on it keeps. */
module IesState {
  import opened Collections
  import opened IesModel

  /** `count` is negative for an active node, otherwise the number of its children. */
  datatype Node = Node(up: int, count: int, patch: Patch)

  type Nodes = map<int, Node>

  /** `cur` is the current node or -1, `inst` the problem instance; `saved` is, for each node, the problem it had when its
      patch lists were made last. */
  datatype St = St(master: Master, count: map<int, int>, nodes: Nodes, cur: int, inst: Prob, saved: map<int, Prob>)

  ghost predicate TreeOk(nodes: Nodes) {
    forall v :: v in nodes ==> v >= 0 && (nodes[v].up == -1 || (nodes[v].up in nodes && nodes[v].up < v))
  }

  /** Patches from the root node down to node v. */
  ghost function Path(nodes: Nodes, v: int): (p: seq<Patch>)
    requires TreeOk(nodes) && v in nodes
    ensures p != [] && p[|p| - 1] == nodes[v].patch
    decreases v
  {
    if nodes[v].up == -1 then [nodes[v].patch] else Path(nodes, nodes[v].up) + [nodes[v].patch]
  }

  ghost function Above(nodes: Nodes, v: int): seq<Patch>
    requires TreeOk(nodes) && v in nodes
  {
    if nodes[v].up == -1 then [] else Path(nodes, nodes[v].up)
  }

  ghost predicate OnPath(nodes: Nodes, u: int, v: int)
    requires TreeOk(nodes) && v in nodes
    decreases v
  {
    u == v || (nodes[v].up != -1 && OnPath(nodes, u, nodes[v].up))
  }

  ghost function Adders(nodes: Nodes, x: int): set<int> {
    set v | v in nodes && x in nodes[v].patch.add
  }

  ghost function Children(nodes: Nodes, v: int): set<int> {
    set w | w in nodes && nodes[w].up == v
  }

  // ----- the invariant

  /** Parents know how many children they have; active nodes have none. */
  ghost predicate CountsOk(nodes: Nodes) {
    forall v :: v in nodes ==> |Children(nodes, v)| == if nodes[v].count < 0 then 0 else nodes[v].count
  }

  /** A live master item counts the add_them entries that name it. */
  ghost predicate RefsOk(s: St) {
    && s.count.Keys == s.master.Keys
    && forall x :: x in s.master ==> s.count[x] == |Adders(s.nodes, x)|
  }

  /** Patch lists of node v name only live items, each added by v itself or above it. */
  ghost predicate NamesOk(ms: Master, nodes: Nodes, v: int)
    requires TreeOk(nodes) && v in nodes
  {
    forall x :: Names(nodes[v].patch, x) ==> x in ms && AddedOn(nodes, v, x)
  }

  /** Item x is named in the add_them list of v or of a node above it. */
  ghost predicate AddedOn(nodes: Nodes, v: int, x: int)
    requires TreeOk(nodes) && v in nodes
  {
    exists u :: u in nodes && OnPath(nodes, u, v) && x in nodes[u].patch.add
  }

  ghost predicate CurrentOk(s: St)
    requires TreeOk(s.nodes)
  {
    s.cur == -1 ||
    (&& s.cur in s.nodes && s.inst.at.Keys <= s.master.Keys
     && if s.nodes[s.cur].count < 0 then s.nodes[s.cur].patch == NO_PATCH else s.inst.at.Keys == Items(Path(s.nodes, s.cur)))
  }

  /** Node v is decoded to the problem that was saved for it. */
  ghost predicate Faithful(s: St, v: int)
    requires TreeOk(s.nodes) && v in s.nodes && v in s.saved
  {
    Known(s.master, Path(s.nodes, v)) && Decode(s.master, Path(s.nodes, v)) == s.saved[v]
  }

  ghost predicate ActiveCurrent(s: St, v: int) {
    v == s.cur && v in s.nodes && s.nodes[v].count < 0
  }

  ghost predicate AllFaithful(s: St)
    requires TreeOk(s.nodes)
  {
    s.saved.Keys == s.nodes.Keys && forall v :: v in s.nodes && !ActiveCurrent(s, v) ==> Faithful(s, v)
  }

  ghost predicate AllNamesOk(s: St)
    requires TreeOk(s.nodes)
  {
    forall v :: v in s.nodes ==> NamesOk(s.master, s.nodes, v)
  }

  ghost predicate Inv(s: St) {
    TreeOk(s.nodes) && CountsOk(s.nodes) && RefsOk(s) && AllNamesOk(s) && CurrentOk(s) && AllFaithful(s)
  }

  // ----- paths

  lemma PathIs(nodes: Nodes, v: int)
    requires TreeOk(nodes) && v in nodes
    ensures Path(nodes, v) == Above(nodes, v) + [nodes[v].patch]
  {
  }

  /** A node with children is the only thing that lies on other paths. */
  lemma {:induction false} LeafOffPath(nodes: Nodes, u: int, v: int)
    requires TreeOk(nodes) && v in nodes && u in nodes && u != v && OnPath(nodes, u, v)
    ensures Children(nodes, u) != {}
    decreases v
  {
    if nodes[v].up == u {
      assert v in Children(nodes, u);
    } else {
      LeafOffPath(nodes, u, nodes[v].up);
    }
  }

  /** Changing a node that is not on the path of v, or only its count, leaves the path alone. */
  lemma {:induction false} PathFrame(nodes: Nodes, nodes': Nodes, v: int)
    requires TreeOk(nodes) && TreeOk(nodes') && v in nodes
    requires forall u :: u in nodes && OnPath(nodes, u, v) ==>
               u in nodes' && nodes'[u].up == nodes[u].up && nodes'[u].patch == nodes[u].patch
    ensures v in nodes' && Path(nodes', v) == Path(nodes, v)
    ensures forall u :: OnPath(nodes', u, v) <==> OnPath(nodes, u, v)
    decreases v
  {
    assert OnPath(nodes, v, v);
    if nodes[v].up != -1 {
      forall u | u in nodes && OnPath(nodes, u, nodes[v].up)
        ensures u in nodes' && nodes'[u].up == nodes[u].up && nodes'[u].patch == nodes[u].patch
      {
        assert OnPath(nodes, u, v);
      }
      PathFrame(nodes, nodes', nodes[v].up);
    }
  }

  /** The items of a node problem are live and added on its path. */
  lemma {:induction false} ItemsLive(s: St, v: int, x: int)
    requires TreeOk(s.nodes) && AllNamesOk(s) && v in s.nodes && x in Items(Path(s.nodes, v))
    ensures x in s.master && AddedOn(s.nodes, v, x)
    decreases v
  {
    var p := s.nodes[v].patch;
    PathIs(s.nodes, v);
    ItemsLast(Above(s.nodes, v), p);
    if x in p.add {
      assert Names(p, x) && NamesOk(s.master, s.nodes, v);
    } else if s.nodes[v].up != -1 {
      var w := s.nodes[v].up;
      ItemsLive(s, w, x);
      AddedBelow(s.nodes, v, x);
    }
  }

  lemma AddedBelow(nodes: Nodes, v: int, x: int)
    requires TreeOk(nodes) && v in nodes && nodes[v].up != -1 && AddedOn(nodes, nodes[v].up, x)
    ensures AddedOn(nodes, v, x)
  {
    var u :| u in nodes && OnPath(nodes, u, nodes[v].up) && x in nodes[u].patch.add;
    assert OnPath(nodes, u, v);
  }

  // ----- counting

  lemma AddersSet(nodes: Nodes, v: int, n: Node, x: int)
    requires v in nodes
    ensures |Adders(nodes[v := n], x)| ==
            |Adders(nodes, x)| - (if x in nodes[v].patch.add then 1 else 0) + (if x in n.patch.add then 1 else 0)
  {
    var A, B := Adders(nodes, x), Adders(nodes[v := n], x);
    SameSet(A - {v}, B - {v});
    SizeWithout(A, v);
    SizeWithout(B, v);
  }

  lemma SizeWithout(A: set<int>, v: int)
    ensures |A - {v}| == |A| - if v in A then 1 else 0
  {
    if v !in A {
      assert A - {v} == A;
    }
  }

  lemma ChildrenSet(nodes: Nodes, v: int, n: Node, w: int)
    requires v in nodes && n.up == nodes[v].up
    ensures Children(nodes[v := n], w) == Children(nodes, w)
  {
    SameSet(Children(nodes[v := n], w), Children(nodes, w));
  }
}
