/** Moves along the links, in terms of positions. */
module AvlSearch {
  import opened AvlModel
  import opened AvlRotate
  import opened AvlInsert
  import opened AvlDescent
  import opened AvlRemove

  /** How many nodes lie outside the subtree of p. */
  ghost function Climb(g: Places, ord: seq<int>, p: int): int {
    if p in g then |ord| + 1 - (g[p].hi - g[p].lo) else 0
  }

  lemma ClimbFacts(mem: Mem, root: int, g: Places, ord: seq<int>, p: int)
    requires Links(mem, root) && Placed(mem, root, g, ord) && p in mem
    ensures p in g && Climb(g, ord, p) > 0 && Climb(g, ord, mem[p].up) >= 0 && Climb(g, ord, mem[p].up) < Climb(g, ord, p)
  {
    hide Links, Placed;
    InRoot(mem, root, g, ord, p);
    LinkAt(mem, root, p);
    PosAt(mem, root, g, ord, p);
    NoPlace(mem, root, g, ord);
    if mem[p].up != NIL {
      PosAt(mem, root, g, ord, mem[p].up);
      InRoot(mem, root, g, ord, mem[p].up);
      LinkAt(mem, root, mem[p].up);
    }
  }

  lemma NoPlace(mem: Mem, root: int, g: Places, ord: seq<int>)
    requires Links(mem, root) && Placed(mem, root, g, ord)
    ensures NIL !in g && forall x :: x in mem <==> x in g
  {
  }

  function Nth(ord: seq<int>, i: int): int {
    if 0 <= i < |ord| then ord[i] else NIL
  }

  ghost function PlaceOf(mem: Mem, root: int, g: Places, ord: seq<int>, x: int): (i: int)
    requires Placed(mem, root, g, ord) && x in mem
    ensures x in g && i == g[x].at && 0 <= i < |ord| && ord[i] == x
  {
    PosAt(mem, root, g, ord, x);
    g[x].at
  }

  lemma LinksNone(mem: Mem, node: int)
    requires Links(mem, NIL)
    ensures node !in mem
  {
  }

  lemma NthNode(mem: Mem, root: int, g: Places, ord: seq<int>, i: int)
    requires Placed(mem, root, g, ord)
    ensures 0 <= i < |ord| ==> ord[i] in g && ord[i] in mem && g[ord[i]].at == i
  {
    if 0 <= i < |ord| {
      var x := ord[i];
      assert x in g && x in mem;
    }
  }

  lemma AfterNode(mem: Mem, root: int, g: Places, ord: seq<int>, node: int)
    requires Links(mem, root) && Placed(mem, root, g, ord) && (node == NIL || node in mem) && root != NIL
    ensures var q := if node == NIL then root else mem[node].right;
            && (node in mem ==> node in g)
            && (if q == NIL then node in mem && g[node].hi == g[node].at + 1
                else q in mem && q in g && g[q].lo == if node == NIL then 0 else g[node].at + 1)
  {
    hide Links, Placed;
    NoNodes(mem, root, g, ord);
    LinkAt(mem, root, root);
    if node != NIL {
      PosAt(mem, root, g, ord, node);
      LinkAt(mem, root, node);
      assert KidOk(mem, node, 1);
    }
  }

  lemma BeforeNode(mem: Mem, root: int, g: Places, ord: seq<int>, node: int)
    requires Links(mem, root) && Placed(mem, root, g, ord) && (node == NIL || node in mem) && root != NIL
    ensures var q := if node == NIL then root else mem[node].left;
            && (node in mem ==> node in g)
            && (if q == NIL then node in mem && g[node].lo == g[node].at
                else q in mem && q in g && g[q].hi == if node == NIL then |ord| else g[node].at)
  {
    hide Links, Placed;
    NoNodes(mem, root, g, ord);
    LinkAt(mem, root, root);
    if node != NIL {
      PosAt(mem, root, g, ord, node);
      LinkAt(mem, root, node);
      assert KidOk(mem, node, 0);
    }
  }

  /** From a child to its parent. */
  lemma UpNext(mem: Mem, root: int, g: Places, ord: seq<int>, p: int)
    requires Links(mem, root) && Placed(mem, root, g, ord) && p in mem && p in g
    ensures var q := mem[p].up;
            if q == NIL then g[p].lo == 0 && g[p].hi == |ord|
            else q in mem && q in g && 0 <= g[q].at < |ord| && ord[g[q].at] == q &&
                 if mem[p].flag == 0 then g[p].lo == g[q].lo && g[p].hi == g[q].at
                 else mem[p].flag == 1 && g[p].lo == g[q].at + 1 && g[p].hi == g[q].hi
  {
    hide Links, PosOk;
    LinkAt(mem, root, p);
    RootNode(mem, root, p);
    if mem[p].up != NIL {
      Spans(mem, root, g, ord, mem[p].up);
    }
  }

  lemma Spans(mem: Mem, root: int, g: Places, ord: seq<int>, x: int)
    requires Placed(mem, root, g, ord) && x in mem
    ensures x in g && g[x].lo <= g[x].at < g[x].hi && 0 <= g[x].at < |ord| && ord[g[x].at] == x
    ensures if mem[x].left == NIL then g[x].lo == g[x].at else mem[x].left in g && g[mem[x].left].lo == g[x].lo && g[mem[x].left].hi == g[x].at
    ensures if mem[x].right == NIL then g[x].hi == g[x].at + 1
            else mem[x].right in g && g[mem[x].right].lo == g[x].at + 1 && g[mem[x].right].hi == g[x].hi
  {
    assert PosOk(mem, g, x);
  }

  /** From a node to its children. */
  lemma DownNext(mem: Mem, root: int, g: Places, ord: seq<int>, x: int)
    requires Links(mem, root) && Placed(mem, root, g, ord) && x in mem
    ensures x in g && g[x].lo <= g[x].at < g[x].hi && 0 <= g[x].at < |ord| && ord[g[x].at] == x
    ensures 0 <= g[x].lo && g[x].hi <= |ord|
    ensures if mem[x].left == NIL then g[x].lo == g[x].at
            else mem[x].left in mem && mem[x].left in g && g[mem[x].left].lo == g[x].lo && g[mem[x].left].hi == g[x].at
    ensures if mem[x].right == NIL then g[x].hi == g[x].at + 1
            else mem[x].right in mem && mem[x].right in g && g[mem[x].right].lo == g[x].at + 1 && g[mem[x].right].hi == g[x].hi
  {
    hide Links, Placed;
    Spans(mem, root, g, ord, x);
    LinkAt(mem, root, x);
    InRoot(mem, root, g, ord, x);
    assert KidOk(mem, x, 0) && KidOk(mem, x, 1);
  }
}
