/** avl_delete_node, second part: ranks are lowered on the way up, and a node with at most one child is unlinked. */
module AvlRemove {
  import opened AvlModel
  import opened AvlRotate
  import opened AvlInsert
  import opened AvlClimb

  /** 1 if x lies below or at q and holds position a in its left subtree. */
  function Low(g: Places, x: int, q: int, a: int): int
    requires x in g && q in g
  {
    if g[x].lo <= a < g[x].at && g[q].lo <= g[x].at < g[q].hi then 1 else 0
  }

  ghost predicate LoweredAt(mem: Mem, g: Places, q: int, a: int, x: int)
    requires x in mem && x in g && q in g
  {
    mem[x].rank == g[x].at - g[x].lo + 1 - Low(g, x, q, a)
  }

  ghost predicate Lowered(mem: Mem, g: Places, q: int, a: int)
    requires q in g
  {
    forall x {:trigger LoweredAt(mem, g, q, a, x)} :: x in mem && x in g ==> LoweredAt(mem, g, q, a, x)
  }

  lemma LowStart(mem: Mem, root: int, g: Places, ord: seq<int>, p: int, x: int)
    requires Links(mem, root) && Placed(mem, root, g, ord) && p in mem && x in mem
    ensures p in g && x in g && Low(g, x, p, g[p].at) == 0
  {
    hide Links, Placed;
    PosAt(mem, root, g, ord, p);
    PosAt(mem, root, g, ord, x);
    if g[x].lo <= g[p].at < g[x].at && g[p].lo <= g[x].at < g[p].hi {
      Below(mem, root, g, ord, x, p);
      Below(mem, root, g, ord, p, x);
    }
  }

  lemma LowStep(mem: Mem, root: int, g: Places, ord: seq<int>, q: int, a: int, x: int)
    requires Links(mem, root) && Placed(mem, root, g, ord) && q in mem && x in mem && mem[q].up in mem
    requires q in g && g[q].lo <= a < g[q].hi
    ensures x in g && mem[q].up in g
    ensures Low(g, x, mem[q].up, a) == Low(g, x, q, a) + if x == mem[q].up && mem[q].flag == 0 then 1 else 0
  {
    hide Links, Placed;
    var f := mem[q].up;
    PosAt(mem, root, g, ord, q);
    PosAt(mem, root, g, ord, x);
    PosAt(mem, root, g, ord, f);
    LinkAt(mem, root, q);
    LinkAt(mem, root, f);
    if x != f && g[f].lo <= g[x].at < g[f].hi {
      Below(mem, root, g, ord, f, x);
      if g[x].lo <= g[f].at < g[x].hi {
        Below(mem, root, g, ord, x, f);
      }
      if g[x].at == g[f].at {
        SameNode(mem, root, g, ord, x, f);
      }
    }
  }

  lemma LoweredStart(mem: Mem, root: int, g: Places, ord: seq<int>, p: int)
    requires Links(mem, root) && Placed(mem, root, g, ord) && Ranked(mem, g) && p in mem
    ensures p in g && Lowered(mem, g, p, g[p].at)
  {
    hide Links, Placed, Low;
    PosAt(mem, root, g, ord, p);
    forall x | x in mem && x in g ensures LoweredAt(mem, g, p, g[p].at, x) {
      LowStart(mem, root, g, ord, p, x);
      assert RankOk(mem, g, x);
    }
  }

  function Dropped(mem: Mem, f: int, flag: int): Mem
    requires f in mem
  {
    if flag == 0 then mem[f := mem[f].(rank := mem[f].rank - 1)] else mem
  }

  lemma LoweredStep(mem: Mem, root: int, g: Places, ord: seq<int>, q: int, a: int)
    requires Links(mem, root) && Placed(mem, root, g, ord) && q in mem && mem[q].up in mem
    requires q in g && g[q].lo <= a < g[q].hi && Lowered(mem, g, q, a)
    ensures var f := mem[q].up; f in g && g[f].lo <= a < g[f].hi && Lowered(Dropped(mem, f, mem[q].flag), g, f, a)
  {
    hide Links, Placed, Low;
    var f := mem[q].up;
    LinkAt(mem, root, q);
    PosAt(mem, root, g, ord, f);
    PosAt(mem, root, g, ord, q);
    var t := Dropped(mem, f, mem[q].flag);
    forall x | x in t && x in g ensures LoweredAt(t, g, f, a, x) {
      LowStep(mem, root, g, ord, q, a, x);
      assert LoweredAt(mem, g, q, a, x);
    }
  }

  // ----- unlinking

  ghost predicate OneKid(mem: Mem, p: int, c: int) {
    p in mem && (mem[p].left == NIL || mem[p].right == NIL) && c == if mem[p].left != NIL then mem[p].left else mem[p].right
  }

  function Unlinked(mem: Mem, p: int, c: int): Mem
    requires p in mem
  {
    SetUp(SetKid(mem, mem[p].up, mem[p].flag, c), c, mem[p].up, mem[p].flag) - {p}
  }

  function Earlier(i: int, after: bool): int {
    if after then i - 1 else i
  }

  function Closed(g: Places, p: int): Places
    requires p in g
  {
    var a := g[p].at;
    map x | x in g && x != p :: Pos(Earlier(g[x].lo, g[x].lo > a), Earlier(g[x].at, g[x].at > a), Earlier(g[x].hi, g[x].hi > a))
  }

  function Removed(ord: seq<int>, a: int): seq<int>
    requires 0 <= a < |ord|
  {
    ord[..a] + ord[a + 1..]
  }

  function RootWithout(mem: Mem, root: int, p: int, c: int): int
    requires p in mem
  {
    if mem[p].up == NIL then c else root
  }

  lemma UnlinkedAt(mem: Mem, root: int, g: Places, ord: seq<int>, p: int, c: int, x: int)
    requires Links(mem, root) && Placed(mem, root, g, ord) && OneKid(mem, p, c) && x in mem && x != p
    ensures x in Unlinked(mem, p, c) && Unlinked(mem, p, c)[x] ==
            if x == c then Hang(mem[x], mem[p].up, mem[p].flag)
            else if x == mem[p].up then WithKid(mem[x], mem[p].flag, c)
            else mem[x]
    ensures c != p && mem[p].up != p && (c != NIL ==> c in mem && c != mem[p].up && mem[c].up == p)
  {
    hide Links, Placed;
    LinkAt(mem, root, p);
    PosAt(mem, root, g, ord, p);
    assert KidOk(mem, p, 0) && KidOk(mem, p, 1);
    if c != NIL {
      PosAt(mem, root, g, ord, c);
    }
    if mem[p].up != NIL {
      PosAt(mem, root, g, ord, mem[p].up);
    }
  }

  lemma UnlinkedLink(mem: Mem, root: int, g: Places, ord: seq<int>, p: int, c: int, x: int)
    requires Links(mem, root) && Placed(mem, root, g, ord) && OneKid(mem, p, c) && x in mem && x != p
    ensures x in Unlinked(mem, p, c) && LinkOk(Unlinked(mem, p, c), RootWithout(mem, root, p, c), x)
  {
    hide Links, Placed, Unlinked;
    UnlinkedAt(mem, root, g, ord, p, c, x);
    LinkAt(mem, root, x);
    LinkAt(mem, root, p);
    assert KidOk(mem, x, 0) && KidOk(mem, x, 1) && KidOk(mem, p, 0) && KidOk(mem, p, 1);
    var l, r, u := mem[x].left, mem[x].right, mem[x].up;
    if l != NIL && l != p {
      UnlinkedAt(mem, root, g, ord, p, c, l);
    }
    if r != NIL && r != p {
      UnlinkedAt(mem, root, g, ord, p, c, r);
    }
    if u != NIL && u != p {
      UnlinkedAt(mem, root, g, ord, p, c, u);
    }
    if c != NIL {
      UnlinkedAt(mem, root, g, ord, p, c, c);
    }
    if mem[p].up != NIL {
      UnlinkedAt(mem, root, g, ord, p, c, mem[p].up);
    }
  }

  lemma UnlinkedKeys(mem: Mem, p: int, c: int, x: int)
    requires p in mem
    ensures x in Unlinked(mem, p, c) <==> x in mem && x != p
  {
  }

  lemma UnlinkedLinks(mem: Mem, root: int, g: Places, ord: seq<int>, p: int, c: int)
    requires Links(mem, root) && Placed(mem, root, g, ord) && OneKid(mem, p, c)
    ensures Links(Unlinked(mem, p, c), RootWithout(mem, root, p, c))
  {
    hide Placed, Unlinked, LinkOk;
    var t, top := Unlinked(mem, p, c), RootWithout(mem, root, p, c);
    forall x ensures x in t <==> x in mem && x != p {
      UnlinkedKeys(mem, p, c, x);
    }
    forall x | x in t ensures LinkOk(t, top, x) {
      UnlinkedLink(mem, root, g, ord, p, c, x);
    }
    forall x | x in mem && x != p ensures top in t {
      TopStays(mem, root, g, ord, p, c, x);
    }
    TopIs(mem, root, g, ord, p, c);
  }

  lemma TopIs(mem: Mem, root: int, g: Places, ord: seq<int>, p: int, c: int)
    requires Links(mem, root) && Placed(mem, root, g, ord) && OneKid(mem, p, c)
    ensures var top := RootWithout(mem, root, p, c); top == NIL || (top in mem && top != p)
  {
    hide Links, Placed;
    LinkAt(mem, root, p);
    RootNode(mem, root, p);
    assert KidOk(mem, p, 0) && KidOk(mem, p, 1);
    KidNotSelf(mem, root, g, ord, p);
  }

  lemma RootNode(mem: Mem, root: int, p: int)
    requires Links(mem, root) && p in mem
    ensures root in mem && root != NIL && (mem[p].up == NIL ==> p == root) && (mem[p].up != NIL ==> p != root)
  {
    assert LinkOk(mem, root, p);
  }

  lemma TopStays(mem: Mem, root: int, g: Places, ord: seq<int>, p: int, c: int, x: int)
    requires Links(mem, root) && Placed(mem, root, g, ord) && OneKid(mem, p, c) && x in mem && x != p
    ensures RootWithout(mem, root, p, c) in mem && RootWithout(mem, root, p, c) != p
  {
    hide Links, Placed;
    RootNode(mem, root, p);
    LinkAt(mem, root, p);
    assert KidOk(mem, p, 0) && KidOk(mem, p, 1);
    KidNotSelf(mem, root, g, ord, p);
    if mem[p].up == NIL {
      InRoot(mem, root, g, ord, x);
      RootWhole(mem, root, g, ord);
      PosAt(mem, root, g, ord, p);
      PosAt(mem, root, g, ord, x);
      Below(mem, root, g, ord, p, x);
      if g[x].at == g[p].at {
        SameNode(mem, root, g, ord, x, p);
      }
    }
  }

  lemma UnlinkedPos(mem: Mem, root: int, g: Places, ord: seq<int>, p: int, c: int, x: int)
    requires Links(mem, root) && Placed(mem, root, g, ord) && OneKid(mem, p, c) && x in mem && x != p && p in g
    ensures x in Unlinked(mem, p, c) && PosOk(Unlinked(mem, p, c), Closed(g, p), x)
  {
    hide Links, Placed, Unlinked;
    UnlinkedAt(mem, root, g, ord, p, c, x);
    LinkAt(mem, root, p);
    LinkAt(mem, root, x);
    assert KidOk(mem, x, 0) && KidOk(mem, x, 1);
    PosAt(mem, root, g, ord, x);
    PosAt(mem, root, g, ord, p);
    if g[x].at == g[p].at {
      SameNode(mem, root, g, ord, x, p);
    }
  }

  lemma UnlinkedOrder(mem: Mem, root: int, g: Places, ord: seq<int>, p: int, c: int)
    requires Placed(mem, root, g, ord) && p in mem && p in g
    ensures 0 <= g[p].at < |ord| && Order(Unlinked(mem, p, c), Closed(g, p), Removed(ord, g[p].at))
  {
    hide PosOk, Unlinked;
    var a := g[p].at;
    var t, n, o := Unlinked(mem, p, c), Closed(g, p), Removed(ord, a);
    forall x ensures x in t <==> x in mem && x != p {
      UnlinkedKeys(mem, p, c, x);
    }
    forall x | x in n ensures 0 <= n[x].at < |o| && o[n[x].at] == x {
      assert ord[g[x].at] == x && ord[a] == p;
    }
    forall i | 0 <= i < |o| ensures o[i] in n && n[o[i]].at == i {
      var j := if i < a then i else i + 1;
      assert o[i] == ord[j] && g[ord[j]].at == j;
    }
  }

  lemma UnlinkedPlaced(mem: Mem, root: int, g: Places, ord: seq<int>, p: int, c: int)
    requires Links(mem, root) && Placed(mem, root, g, ord) && OneKid(mem, p, c) && p in g
    ensures 0 <= g[p].at < |ord|
    ensures Placed(Unlinked(mem, p, c), RootWithout(mem, root, p, c), Closed(g, p), Removed(ord, g[p].at))
  {
    hide PosOk, Links, Unlinked, Order;
    UnlinkedOrder(mem, root, g, ord, p, c);
    var t, n := Unlinked(mem, p, c), Closed(g, p);
    forall x | x in t ensures PosOk(t, n, x) {
      UnlinkedKeys(mem, p, c, x);
      UnlinkedPos(mem, root, g, ord, p, c, x);
    }
    UnlinkedRoot(mem, root, g, ord, p, c);
  }

  lemma UnlinkedRoot(mem: Mem, root: int, g: Places, ord: seq<int>, p: int, c: int)
    requires Links(mem, root) && Placed(mem, root, g, ord) && OneKid(mem, p, c) && p in g
    ensures var top, n := RootWithout(mem, root, p, c), Closed(g, p); top in n ==> n[top].lo == 0 && n[top].hi == |ord| - 1
  {
    hide Links, PosOk;
    RootNode(mem, root, p);
    LinkAt(mem, root, p);
    InRoot(mem, root, g, ord, p);
    PosAt(mem, root, g, ord, p);
    RootSpan(mem, g, p, c);
  }

  lemma RootSpan(mem: Mem, g: Places, p: int, c: int)
    requires OneKid(mem, p, c) && p in g && PosOk(mem, g, p)
    ensures c != NIL ==> c in g && (if mem[p].left != NIL then g[c].lo == g[p].lo && g[c].hi == g[p].at && g[p].hi == g[p].at + 1
                                    else g[c].lo == g[p].at + 1 && g[c].hi == g[p].hi && g[p].lo == g[p].at)
    ensures g[p].lo <= g[p].at < g[p].hi
  {
  }

  lemma UnlinkedRanked(mem: Mem, root: int, g: Places, ord: seq<int>, p: int, c: int)
    requires Links(mem, root) && Placed(mem, root, g, ord) && OneKid(mem, p, c) && p in g && root in g && Lowered(mem, g, root, g[p].at)
    ensures Ranked(Unlinked(mem, p, c), Closed(g, p))
  {
    hide Links, Placed, Unlinked;
    var t, n := Unlinked(mem, p, c), Closed(g, p);
    forall x | x in t && x in n ensures RankOk(t, n, x) {
      UnlinkedKeys(mem, p, c, x);
      UnlinkedAt(mem, root, g, ord, p, c, x);
      InRoot(mem, root, g, ord, x);
      PosAt(mem, root, g, ord, x);
      assert LoweredAt(mem, g, root, g[p].at, x);
      RootWhole(mem, root, g, ord);
      if g[x].at == g[p].at {
        SameNode(mem, root, g, ord, x, p);
      }
    }
  }

  lemma RootWhole(mem: Mem, root: int, g: Places, ord: seq<int>)
    requires Placed(mem, root, g, ord) && root in g
    ensures g[root].lo == 0 && g[root].hi == |ord|
  {
  }

  lemma UnlinkedBalanced(mem: Mem, root: int, g: Places, ord: seq<int>, h: Heights, p: int, c: int)
    requires Links(mem, root) && Placed(mem, root, g, ord) && OneKid(mem, p, c) && Balanced(mem, h, NIL, 0, 0)
    ensures Balanced(Unlinked(mem, p, c), h - {p}, mem[p].up, mem[p].flag, 1)
  {
    hide Links, Placed, Unlinked, Balanced;
    var t, n := Unlinked(mem, p, c), h - {p};
    HeightKeys(mem, h, NIL, 0, 0);
    forall x ensures x in t <==> x in mem && x != p {
      UnlinkedKeys(mem, p, c, x);
    }
    forall x | x in t && x in n ensures n[x] >= 1 && BalOk(t, n, x, mem[p].up, mem[p].flag, 1) {
      BalAt(mem, h, NIL, 0, 0, x);
      UnlinkedSees(mem, root, g, ord, h, p, c, x, 0);
      UnlinkedSees(mem, root, g, ord, h, p, c, x, 1);
    }
    BalancedIntro(t, n, mem[p].up, mem[p].flag, 1);
  }

  lemma UnlinkedSees(mem: Mem, root: int, g: Places, ord: seq<int>, h: Heights, p: int, c: int, x: int, e: int)
    requires Links(mem, root) && Placed(mem, root, g, ord) && OneKid(mem, p, c) && Balanced(mem, h, NIL, 0, 0) && x in mem && x != p
    requires e == 0 || e == 1
    ensures x in Unlinked(mem, p, c) && Unlinked(mem, p, c)[x].bal == mem[x].bal
    ensures Assumed(Unlinked(mem, p, c), h - {p}, x, e, mem[p].up, mem[p].flag, 1) == Assumed(mem, h, x, e, NIL, 0, 0)
  {
    hide Links, Placed, Unlinked, Balanced;
    UnlinkedAt(mem, root, g, ord, p, c, x);
    LinkAt(mem, root, p);
    LinkAt(mem, root, x);
    assert KidOk(mem, x, e);
    BalAt(mem, h, NIL, 0, 0, p);
    HeightKeys(mem, h, NIL, 0, 0);
    NoHeight(mem, h, NIL, 0, 0, c);
  }
}
