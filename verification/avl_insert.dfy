/** Insertion: the ranks raised on the way down, and the tree with one more leaf. */
module AvlInsert {
  import opened AvlModel
  import opened AvlRotate

  /** 1 if the way down to side `flag` of node p goes left at node x. */
  function Bump(g: Places, x: int, p: int, flag: int): int
    requires x in g && p in g
  {
    if g[x].lo <= g[p].at < g[x].hi && (g[x].at > g[p].at || (x == p && flag == 0)) then 1 else 0
  }

  ghost predicate RaisedAt(mem: Mem, g: Places, p: int, flag: int, x: int)
    requires x in mem && x in g && p in g
  {
    mem[x].rank == g[x].at - g[x].lo + 1 + Bump(g, x, p, flag)
  }

  ghost predicate Raised(mem: Mem, g: Places, p: int, flag: int)
    requires p in g
  {
    forall x {:trigger RaisedAt(mem, g, p, flag, x)} :: x in mem && x in g ==> RaisedAt(mem, g, p, flag, x)
  }

  lemma BumpStep(mem: Mem, root: int, g: Places, ord: seq<int>, p: int, flag: int, q: int, e: int, x: int)
    requires Links(mem, root) && Placed(mem, root, g, ord) && p in mem && x in mem && (flag == 0 || flag == 1)
    requires q == Kid(mem[p], flag) && q in mem
    ensures x in g && p in g && q in g && Bump(g, x, q, e) == Bump(g, x, p, flag) + if x == q && e == 0 then 1 else 0
  {
    hide Links, Placed;
    PosAt(mem, root, g, ord, x);
    PosAt(mem, root, g, ord, p);
    PosAt(mem, root, g, ord, q);
    LinkAt(mem, root, p);
    assert KidOk(mem, p, flag);
    if g[x].lo <= g[q].at < g[x].hi {
      Below(mem, root, g, ord, x, q);
    }
    if g[x].lo <= g[p].at < g[x].hi {
      Below(mem, root, g, ord, x, p);
    }
    if g[p].lo <= g[x].at < g[p].hi {
      Below(mem, root, g, ord, p, x);
    }
  }

  lemma BumpRoot(mem: Mem, root: int, g: Places, ord: seq<int>, e: int, x: int)
    requires Links(mem, root) && Placed(mem, root, g, ord) && x in mem
    ensures root in g && x in g && Bump(g, x, root, e) == if x == root && e == 0 then 1 else 0
  {
    InRoot(mem, root, g, ord, x);
    if x != root && g[x].lo <= g[root].at < g[x].hi {
      Below(mem, root, g, ord, x, root);
    }
  }

  /** One step down to q. */
  function Visit(mem: Mem, q: int, e: int): Mem
    requires q in mem
  {
    if e == 0 then mem[q := mem[q].(rank := mem[q].rank + 1)] else mem
  }

  lemma VisitFirst(mem: Mem, root: int, g: Places, ord: seq<int>, e: int)
    requires Links(mem, root) && Placed(mem, root, g, ord) && Ranked(mem, g) && root in mem
    ensures root in g && Raised(Visit(mem, root, e), g, root, e)
  {
    hide Links, Placed;
    PosAt(mem, root, g, ord, root);
    var t := Visit(mem, root, e);
    forall x | x in t && x in g ensures RaisedAt(t, g, root, e, x) {
      BumpRoot(mem, root, g, ord, e, x);
      assert RankOk(mem, g, x);
    }
  }

  lemma VisitNext(mem: Mem, root: int, g: Places, ord: seq<int>, p: int, flag: int, q: int, e: int)
    requires Links(mem, root) && Placed(mem, root, g, ord) && p in mem && p in g && (flag == 0 || flag == 1)
    requires q == Kid(mem[p], flag) && q in mem && Raised(mem, g, p, flag)
    ensures q in g && Raised(Visit(mem, q, e), g, q, e)
  {
    hide Links, Placed, Bump;
    PosAt(mem, root, g, ord, q);
    var t := Visit(mem, q, e);
    forall x | x in t && x in g ensures RaisedAt(t, g, q, e, x) {
      BumpStep(mem, root, g, ord, p, flag, q, e, x);
      assert RaisedAt(mem, g, p, flag, x);
    }
  }

  /** Memories that differ in ranks only. */
  ghost predicate SameButRanks(mem: Mem, t: Mem) {
    (forall x :: x in mem <==> x in t) && forall x :: x in mem && x in t ==> t[x] == mem[x].(rank := t[x].rank)
  }

  lemma RanksFrame(mem: Mem, t: Mem, root: int, g: Places, ord: seq<int>, h: Heights, f: int, flag: int, d: int)
    requires SameButRanks(mem, t) && Links(mem, root) && Placed(mem, root, g, ord) && Balanced(mem, h, f, flag, d)
    ensures Links(t, root) && Placed(t, root, g, ord) && Balanced(t, h, f, flag, d)
  {
    forall x | x in t ensures LinkOk(t, root, x) && PosOk(t, g, x) && x in h && BalOk(t, h, x, f, flag, d) {
      assert LinkOk(mem, root, x) && KidOk(mem, x, 0) && KidOk(mem, x, 1) && PosOk(mem, g, x) && BalOk(mem, h, x, f, flag, d);
    }
  }

  // ----- the new leaf

  function PlaceFor(g: Places, p: int, flag: int): int
    requires p in g
  {
    if flag == 0 then g[p].at else g[p].at + 1
  }

  function Attached(mem: Mem, p: int, flag: int, r: int, key: int): Mem
    requires p in mem
  {
    mem[p := WithKid(mem[p], flag, r)][r := Rec(key, 1, p, flag, 0, NIL, NIL)]
  }

  function Later(i: int, after: bool): int {
    if after then i + 1 else i
  }

  function Shifted(g: Places, a: int, k: int): Places {
    map x | x in g :: Pos(Later(g[x].lo, g[x].lo > a), Later(g[x].at, g[x].at >= k), Later(g[x].hi, g[x].hi > a))
  }

  function AttachedPlaces(g: Places, p: int, flag: int, r: int): Places
    requires p in g
  {
    var k := PlaceFor(g, p, flag);
    Shifted(g, g[p].at, k)[r := Pos(k, k, k + 1)]
  }

  function Inserted(ord: seq<int>, k: int, r: int): seq<int>
    requires 0 <= k <= |ord|
  {
    ord[..k] + [r] + ord[k..]
  }

  ghost predicate Free(mem: Mem, p: int, flag: int, r: int) {
    p in mem && (flag == 0 || flag == 1) && Kid(mem[p], flag) == NIL && r !in mem && r != NIL
  }

  lemma AttachedLinks(mem: Mem, root: int, p: int, flag: int, r: int, key: int)
    requires Links(mem, root) && Free(mem, p, flag, r)
    ensures Links(Attached(mem, p, flag, r, key), root)
  {
    var t := Attached(mem, p, flag, r, key);
    assert LinkOk(mem, root, p);
    forall x | x in t ensures LinkOk(t, root, x) {
      if x != r {
        assert LinkOk(mem, root, x) && KidOk(mem, x, 0) && KidOk(mem, x, 1);
      }
    }
  }

  lemma AttachedPos(mem: Mem, root: int, g: Places, ord: seq<int>, p: int, flag: int, r: int, key: int, x: int)
    requires Links(mem, root) && Placed(mem, root, g, ord) && Free(mem, p, flag, r) && p in g && x in mem && x in g
    ensures PosOk(Attached(mem, p, flag, r, key), AttachedPlaces(g, p, flag, r), x)
  {
    hide Links, Placed;
    LinkAt(mem, root, x);
    PosAt(mem, root, g, ord, x);
    PosAt(mem, root, g, ord, p);
    if g[x].at == g[p].at {
      SameNode(mem, root, g, ord, x, p);
    }
  }

  lemma SameNode(mem: Mem, root: int, g: Places, ord: seq<int>, x: int, y: int)
    requires Placed(mem, root, g, ord) && x in g && y in g && g[x].at == g[y].at
    ensures x == y
  {
    assert ord[g[x].at] == x && ord[g[y].at] == y;
  }

  lemma AttachedOrder(mem: Mem, root: int, g: Places, ord: seq<int>, p: int, flag: int, r: int, key: int)
    requires Placed(mem, root, g, ord) && Free(mem, p, flag, r) && p in g
    ensures 0 <= PlaceFor(g, p, flag) <= |ord|
    ensures Order(Attached(mem, p, flag, r, key), AttachedPlaces(g, p, flag, r), Inserted(ord, PlaceFor(g, p, flag), r))
  {
    hide PosOk;
    var k := PlaceFor(g, p, flag);
    var t, n, o := Attached(mem, p, flag, r, key), AttachedPlaces(g, p, flag, r), Inserted(ord, k, r);
    forall x | x in n ensures 0 <= n[x].at < |o| && o[n[x].at] == x {
      if x != r {
        assert ord[g[x].at] == x;
      }
    }
    forall i | 0 <= i < |o| ensures o[i] in n && n[o[i]].at == i {
      if i != k {
        var j := if i < k then i else i - 1;
        assert o[i] == ord[j] && g[ord[j]].at == j;
      }
    }
  }

  lemma AttachedPlaced(mem: Mem, root: int, g: Places, ord: seq<int>, p: int, flag: int, r: int, key: int)
    requires Links(mem, root) && Placed(mem, root, g, ord) && Free(mem, p, flag, r) && p in g
    ensures 0 <= PlaceFor(g, p, flag) <= |ord|
    ensures Placed(Attached(mem, p, flag, r, key), root, AttachedPlaces(g, p, flag, r), Inserted(ord, PlaceFor(g, p, flag), r))
  {
    hide PosOk, Links;
    AttachedOrder(mem, root, g, ord, p, flag, r, key);
    var t, n := Attached(mem, p, flag, r, key), AttachedPlaces(g, p, flag, r);
    forall x | x in t ensures PosOk(t, n, x) {
      if x == r {
        NewPos(mem, g, p, flag, r, key);
      } else {
        AttachedPos(mem, root, g, ord, p, flag, r, key, x);
      }
    }
    LinkAt(mem, root, p);
    InRoot(mem, root, g, ord, p);
  }

  lemma NewPos(mem: Mem, g: Places, p: int, flag: int, r: int, key: int)
    requires Free(mem, p, flag, r) && p in g
    ensures PosOk(Attached(mem, p, flag, r, key), AttachedPlaces(g, p, flag, r), r)
  {
  }

  lemma AttachedRanked(mem: Mem, root: int, g: Places, ord: seq<int>, p: int, flag: int, r: int, key: int)
    requires Placed(mem, root, g, ord) && Free(mem, p, flag, r) && p in g && Raised(mem, g, p, flag)
    ensures Ranked(Attached(mem, p, flag, r, key), AttachedPlaces(g, p, flag, r))
  {
    hide Placed;
    var t, n := Attached(mem, p, flag, r, key), AttachedPlaces(g, p, flag, r);
    forall x | x in t && x in n ensures RankOk(t, n, x) {
      if x != r {
        PosAt(mem, root, g, ord, x);
        assert RaisedAt(mem, g, p, flag, x);
        if g[x].at == g[p].at {
          SameNode(mem, root, g, ord, x, p);
        }
      }
    }
  }

  lemma AttachedBalanced(mem: Mem, root: int, h: Heights, p: int, flag: int, r: int, key: int)
    requires Links(mem, root) && Balanced(mem, h, NIL, 0, 0) && Free(mem, p, flag, r)
    ensures Balanced(Attached(mem, p, flag, r, key), h[r := 1], p, flag, -1)
  {
    hide Links;
    LinkAt(mem, root, p);
    var t, n := Attached(mem, p, flag, r, key), h[r := 1];
    forall x | x in t && x in n ensures BalOk(t, n, x, p, flag, -1) {
      if x != r {
        LinkAt(mem, root, x);
        assert BalOk(mem, h, x, NIL, 0, 0) && KidOk(mem, x, 0) && KidOk(mem, x, 1);
      }
    }
  }
}
