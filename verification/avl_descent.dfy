/** The way down to the place of a new node. */
module AvlDescent {
  import opened AvlModel
  import opened AvlRotate
  import opened AvlInsert

  ghost predicate Slot(g: Places, p: int, flag: int, lo: int, hi: int)
    requires p in g
  {
    if flag == 0 then lo == g[p].lo && hi == g[p].at else lo == g[p].at + 1 && hi == g[p].hi
  }

  /** The search stands at link q of node p, with the positions lo..hi below it. */
  ghost predicate Descent(mem: Mem, root: int, g: Places, ord: seq<int>, h: Heights, p: int, q: int, flag: int, lo: int, hi: int) {
    && Links(mem, root) && Placed(mem, root, g, ord) && Balanced(mem, h, NIL, 0, 0)
    && if p == NIL then q == root && lo == 0 && hi == |ord| && Ranked(mem, g)
       else p in mem && p in g && (flag == 0 || flag == 1) && q == Kid(mem[p], flag) && Raised(mem, g, p, flag) && Slot(g, p, flag, lo, hi)
  }

  lemma DescentFacts(mem: Mem, root: int, g: Places, ord: seq<int>, h: Heights, p: int, q: int, flag: int, lo: int, hi: int)
    requires Descent(mem, root, g, ord, h, p, q, flag, lo, hi)
    ensures 0 <= lo <= hi <= |ord|
    ensures if q == NIL then lo == hi else q in mem && q in g && lo == g[q].lo <= g[q].at < g[q].hi == hi
  {
    hide Links, Placed, Balanced, Ranked, Raised;
    if p == NIL {
      NoNodes(mem, root, g, ord);
      if q != NIL {
        PosAt(mem, root, g, ord, q);
      }
    } else {
      PosAt(mem, root, g, ord, p);
      LinkAt(mem, root, p);
      assert KidOk(mem, p, flag);
      InRoot(mem, root, g, ord, p);
      if q != NIL {
        PosAt(mem, root, g, ord, q);
      }
    }
  }

  lemma NoNodes(mem: Mem, root: int, g: Places, ord: seq<int>)
    requires Links(mem, root) && Placed(mem, root, g, ord)
    ensures if root == NIL then |ord| == 0 else root in mem && root in g && g[root].lo == 0 && g[root].hi == |ord|
  {
    if |ord| > 0 {
      var x := ord[0];
      assert x in g && x in mem;
    } else if root != NIL {
      assert root in g;
    }
  }

  /** One step down from q to side e. */
  lemma DescentStep(mem: Mem, root: int, g: Places, ord: seq<int>, h: Heights, p: int, q: int, flag: int, lo: int, hi: int, e: int, lo': int, hi': int)
    requires Descent(mem, root, g, ord, h, p, q, flag, lo, hi) && q != NIL && (e == 0 || e == 1) && q in mem && q in g && Slot(g, q, e, lo', hi')
    ensures Descent(Visit(mem, q, e), root, g, ord, h, q, Kid(mem[q], e), e, lo', hi') && SameButRanks(mem, Visit(mem, q, e))
  {
    hide Links, Placed, Balanced, Ranked, Raised, Slot;
    if p == NIL {
      VisitFirst(mem, root, g, ord, e);
    } else {
      VisitNext(mem, root, g, ord, p, flag, q, e);
    }
    RanksFrame(mem, Visit(mem, q, e), root, g, ord, h, NIL, 0, 0);
  }

  /** The tree with the new leaf; its parent does not know the height of the leaf yet. */
  lemma Planted(mem: Mem, root: int, g: Places, ord: seq<int>, h: Heights, p: int, flag: int, lo: int, hi: int, r: int, key: int)
    requires Descent(mem, root, g, ord, h, p, NIL, flag, lo, hi) && p != NIL && r !in mem && r != NIL && 0 <= lo <= |ord|
    ensures p in g && p in mem && Free(mem, p, flag, r)
    ensures var t, n := Attached(mem, p, flag, r, key), AttachedPlaces(g, p, flag, r);
            && Links(t, root) && Placed(t, root, n, Inserted(ord, lo, r)) && Ranked(t, n) && Balanced(t, h[r := 1], p, flag, -1)
  {
    hide Links, Placed, Balanced, Ranked, Raised, Attached, AttachedPlaces;
    PosAt(mem, root, g, ord, p);
    assert PlaceFor(g, p, flag) == lo;
    AttachedLinks(mem, root, p, flag, r, key);
    AttachedPlaced(mem, root, g, ord, p, flag, r, key);
    AttachedRanked(mem, root, g, ord, p, flag, r, key);
    AttachedBalanced(mem, root, h, p, flag, r, key);
  }

  /** The first node of a tree. */
  lemma PlantedFirst(mem: Mem, g: Places, ord: seq<int>, h: Heights, r: int, key: int)
    requires Links(mem, NIL) && Placed(mem, NIL, g, ord) && Balanced(mem, h, NIL, 0, 0) && r != NIL
    ensures var t, n := mem[r := Rec(key, 1, NIL, 0, 0, NIL, NIL)], g[r := Pos(0, 0, 1)];
            Links(t, r) && Placed(t, r, n, [r]) && Ranked(t, n) && Balanced(t, h[r := 1], NIL, 0, 0) && |ord| == 0
  {
    NoNodes(mem, NIL, g, ord);
    var t, n := mem[r := Rec(key, 1, NIL, 0, 0, NIL, NIL)], g[r := Pos(0, 0, 1)];
    assert LinkOk(t, r, r) && PosOk(t, n, r) && RankOk(t, n, r) && BalOk(t, h[r := 1], r, NIL, 0, 0);
  }
}
