/** What the loops of insertion and deletion keep. */
module AvlSteps {
  import opened AvlModel
  import opened AvlRotate
  import opened AvlInsert
  import opened AvlDescent
  import opened AvlClimb
  import opened AvlExchange
  import opened AvlRemove
  import opened AvlKeys
  import opened AvlSearch

  ghost predicate Structure(mem: Mem, root: int, g: Places, ord: seq<int>) {
    Links(mem, root) && Placed(mem, root, g, ord) && Ranked(mem, g)
  }

  // ----- insertion

  /** p is the root of an insertion that has not been accounted for on side `flag`; NIL above the root. */
  ghost predicate Growing(mem: Mem, root: int, h: Heights, height: int, p: int, flag: int) {
    if p == NIL then Balanced(mem, h, NIL, 0, 0) && height == Hgt(h, root) - 1
    else
      && p in mem && (flag == 0 || flag == 1) && Balanced(mem, h, p, flag, -1) && height == Hgt(h, root)
      && Kid(mem[p], flag) in mem && Kid(mem[p], flag) in h && (mem[Kid(mem[p], flag)].bal != 0 || h[Kid(mem[p], flag)] == 1)
  }

  lemma GrowFacts(mem: Mem, root: int, h: Heights, height: int, p: int, flag: int)
    requires Links(mem, root) && Growing(mem, root, h, height, p, flag) && p != NIL
    ensures p in h && -1 <= mem[p].bal <= 1
    ensures var c, o := Hgt(h, Kid(mem[p], flag)), Hgt(h, Kid(mem[p], 1 - flag));
            mem[p].bal == (if flag == 0 then o - (c - 1) else c - 1 - o) && h[p] == 1 + (if o < c - 1 then c - 1 else o) && o >= 0
  {
    hide Links, Balanced;
    BalAt(mem, h, p, flag, -1, p);
    NoHeight(mem, h, p, flag, -1, Kid(mem[p], 1 - flag));
  }

  lemma GrowNext(mem: Mem, root: int, h: Heights, height: int, p: int)
    requires Links(mem, root) && p in mem && p in h && mem[p].bal != 0 && Balanced(mem, h, mem[p].up, mem[p].flag, -1)
    requires height == if mem[p].up == NIL then Hgt(h, root) - 1 else Hgt(h, root)
    ensures Growing(mem, root, h, height, mem[p].up, mem[p].flag)
  {
    hide Links, Balanced;
    LinkAt(mem, root, p);
    if mem[p].up == NIL {
      NothingOff(mem, h, mem[p].up, mem[p].flag, -1);
    }
  }

  function SlotLo(g: Places, p: int, flag: int): int
    requires p in g
  {
    if flag == 0 then g[p].lo else g[p].at + 1
  }

  function SlotHi(g: Places, p: int, flag: int): int
    requires p in g
  {
    if flag == 0 then g[p].at else g[p].hi
  }

  lemma DescentStart(mem: Mem, root: int, g: Places, ord: seq<int>, h: Heights)
    requires Structure(mem, root, g, ord) && Balanced(mem, h, NIL, 0, 0)
    ensures Descent(mem, root, g, ord, h, NIL, root, 0, 0, |ord|)
  {
  }

  lemma DescentParts(mem: Mem, root: int, g: Places, ord: seq<int>, h: Heights, p: int, q: int, flag: int, lo: int, hi: int)
    requires Descent(mem, root, g, ord, h, p, q, flag, lo, hi)
    ensures Links(mem, root) && Placed(mem, root, g, ord) && Balanced(mem, h, NIL, 0, 0)
    ensures if p == NIL then q == root && hi == |ord| else p in mem && (flag == 0 || flag == 1)
  {
  }

  lemma PlantedRoot(mem: Mem, root: int, h: Heights, r: int, p: int)
    requires Links(mem, root) && p in mem && r !in mem
    ensures root in mem && root != r && Hgt(h[r := 1], root) == Hgt(h, root)
  {
  }

  lemma PlantedGrows(mem: Mem, root: int, h: Heights, height: int, p: int, flag: int, r: int, key: int)
    requires Links(mem, root) && Free(mem, p, flag, r) && Balanced(Attached(mem, p, flag, r, key), h[r := 1], p, flag, -1)
    requires height == Hgt(h, root)
    ensures Growing(Attached(mem, p, flag, r, key), root, h[r := 1], height, p, flag)
  {
    hide Balanced, Links;
    PlantedRoot(mem, root, h, r, p);
    LinkAt(mem, root, p);
  }

  /** A node that has not been visited yet has its own rank. */
  lemma DescentRank(mem: Mem, root: int, g: Places, ord: seq<int>, h: Heights, p: int, q: int, flag: int, lo: int, hi: int)
    requires Descent(mem, root, g, ord, h, p, q, flag, lo, hi) && q in mem && q in g
    ensures mem[q].rank == g[q].at - g[q].lo + 1
  {
    hide Links, Placed, Balanced;
    LinkAt(mem, root, q);
    if p == NIL {
      assert RankOk(mem, g, q);
    } else {
      assert RaisedAt(mem, g, p, flag, q);
      LinkAt(mem, root, p);
      PosAt(mem, root, g, ord, p);
      PosAt(mem, root, g, ord, q);
      KidNotSelf(mem, root, g, ord, p);
    }
  }

  // ----- deletion

  /** The nodes of mem without p; the others keep their keys. */
  ghost predicate Lost(mem: Mem, t: Mem, p: int) {
    (forall x :: x in t <==> x in mem && x != p) && forall x :: x in mem && x in t ==> t[x].key == mem[x].key
  }

  ghost predicate Shrinking(mem: Mem, root: int, h: Heights, height: int, f: int, flag: int) {
    if f == NIL then Balanced(mem, h, NIL, 0, 0) && height == Hgt(h, root) + 1
    else f in mem && (flag == 0 || flag == 1) && Balanced(mem, h, f, flag, 1) && height == Hgt(h, root)
  }

  lemma ShrinkFacts(mem: Mem, root: int, h: Heights, height: int, p: int, flag: int)
    requires Links(mem, root) && Shrinking(mem, root, h, height, p, flag) && p != NIL
    ensures p in h && -1 <= mem[p].bal <= 1
    ensures var c, o := Hgt(h, Kid(mem[p], flag)), Hgt(h, Kid(mem[p], 1 - flag));
            mem[p].bal == (if flag == 0 then o - (c + 1) else c + 1 - o) && h[p] == 1 + (if o < c + 1 then c + 1 else o) && c >= 0
  {
    hide Links, Balanced;
    BalAt(mem, h, p, flag, 1, p);
    NoHeight(mem, h, p, flag, 1, Kid(mem[p], flag));
  }

  lemma ShrinkNext(mem: Mem, root: int, h: Heights, height: int, p: int)
    requires Links(mem, root) && p in mem && p in h && Balanced(mem, h, mem[p].up, mem[p].flag, 1)
    requires height == if mem[p].up == NIL then Hgt(h, root) + 1 else Hgt(h, root)
    ensures Shrinking(mem, root, h, height, mem[p].up, mem[p].flag)
  {
    hide Links, Balanced;
    LinkAt(mem, root, p);
    if mem[p].up == NIL {
      NothingOff(mem, h, mem[p].up, mem[p].flag, 1);
    }
  }

  lemma ExchangedNodes(mem: Mem, p: int, r: int)
    requires p in mem && r in mem
    ensures SameNodes(mem, Exchanged(mem, p, r))
  {
  }

  lemma SameMem(mem: Mem, t: Mem)
    requires forall z :: z in mem <==> z in t
    requires forall z :: z in mem && z in t ==> mem[z] == t[z]
    ensures mem == t
  {
    forall z | z in mem.Keys ensures z in t && mem[z] == t[z] {
    }
    forall z | z in t.Keys ensures z in mem {
    }
    assert mem.Keys == t.Keys;
  }

  lemma ExchangedLeft(mem: Mem, p: int, r: int)
    requires p in mem && r in mem && NIL !in mem && mem[r].left == NIL
    ensures p in Exchanged(mem, p, r) && Exchanged(mem, p, r)[p].left == NIL
  {
  }

  lemma RanksSelf(mem: Mem)
    ensures SameButRanks(mem, mem)
  {
  }

  lemma DroppedFrame(mem: Mem, f: int, flag: int)
    requires f in mem
    ensures SameButRanks(mem, Dropped(mem, f, flag)) && forall x :: x in mem ==> x in Dropped(mem, f, flag)
  {
  }

  lemma RanksTrans(m0: Mem, m1: Mem, m2: Mem)
    requires SameButRanks(m0, m1) && SameButRanks(m1, m2)
    ensures SameButRanks(m0, m2)
  {
  }

  lemma RanksAt(mem: Mem, t: Mem, p: int)
    requires SameButRanks(mem, t) && p in mem
    ensures p in t && t[p].left == mem[p].left && t[p].right == mem[p].right
  {
  }

  lemma UnlinkedShrinks(mem: Mem, root: int, g: Places, ord: seq<int>, h: Heights, height: int, p: int, q: int)
    requires Links(mem, root) && Placed(mem, root, g, ord) && Balanced(mem, h, NIL, 0, 0) && OneKid(mem, p, q) && height == Hgt(h, root)
    requires Balanced(Unlinked(mem, p, q), h - {p}, mem[p].up, mem[p].flag, 1)
    ensures Shrinking(Unlinked(mem, p, q), RootWithout(mem, root, p, q), h - {p}, height, mem[p].up, mem[p].flag)
  {
    hide Links, Placed, Balanced, Unlinked;
    LinkAt(mem, root, p);
    RootNode(mem, root, p);
    BalAt(mem, h, NIL, 0, 0, p);
    HeightKeys(mem, h, NIL, 0, 0);
    NoHeight(mem, h, NIL, 0, 0, q);
    KidNotSelf(mem, root, g, ord, p);
    UnlinkedKeys(mem, p, q, NIL);
    UnlinkedKeys(mem, p, q, mem[p].up);
    if mem[p].up == NIL {
      NothingOff(Unlinked(mem, p, q), h - {p}, mem[p].up, mem[p].flag, 1);
    }
  }

  lemma UnlinkedLost(mem: Mem, root: int, g: Places, ord: seq<int>, p: int, q: int)
    requires Links(mem, root) && Placed(mem, root, g, ord) && OneKid(mem, p, q)
    ensures Lost(mem, Unlinked(mem, p, q), p)
  {
    hide Links, Placed, Unlinked;
    forall x ensures x in Unlinked(mem, p, q) <==> x in mem && x != p {
      UnlinkedKeys(mem, p, q, x);
    }
    forall x | x in mem && x != p ensures Unlinked(mem, p, q)[x].key == mem[x].key {
      UnlinkedAt(mem, root, g, ord, p, q, x);
    }
  }

  lemma RanksLost(m0: Mem, m1: Mem, m2: Mem, p: int)
    requires SameButRanks(m0, m1) && Lost(m1, m2, p)
    ensures Lost(m0, m2, p)
  {
  }

  lemma LostSame(m0: Mem, m1: Mem, m2: Mem, p: int)
    requires Lost(m0, m1, p) && SameNodes(m1, m2)
    ensures Lost(m0, m2, p)
  {
  }

  lemma LostAfter(m0: Mem, m1: Mem, m2: Mem, p: int)
    requires SameNodes(m0, m1) && Lost(m1, m2, p)
    ensures Lost(m0, m2, p)
  {
  }

  /** A node with a right child has a next node. */
  lemma HasNext(mem: Mem, root: int, g: Places, ord: seq<int>, p: int)
    requires Links(mem, root) && Placed(mem, root, g, ord) && p in mem && p in g && mem[p].left != NIL && mem[p].right != NIL
    ensures g[p].at + 1 < |ord| && NextOf(mem, g, p, ord[g[p].at + 1])
  {
    hide Links, Placed;
    DownNext(mem, root, g, ord, p);
    DownNext(mem, root, g, ord, mem[p].right);
    NthNode(mem, root, g, ord, g[p].at + 1);
  }

  /** Removing p after it has changed places with the next node r is removing it where it was. */
  lemma SwapRemoved(mem: Mem, root: int, g: Places, ord: seq<int>, p: int, r: int)
    requires Placed(mem, root, g, ord) && p in g && r in g && g[r].at == g[p].at + 1
    ensures 0 <= g[p].at && g[r].at < |ord| && Removed(SwappedOrder(ord, p, r), g[r].at) == Removed(ord, g[p].at)
  {
    var a := g[p].at;
    assert ord[a] == p && ord[a + 1] == r;
    var s, t := Removed(SwappedOrder(ord, p, r), a + 1), Removed(ord, a);
    forall i | 0 <= i < |t| ensures s[i] == t[i] {
      var j := if i < a then i else i + 1;
      assert t[i] == ord[j] && g[ord[j]].at == j;
    }
  }

  /** The remaining keys are the old ones in the old order. */
  lemma LostKeys(mem: Mem, t: Mem, root: int, g: Places, ord: seq<int>, p: int, fcmp: (int, int) -> int)
    requires Placed(mem, root, g, ord) && Lost(mem, t, p) && p in g && 0 <= g[p].at < |ord|
    ensures KeysOf(t, Removed(ord, g[p].at)) == Removed(KeysOf(mem, ord), g[p].at)
    ensures Sorted(fcmp, KeysOf(mem, ord)) ==> Sorted(fcmp, KeysOf(t, Removed(ord, g[p].at)))
  {
    var a := g[p].at;
    var k, s, r := KeysOf(mem, ord), KeysOf(t, Removed(ord, a)), Removed(KeysOf(mem, ord), a);
    forall i | 0 <= i < |s| ensures s[i] == r[i] {
      var j := if i < a then i else i + 1;
      var x := ord[j];
      assert x in g && x in mem && g[x].at == j && Removed(ord, a)[i] == x;
    }
    if Sorted(fcmp, k) {
      forall i, j | 0 <= i < j < |r| ensures fcmp(r[i], r[j]) <= 0 {
        assert r[i] == k[if i < a then i else i + 1] && r[j] == k[if j < a then j else j + 1];
      }
    }
  }
}
