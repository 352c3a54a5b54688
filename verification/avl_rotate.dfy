/** avl_rotate_subtree: single and double rotations on either side; s is the side of the heavy child (0 left, 1 right). */
module AvlRotate {
  import opened AvlModel

  function WithKid(r: Rec, s: int, c: int): Rec {
    if s == 0 then r.(left := c) else r.(right := c)
  }

  function Hang(r: Rec, up: int, flag: int): Rec {
    r.(up := up, flag := flag)
  }

  /** Node c becomes the child of f on side `flag`; nothing happens for the root, which has its own pointer. */
  function SetKid(mem: Mem, f: int, flag: int, c: int): Mem {
    if f in mem then mem[f := WithKid(mem[f], flag, c)] else mem
  }

  function SetUp(mem: Mem, c: int, up: int, flag: int): Mem {
    if c in mem then mem[c := Hang(mem[c], up, flag)] else mem
  }

  predicate Heavy(mem: Mem, p: int, s: int) {
    (s == 0 || s == 1) && p in mem && Kid(mem[p], s) in mem
  }

  // ----- single rotation

  function TurnedTop(p: Rec, q: Rec, pid: int, s: int): Rec {
    Hang(WithKid(q, 1 - s, pid), p.up, p.flag).(bal := if s == 0 then q.bal + 1 else q.bal - 1,
                                               rank := if s == 0 then q.rank else q.rank + p.rank)
  }

  function TurnedDown(p: Rec, q: Rec, qid: int, s: int): Rec {
    Hang(WithKid(p, s, Kid(q, 1 - s)), qid, 1 - s).(bal := if s == 0 then -(q.bal + 1) else -(q.bal - 1),
                                                    rank := if s == 0 then p.rank - q.rank else p.rank)
  }

  function Turn(mem: Mem, p: int, s: int): Mem
    requires Heavy(mem, p, s)
  {
    var q := Kid(mem[p], s);
    var r := Kid(mem[q], 1 - s);
    SetUp(SetKid(mem, mem[p].up, mem[p].flag, q)[q := TurnedTop(mem[p], mem[q], p, s)][p := TurnedDown(mem[p], mem[q], q, s)], r, p, s)
  }

  function TopAfter(mem: Mem, root: int, p: int, q: int): int
    requires p in mem
  {
    if mem[p].up == NIL then q else root
  }

  function TurnPlaces(g: Places, p: int, q: int, s: int): Places
    requires p in g && q in g
  {
    var down := if s == 0 then Pos(g[q].at + 1, g[p].at, g[p].hi) else Pos(g[p].lo, g[p].at, g[q].at);
    g[q := Pos(g[p].lo, g[q].at, g[p].hi)][p := down]
  }

  /** The parent, the node, its heavy child and the inner grandchild are different nodes. */
  lemma Apart(mem: Mem, root: int, g: Places, ord: seq<int>, p: int, s: int)
    requires Links(mem, root) && Placed(mem, root, g, ord) && Heavy(mem, p, s)
    ensures var f, q, r := mem[p].up, Kid(mem[p], s), Kid(mem[Kid(mem[p], s)], 1 - s);
            && p != q && r != p && r != q && f != p && f != q && (r != NIL ==> f != r && r in mem) && p in g && q in g
            && (f != NIL ==> f in mem) && KidOk(mem, p, s) && KidOk(mem, q, 1 - s)
  {
    var f, q := mem[p].up, Kid(mem[p], s);
    var r := Kid(mem[q], 1 - s);
    assert LinkOk(mem, root, p) && LinkOk(mem, root, q) && PosOk(mem, g, p) && PosOk(mem, g, q);
    assert KidOk(mem, p, s) && KidOk(mem, q, 1 - s);
    if r != NIL {
      assert LinkOk(mem, root, r) && PosOk(mem, g, r);
    }
    if f != NIL {
      assert LinkOk(mem, root, f) && PosOk(mem, g, f);
    }
  }

  /** What Turn does to each node. */
  lemma TurnAt(mem: Mem, root: int, g: Places, ord: seq<int>, p: int, s: int, x: int)
    requires Links(mem, root) && Placed(mem, root, g, ord) && Heavy(mem, p, s) && x in mem
    ensures var f, q, r := mem[p].up, Kid(mem[p], s), Kid(mem[Kid(mem[p], s)], 1 - s);
            x in Turn(mem, p, s) && Turn(mem, p, s)[x] ==
            if x == q then TurnedTop(mem[p], mem[q], p, s)
            else if x == p then TurnedDown(mem[p], mem[q], q, s)
            else if x == r then Hang(mem[r], p, s)
            else if x == f then WithKid(mem[f], mem[p].flag, q)
            else mem[x]
  {
    Apart(mem, root, g, ord, p, s);
  }

  lemma TurnLinkOk(mem: Mem, root: int, g: Places, ord: seq<int>, p: int, s: int, x: int)
    requires Links(mem, root) && Placed(mem, root, g, ord) && Heavy(mem, p, s) && x in mem
    ensures x in Turn(mem, p, s) && LinkOk(Turn(mem, p, s), TopAfter(mem, root, p, Kid(mem[p], s)), x)
  {
    hide Links, Placed, Turn;
    var f, q := mem[p].up, Kid(mem[p], s);
    var r := Kid(mem[q], 1 - s);
    Apart(mem, root, g, ord, p, s);
    TurnAt(mem, root, g, ord, p, s, x);
    LinkAt(mem, root, x);
    LinkAt(mem, root, p);
    LinkAt(mem, root, q);
    TurnAt(mem, root, g, ord, p, s, p);
    TurnAt(mem, root, g, ord, p, s, q);
    if r != NIL {
      TurnAt(mem, root, g, ord, p, s, r);
    }
    if mem[x].left != NIL {
      TurnAt(mem, root, g, ord, p, s, mem[x].left);
    }
    if mem[x].right != NIL {
      TurnAt(mem, root, g, ord, p, s, mem[x].right);
    }
    if mem[x].up != NIL {
      TurnAt(mem, root, g, ord, p, s, mem[x].up);
    }
    if f != NIL {
      TurnAt(mem, root, g, ord, p, s, f);
    }
  }

  lemma LinkAt(mem: Mem, root: int, x: int)
    requires Links(mem, root) && x in mem
    ensures LinkOk(mem, root, x) && NIL !in mem
  {
  }

  lemma TurnKeys(mem: Mem, p: int, s: int, x: int)
    requires Heavy(mem, p, s)
    ensures x in Turn(mem, p, s) <==> x in mem
  {
  }

  lemma TurnLinks(mem: Mem, root: int, g: Places, ord: seq<int>, p: int, s: int)
    requires Links(mem, root) && Placed(mem, root, g, ord) && Heavy(mem, p, s)
    ensures Links(Turn(mem, p, s), TopAfter(mem, root, p, Kid(mem[p], s)))
  {
    hide Turn, LinkOk, Placed;
    var t, top := Turn(mem, p, s), TopAfter(mem, root, p, Kid(mem[p], s));
    forall x | x in t ensures LinkOk(t, top, x) {
      TurnKeys(mem, p, s, x);
      TurnLinkOk(mem, root, g, ord, p, s, x);
    }
    TurnKeys(mem, p, s, NIL);
    TurnKeys(mem, p, s, top);
  }

  lemma TurnPosOk(mem: Mem, root: int, g: Places, ord: seq<int>, p: int, s: int, x: int)
    requires Links(mem, root) && Placed(mem, root, g, ord) && Heavy(mem, p, s) && x in mem && p in g && Kid(mem[p], s) in g
    ensures x in Turn(mem, p, s) && PosOk(Turn(mem, p, s), TurnPlaces(g, p, Kid(mem[p], s), s), x)
  {
    hide Links, Placed, Turn;
    var q := Kid(mem[p], s);
    Apart(mem, root, g, ord, p, s);
    TurnAt(mem, root, g, ord, p, s, x);
    PosAt(mem, root, g, ord, x);
    PosAt(mem, root, g, ord, p);
    PosAt(mem, root, g, ord, q);
    LinkAt(mem, root, x);
    LinkAt(mem, root, p);
  }

  lemma PosAt(mem: Mem, root: int, g: Places, ord: seq<int>, x: int)
    requires Placed(mem, root, g, ord) && x in mem
    ensures PosOk(mem, g, x) && x in g
  {
  }

  lemma TurnPlaced(mem: Mem, root: int, g: Places, ord: seq<int>, p: int, s: int)
    requires Links(mem, root) && Placed(mem, root, g, ord) && Heavy(mem, p, s) && p in g && Kid(mem[p], s) in g
    ensures Placed(Turn(mem, p, s), TopAfter(mem, root, p, Kid(mem[p], s)), TurnPlaces(g, p, Kid(mem[p], s), s), ord)
  {
    hide Turn, PosOk;
    var q := Kid(mem[p], s);
    var t, top, k := Turn(mem, p, s), TopAfter(mem, root, p, q), TurnPlaces(g, p, q, s);
    Apart(mem, root, g, ord, p, s);
    forall x ensures x in t <==> x in mem {
      TurnKeys(mem, p, s, x);
    }
    forall x | x in t ensures PosOk(t, k, x) {
      TurnPosOk(mem, root, g, ord, p, s, x);
    }
    LinkAt(mem, root, p);
    LinkAt(mem, root, q);
  }

  lemma TurnRankOk(mem: Mem, root: int, g: Places, ord: seq<int>, p: int, s: int, x: int)
    requires Links(mem, root) && Placed(mem, root, g, ord) && Heavy(mem, p, s) && x in mem && p in g && Kid(mem[p], s) in g && x in g
    requires RankOk(mem, g, x) && RankOk(mem, g, p) && RankOk(mem, g, Kid(mem[p], s))
    ensures x in Turn(mem, p, s) && RankOk(Turn(mem, p, s), TurnPlaces(g, p, Kid(mem[p], s), s), x)
  {
    hide Turn, Links, Placed;
    PosAt(mem, root, g, ord, p);
    LinkAt(mem, root, p);
    Apart(mem, root, g, ord, p, s);
    TurnAt(mem, root, g, ord, p, s, x);
    var q := Kid(mem[p], s);
    var k := TurnPlaces(g, p, q, s);
    if x == p {
      assert k[x].at - k[x].lo == if s == 0 then g[p].at - g[q].at - 1 else g[p].at - g[p].lo;
    } else if x == q {
      assert k[x].at - k[x].lo == g[q].at - g[p].lo;
    } else {
      assert k[x] == g[x];
    }
  }

  lemma TurnRanked(mem: Mem, root: int, g: Places, ord: seq<int>, p: int, s: int)
    requires Links(mem, root) && Placed(mem, root, g, ord) && Heavy(mem, p, s) && p in g && Kid(mem[p], s) in g && Ranked(mem, g)
    ensures Ranked(Turn(mem, p, s), TurnPlaces(g, p, Kid(mem[p], s), s))
  {
    hide Turn, Links, RankOk;
    var q := Kid(mem[p], s);
    var t, k := Turn(mem, p, s), TurnPlaces(g, p, q, s);
    forall x | x in t && x in k ensures RankOk(t, k, x) {
      TurnKeys(mem, p, s, x);
      assert RankOk(mem, g, x) && RankOk(mem, g, p) && RankOk(mem, g, q);
      TurnRankOk(mem, root, g, ord, p, s, x);
    }
  }

  // ----- heights

  /** The heavy child is two levels higher than its sibling. */
  ghost predicate TooHigh(mem: Mem, h: Heights, p: int, s: int)
    requires p in mem
  {
    Hgt(h, Kid(mem[p], s)) == Hgt(h, Kid(mem[p], 1 - s)) + 2
  }

  function TurnHeights(h: Heights, p: int, q: int, r: int): Heights {
    h[p := 1 + Hgt(h, r)][q := 2 + Hgt(h, r)]
  }

  /** The children after the rotation: the node and its heavy child change places, the inner grandchild changes sides. */
  lemma TurnKids(mem: Mem, root: int, g: Places, ord: seq<int>, p: int, s: int, x: int, e: int)
    requires Links(mem, root) && Placed(mem, root, g, ord) && Heavy(mem, p, s) && x in mem && (e == 0 || e == 1)
    ensures var f, q, r := mem[p].up, Kid(mem[p], s), Kid(mem[Kid(mem[p], s)], 1 - s);
            x in Turn(mem, p, s) && Kid(Turn(mem, p, s)[x], e) ==
            if x == q && e == 1 - s then p
            else if x == p && e == s then r
            else if x == f && e == mem[p].flag then q
            else Kid(mem[x], e)
  {
    hide Turn, Links, Placed;
    Apart(mem, root, g, ord, p, s);
    TurnAt(mem, root, g, ord, p, s, x);
    LinkAt(mem, root, p);
  }

  ghost predicate TurnCase(mem: Mem, h: Heights, p: int, s: int, flag: int, d: int) {
    && Heavy(mem, p, s) && p in h && Balanced(mem, h, p, flag, d) && TooHigh(mem, h, p, s)
    && if s == 0 then mem[Kid(mem[p], s)].bal <= 0 else mem[Kid(mem[p], s)].bal >= 0
  }

  lemma TurnCaseFacts(mem: Mem, h: Heights, p: int, s: int, flag: int, d: int)
    requires TurnCase(mem, h, p, s, flag, d) && Kid(mem[p], s) != p
    ensures var q := Kid(mem[p], s);
            var k, r, o := Hgt(h, Kid(mem[p], 1 - s)), Hgt(h, Kid(mem[q], 1 - s)), Hgt(h, Kid(mem[q], s));
            && k >= 0 && o == k + 1
            && mem[q].bal == (if s == 0 then r - o else o - r) && (r == k || r == k + 1)
  {
    var q := Kid(mem[p], s);
    BalAt(mem, h, p, flag, d, q);
    NoHeight(mem, h, p, flag, d, Kid(mem[p], 1 - s));
  }

  /** Only f has p as a child, and only p has q. */
  lemma KidsElsewhere(mem: Mem, root: int, p: int, s: int, x: int, e: int)
    requires Links(mem, root) && Heavy(mem, p, s) && x in mem && (e == 0 || e == 1)
    ensures Kid(mem[x], e) == p ==> x == mem[p].up && e == mem[p].flag
    ensures Kid(mem[x], e) == Kid(mem[p], s) ==> x == p && e == s
  {
    LinkAt(mem, root, x);
    LinkAt(mem, root, p);
    assert KidOk(mem, x, e) && KidOk(mem, p, s);
  }

  /** All nodes but p and q see the heights that they saw before. */
  lemma TurnOthers(mem: Mem, root: int, g: Places, ord: seq<int>, h: Heights, p: int, s: int, flag: int, d: int, x: int, e: int)
    requires Links(mem, root) && Placed(mem, root, g, ord) && x in mem && TurnCase(mem, h, p, s, flag, d) && (e == 0 || e == 1)
    requires x != p && x != Kid(mem[p], s)
    ensures var q := Kid(mem[p], s);
            var k := TurnHeights(h, p, q, Kid(mem[q], 1 - s));
            x in Turn(mem, p, s) &&
            Assumed(Turn(mem, p, s), k, x, e, mem[p].up, mem[p].flag, h[p] - k[q]) == Assumed(mem, h, x, e, p, flag, d)
  {
    hide Links, Placed, Turn, Balanced;
    TurnKids(mem, root, g, ord, p, s, x, e);
    Apart(mem, root, g, ord, p, s);
    KidsElsewhere(mem, root, p, s, x, e);
    LinkAt(mem, root, p);
  }

  lemma TurnBalDown(mem: Mem, root: int, g: Places, ord: seq<int>, h: Heights, p: int, s: int, flag: int, d: int, x: int)
    requires Links(mem, root) && Placed(mem, root, g, ord) && x in mem && TurnCase(mem, h, p, s, flag, d) && x == p
    ensures var q := Kid(mem[p], s);
            var k := TurnHeights(h, p, q, Kid(mem[q], 1 - s));
            x in Turn(mem, p, s) && x in k && k[x] >= 1 && BalOk(Turn(mem, p, s), k, x, mem[p].up, mem[p].flag, h[p] - k[q])
  {
    hide Links, Placed, Turn, Balanced;
    Apart(mem, root, g, ord, p, s);
    TurnAt(mem, root, g, ord, p, s, x);
    TurnCaseFacts(mem, h, p, s, flag, d);
    TurnKids(mem, root, g, ord, p, s, x, 0);
    TurnKids(mem, root, g, ord, p, s, x, 1);
    KidsElsewhere(mem, root, p, s, x, 0);
    KidsElsewhere(mem, root, p, s, x, 1);
  }

  lemma TurnBalTop(mem: Mem, root: int, g: Places, ord: seq<int>, h: Heights, p: int, s: int, flag: int, d: int, x: int)
    requires Links(mem, root) && Placed(mem, root, g, ord) && x in mem && TurnCase(mem, h, p, s, flag, d) && x == Kid(mem[p], s)
    ensures var q := Kid(mem[p], s);
            var k := TurnHeights(h, p, q, Kid(mem[q], 1 - s));
            x in Turn(mem, p, s) && x in k && k[x] >= 1 && BalOk(Turn(mem, p, s), k, x, mem[p].up, mem[p].flag, h[p] - k[q])
  {
    hide Links, Placed, Turn, Balanced;
    Apart(mem, root, g, ord, p, s);
    TurnAt(mem, root, g, ord, p, s, x);
    TurnCaseFacts(mem, h, p, s, flag, d);
    TurnKids(mem, root, g, ord, p, s, x, 0);
    TurnKids(mem, root, g, ord, p, s, x, 1);
    KidsElsewhere(mem, root, p, s, x, 0);
    KidsElsewhere(mem, root, p, s, x, 1);
  }

  lemma TurnBalOther(mem: Mem, root: int, g: Places, ord: seq<int>, h: Heights, p: int, s: int, flag: int, d: int, x: int)
    requires Links(mem, root) && Placed(mem, root, g, ord) && x in mem && TurnCase(mem, h, p, s, flag, d) && x != p && x != Kid(mem[p], s)
    ensures var q := Kid(mem[p], s);
            var k := TurnHeights(h, p, q, Kid(mem[q], 1 - s));
            x in Turn(mem, p, s) && x in k && k[x] >= 1 && BalOk(Turn(mem, p, s), k, x, mem[p].up, mem[p].flag, h[p] - k[q])
  {
    hide Links, Placed, Turn, Balanced, Assumed;
    Apart(mem, root, g, ord, p, s);
    TurnAt(mem, root, g, ord, p, s, x);
    BalAt(mem, h, p, flag, d, x);
    TurnOthers(mem, root, g, ord, h, p, s, flag, d, x, 0);
    TurnOthers(mem, root, g, ord, h, p, s, flag, d, x, 1);
  }

  lemma TurnBalOk(mem: Mem, root: int, g: Places, ord: seq<int>, h: Heights, p: int, s: int, flag: int, d: int, x: int)
    requires Links(mem, root) && Placed(mem, root, g, ord) && x in mem && TurnCase(mem, h, p, s, flag, d)
    ensures var q := Kid(mem[p], s);
            var k := TurnHeights(h, p, q, Kid(mem[q], 1 - s));
            x in Turn(mem, p, s) && x in k && k[x] >= 1 && BalOk(Turn(mem, p, s), k, x, mem[p].up, mem[p].flag, h[p] - k[q])
  {
    hide Links, Placed, Turn, Balanced, BalOk;
    if x == p {
      TurnBalDown(mem, root, g, ord, h, p, s, flag, d, x);
    } else if x == Kid(mem[p], s) {
      TurnBalTop(mem, root, g, ord, h, p, s, flag, d, x);
    } else {
      TurnBalOther(mem, root, g, ord, h, p, s, flag, d, x);
    }
  }

  lemma BalAt(mem: Mem, h: Heights, f: int, flag: int, d: int, x: int)
    requires Balanced(mem, h, f, flag, d) && x in mem
    ensures x in h && h[x] >= 1 && BalOk(mem, h, x, f, flag, d)
  {
  }

  lemma NoHeight(mem: Mem, h: Heights, f: int, flag: int, d: int, x: int)
    requires Balanced(mem, h, f, flag, d)
    ensures Hgt(h, x) >= 0
  {
  }

  lemma TurnBalanced(mem: Mem, root: int, g: Places, ord: seq<int>, h: Heights, p: int, s: int, flag: int, d: int)
    requires Links(mem, root) && Placed(mem, root, g, ord) && TurnCase(mem, h, p, s, flag, d)
    ensures var q := Kid(mem[p], s);
            var k := TurnHeights(h, p, q, Kid(mem[q], 1 - s));
            Balanced(Turn(mem, p, s), k, mem[p].up, mem[p].flag, h[p] - k[q])
  {
    hide Turn, BalOk, Links, Placed;
    var q := Kid(mem[p], s);
    var t, k := Turn(mem, p, s), TurnHeights(h, p, q, Kid(mem[q], 1 - s));
    forall x ensures x in t <==> x in mem {
      TurnKeys(mem, p, s, x);
    }
    forall x | x in t ensures k[x] >= 1 && BalOk(t, k, x, mem[p].up, mem[p].flag, h[p] - k[q]) {
      TurnBalOk(mem, root, g, ord, h, p, s, flag, d, x);
    }
  }
}
