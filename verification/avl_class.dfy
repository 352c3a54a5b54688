/** glpavl.c: the AVL tree as an object that its routines update in place. */
module AvlClass {
  import opened AvlModel
  import opened AvlRotate
  import opened AvlDouble
  import opened AvlInsert
  import opened AvlDescent
  import opened AvlClimb
  import opened AvlExchange
  import opened AvlRemove
  import opened AvlKeys
  import opened AvlSearch
  import opened AvlSteps

  class AvlTree {
    const fcmp: (int, int) -> int
    var mem: Mem
    var root: int
    var size: int
    var height: int
    var unused: int
    ghost var g: Places
    ghost var ord: seq<int>
    ghost var h: Heights

    ghost predicate Standing()
      reads this
    {
      Structure(mem, root, g, ord) && 0 <= unused && forall x :: x in mem ==> 0 <= x < unused
    }

    ghost predicate Valid()
      reads this
    {
      Standing() && Balanced(mem, h, NIL, 0, 0) && size == |ord| && height == Hgt(h, root)
    }

    /** avl_create_tree. */
    constructor (fcmp: (int, int) -> int)
      ensures Valid() && this.fcmp == fcmp && ord == []
    {
      this.fcmp, mem, root, size, height, unused, g, ord, h := fcmp, map[], NIL, 0, 0, 0, map[], [], map[];
    }

    // ----- rotation

    /** The single rotation. */
    method TurnAround(p: int, s: int)
      requires Links(mem, root) && Placed(mem, root, g, ord) && Heavy(mem, p, s)
      modifies this`mem, this`root
      ensures mem == Turn(old(mem), p, s) && root == TopAfter(old(mem), old(root), p, Kid(old(mem)[p], s))
    {
      hide Links, Placed;
      Apart(mem, root, g, ord, p, s);
      LinkAt(mem, root, p);
      var f, q := mem[p].up, Kid(mem[p], s);
      var r := Kid(mem[q], 1 - s);
      var pr, qr := mem[p], mem[q];
      if f == NIL {
        root := q;
      } else {
        mem := mem[f := WithKid(mem[f], pr.flag, q)];
      }
      mem := mem[q := TurnedTop(pr, qr, p, s)];
      mem := mem[p := TurnedDown(pr, qr, q, s)];
      if r != NIL {
        mem := mem[r := Hang(mem[r], p, s)];
      }
    }

    /** The double rotation. */
    method TurnTwice(p: int, s: int)
      requires Links(mem, root) && Placed(mem, root, g, ord) && HeavyTwice(mem, p, s)
      modifies this`mem, this`root
      ensures mem == Twice(old(mem), p, s) && root == TopAfter(old(mem), old(root), p, Kid(old(mem)[Kid(old(mem)[p], s)], 1 - s))
    {
      hide Links, Placed;
      SixApart(mem, root, g, ord, p, s);
      LinkAt(mem, root, p);
      var f, q := mem[p].up, Kid(mem[p], s);
      var r := Kid(mem[q], 1 - s);
      var pr, qr, rr := mem[p], mem[q], mem[r];
      var a, b := Kid(rr, s), Kid(rr, 1 - s);
      if f == NIL {
        root := r;
      } else {
        mem := mem[f := WithKid(mem[f], pr.flag, r)];
      }
      mem := mem[p := NodeRec(pr, qr, rr, r, s)];
      mem := mem[q := ChildRec(qr, rr, r, s)];
      mem := mem[r := TopRec(pr, qr, rr, p, q, s)];
      if a != NIL {
        mem := mem[a := Hang(mem[a], q, 1 - s)];
      }
      if b != NIL {
        mem := mem[b := Hang(mem[b], p, s)];
      }
    }

    /** avl_rotate_subtree: the heavy side of p is two levels too high. */
    method RotateSubtree(p: int, ghost flag: int, ghost d: int) returns (t: int)
      requires p in mem && Standing() && Unbalanced(mem, root, g, ord, h, p, if mem[p].bal < 0 then 0 else 1, flag, d)
      modifies this`mem, this`root, this`g, this`h
      ensures Standing() && SameNodes(old(mem), mem) && t in mem && t in h && p in old(h)
      ensures Balanced(mem, h, mem[t].up, mem[t].flag, old(h)[p] - h[t])
      ensures var q := old(Kid(mem[p], if mem[p].bal < 0 then 0 else 1));
              && q in old(mem) && q in old(h) && h[t] == (if old(mem)[q].bal == 0 then old(h)[q] + 1 else old(h)[q])
              && mem[t].bal == (if old(mem)[q].bal != 0 then 0 else if old(mem)[p].bal < 0 then 1 else -1)
      ensures mem[t].up == old(mem[p].up) && mem[t].flag == old(mem[p].flag)
      ensures t in g && p in old(g) && g[t].lo == old(g)[p].lo && g[t].hi == old(g)[p].hi
      ensures if mem[t].up == NIL then root == t else root == old(root) && Hgt(h, root) == old(Hgt(h, root))
    {
      hide Links, Placed, Ranked, Balanced, Turn, Twice, RotatedPlaces, RotatedHeights, TooHigh;
      var s := if mem[p].bal < 0 then 0 else 1;
      HeavySide(mem, root, g, ord, h, p, s, flag, d);
      RotatedStructure(mem, root, g, ord, h, p, s, flag, d);
      RotatedBalanced(mem, root, g, ord, h, p, s, flag, d);
      forall x ensures (x in Rotated(mem, p, s) <==> x in mem) {
        RotatedKeys(mem, p, s, x);
      }
      forall x | x in mem ensures Rotated(mem, p, s)[x].key == mem[x].key {
        RotatedFrame(mem, root, g, ord, h, p, s, flag, d, x);
      }
      RotatedFrame(mem, root, g, ord, h, p, s, flag, d, p);
      RootNode(mem, root, p);
      RotatedFrame(mem, root, g, ord, h, p, s, flag, d, root);
      LinkAt(mem, root, root);
      ghost var k, n := RotatedPlaces(mem, g, p, s), RotatedHeights(mem, h, p, s);
      t := Riser(mem, p, s);
      if Straight(mem, p, s) {
        TurnAround(p, s);
      } else {
        TurnTwice(p, s);
      }
      g, h := k, n;
    }

    /** A new balance, and with it a new height, for node p. */
    method Settle(p: int, b: int, ghost flag: int, ghost d: int, ghost v: int)
      requires Standing() && Balanced(mem, h, p, flag, d) && p in mem && p in h
      requires var l, r := Hgt(h, mem[p].left), Hgt(h, mem[p].right);
               b == r - l && -1 <= b <= 1 && v == 1 + if l < r then r else l
      modifies this`mem, this`h
      ensures Standing() && SameNodes(old(mem), mem) && mem == SetBal(old(mem), p, b) && h == old(h)[p := v]
      ensures Balanced(mem, h, mem[p].up, mem[p].flag, old(h)[p] - v)
      ensures Hgt(h, root) == if mem[p].up == NIL then v else old(Hgt(h, root))
    {
      hide Links, Placed, Ranked, Balanced;
      SetBalStructure(mem, root, g, ord, p, b);
      SetBalBalanced(mem, root, g, ord, h, p, flag, d, b, v);
      RootNode(mem, root, p);
      mem := mem[p := mem[p].(bal := b)];
      h := h[p := v];
    }

    // ----- insertion

    /** The subtree of p on side `flag` has grown by one level; go upstairs and correct. */
    method GrowUp(p0: int, flag0: int)
      requires Standing() && Growing(mem, root, h, height, p0, flag0)
      modifies this`mem, this`root, this`height, this`g, this`h
      ensures Standing() && SameNodes(old(mem), mem) && Balanced(mem, h, NIL, 0, 0) && height == Hgt(h, root)
    {
      hide Links, Placed, Ranked, Balanced;
      var p, flag := p0, flag0;
      while p != NIL
        invariant Standing() && SameNodes(old(mem), mem) && Growing(mem, root, h, height, p, flag)
        decreases Climb(g, ord, p)
      {
        var side := if flag == 0 then -1 else 1;
        GrowFacts(mem, root, h, height, p, flag);
        ClimbFacts(mem, root, g, ord, p);
        RootNode(mem, root, p);
        if mem[p].bal == -side {
          Settle(p, 0, flag, -1, h[p]);
          NothingOff(mem, h, mem[p].up, mem[p].flag, 0);
          return;
        }
        if mem[p].bal == side {
          var t := RotateSubtree(p, flag, -1);
          NothingOff(mem, h, mem[t].up, mem[t].flag, 0);
          return;
        }
        Settle(p, side, flag, -1, h[p] + 1);
        GrowNext(mem, root, h, height, p);
        flag := mem[p].flag;
        p := mem[p].up;
      }
      height := height + 1;
    }

    /** The new node is created and linked, and the tree is corrected. */
    method LinkNew(p: int, flag: int, key: int, ghost lo: int, ghost hi: int) returns (r: int)
      requires Descent(mem, root, g, ord, h, p, NIL, flag, lo, hi) && size == |ord| && height == Hgt(h, root)
      requires (forall x :: x in mem ==> 0 <= x < unused) && 0 <= unused
      modifies this`mem, this`root, this`size, this`height, this`unused, this`g, this`ord, this`h
      ensures Valid() && 0 <= lo <= |old(ord)| && ord == Inserted(old(ord), lo, r)
      ensures r !in old(mem) && Grown(old(mem), mem, r, key)
    {
      hide Links, Placed, Ranked, Balanced, Attached, AttachedPlaces, Descent;
      DescentFacts(mem, root, g, ord, h, p, NIL, flag, lo, hi);
      DescentParts(mem, root, g, ord, h, p, NIL, flag, lo, hi);
      r := unused;
      unused := unused + 1;
      size := size + 1;
      if p == NIL {
        PlantedFirst(mem, g, ord, h, r, key);
        mem := mem[r := Rec(key, 1, NIL, 0, 0, NIL, NIL)];
        g, ord, h := g[r := Pos(0, 0, 1)], [r], h[r := 1];
        root := r;
      } else {
        Planted(mem, root, g, ord, h, p, flag, lo, hi, r, key);
        PlantedRoot(mem, root, h, r, p);
        PlantedGrows(mem, root, h, height, p, flag, r, key);
        ghost var n := AttachedPlaces(g, p, flag, r);
        PlantNode(p, flag, r, key);
        g, ord, h := n, Inserted(ord, lo, r), h[r := 1];
      }
      ghost var planted := mem;
      GrowUp(p, flag);
      SameAfter(old(mem), planted, mem, r, key);
    }

    method PlantNode(p: int, flag: int, r: int, key: int)
      requires p in mem && r !in mem
      modifies this`mem
      ensures mem == Attached(old(mem), p, flag, r, key) && Grown(old(mem), mem, r, key)
    {
      mem := mem[r := Rec(key, 1, p, flag, 0, NIL, NIL)];
      mem := mem[p := WithKid(mem[p], flag, r)];
    }

    /** avl_insert_by_key; k is the position that the new node gets. */
    method InsertByKey(key: int) returns (r: int, ghost k: int)
      requires Valid() && Ordering(fcmp)
      modifies this`mem, this`root, this`size, this`height, this`unused, this`g, this`ord, this`h
      ensures Valid() && 0 <= k <= |old(ord)| && ord == Inserted(old(ord), k, r) && r !in old(mem) && Grown(old(mem), mem, r, key)
      ensures Sorted(fcmp, KeysOf(old(mem), old(ord))) ==>
                FirstNotLess(fcmp, KeysOf(old(mem), old(ord)), key, k) && Sorted(fcmp, KeysOf(mem, ord))
    {
      hide Links, Placed, Ranked, Balanced, Descent, Ordering;
      var p, q, flag := NIL, root, 0;
      ghost var lo, hi, keys := 0, |ord|, KeysOf(mem, ord);
      DescentStart(mem, root, g, ord, h);
      while q != NIL
        invariant Descent(mem, root, g, ord, h, p, q, flag, lo, hi) && SameNodes(old(mem), mem)
        invariant Sorted(fcmp, keys) ==> Between(fcmp, keys, key, lo, hi)
        decreases hi - lo
        modifies this`mem
      {
        DescentFacts(mem, root, g, ord, h, p, q, flag, lo, hi);
        DescentParts(mem, root, g, ord, h, p, q, flag, lo, hi);
        ghost var up, side := p, flag;
        p := q;
        flag := if fcmp(key, mem[p].key) <= 0 then 0 else 1;
        KeyAt(mem, root, g, ord, q);
        KeysSame(old(mem), mem, ord);
        if Sorted(fcmp, keys) {
          Halved(fcmp, keys, key, lo, hi, g[q].at);
        }
        DescentStep(mem, root, g, ord, h, up, q, side, lo, hi, flag, SlotLo(g, q, flag), SlotHi(g, q, flag));
        lo, hi := SlotLo(g, q, flag), SlotHi(g, q, flag);
        if flag == 0 {
          mem := mem[p := mem[p].(rank := mem[p].rank + 1)];
          q := mem[p].left;
        } else {
          q := mem[p].right;
        }
      }
      k := lo;
      DescentFacts(mem, root, g, ord, h, p, q, flag, lo, hi);
      ghost var low := mem;
      r := LinkNew(p, flag, key, lo, hi);
      GrownAfter(old(mem), low, mem, r, key);
      GrownKeys(old(mem), mem, old(g), old(root), old(ord), r, key, k);
      if Sorted(fcmp, keys) {
        StaysSorted(fcmp, keys, key, k);
      }
    }

    /** avl_insert_by_pos; positions are counted from 1, a new node has no key. */
    method InsertByPos(pos: int) returns (r: int)
      requires Valid() && 1 <= pos <= size + 1
      modifies this`mem, this`root, this`size, this`height, this`unused, this`g, this`ord, this`h
      ensures Valid() && ord == Inserted(old(ord), pos - 1, r) && r !in old(mem) && Grown(old(mem), mem, r, 0)
    {
      hide Links, Placed, Ranked, Balanced, Descent;
      var p, q, flag, rest := NIL, root, 0, pos;
      ghost var lo, hi := 0, |ord|;
      DescentStart(mem, root, g, ord, h);
      while q != NIL
        invariant Descent(mem, root, g, ord, h, p, q, flag, lo, hi) && SameNodes(old(mem), mem)
        invariant lo + rest == pos && lo < pos <= hi + 1
        decreases hi - lo
        modifies this`mem
      {
        DescentFacts(mem, root, g, ord, h, p, q, flag, lo, hi);
        DescentRank(mem, root, g, ord, h, p, q, flag, lo, hi);
        ghost var up, side := p, flag;
        p := q;
        flag := if rest <= mem[p].rank then 0 else 1;
        DescentStep(mem, root, g, ord, h, up, q, side, lo, hi, flag, SlotLo(g, q, flag), SlotHi(g, q, flag));
        lo, hi := SlotLo(g, q, flag), SlotHi(g, q, flag);
        if flag == 0 {
          q := mem[p].left;
          mem := mem[p := mem[p].(rank := mem[p].rank + 1)];
        } else {
          q := mem[p].right;
          rest := rest - mem[p].rank;
        }
      }
      DescentFacts(mem, root, g, ord, h, p, q, flag, lo, hi);
      ghost var low := mem;
      r := LinkNew(p, flag, 0, lo, hi);
      GrownAfter(old(mem), low, mem, r, 0);
    }

    // ----- searching

    /** avl_find_next_node. */
    method FindNext(node: int) returns (q: int)
      requires Links(mem, root) && Placed(mem, root, g, ord) && (node == NIL || node in mem)
      ensures node == NIL ==> q == Nth(ord, 0)
      ensures node != NIL ==> node in g && q == Nth(ord, g[node].at + 1)
    {
      hide Links, Placed;
      NoNodes(mem, root, g, ord);
      if root == NIL {
        LinksNone(mem, node);
        return NIL;
      }
      var p := node;
      q := if p == NIL then root else mem[p].right;
      ghost var i := if node == NIL then 0 else PlaceOf(mem, root, g, ord, node) + 1;
      AfterNode(mem, root, g, ord, node);
      if q == NIL {
        while true
          invariant p in mem && p in g && g[p].hi == i
          decreases Climb(g, ord, p)
        {
          ClimbFacts(mem, root, g, ord, p);
          UpNext(mem, root, g, ord, p);
          q := mem[p].up;
          if q == NIL || mem[p].flag == 0 {
            break;
          }
          p := q;
        }
      } else {
        p := mem[q].left;
        while p != NIL
          invariant q in mem && q in g && g[q].lo == i && p == mem[q].left
          decreases g[q].hi - g[q].lo
        {
          DownNext(mem, root, g, ord, q);
          q := p;
          p := mem[q].left;
        }
        DownNext(mem, root, g, ord, q);
      }
    }

    /** avl_find_prev_node. */
    method FindPrev(node: int) returns (q: int)
      requires Links(mem, root) && Placed(mem, root, g, ord) && (node == NIL || node in mem)
      ensures node == NIL ==> q == Nth(ord, |ord| - 1)
      ensures node != NIL ==> node in g && q == Nth(ord, g[node].at - 1)
    {
      hide Links, Placed;
      NoNodes(mem, root, g, ord);
      if root == NIL {
        LinksNone(mem, node);
        return NIL;
      }
      var p := node;
      q := if p == NIL then root else mem[p].left;
      ghost var i := if node == NIL then |ord| else PlaceOf(mem, root, g, ord, node);
      BeforeNode(mem, root, g, ord, node);
      if q == NIL {
        while true
          invariant p in mem && p in g && g[p].lo == i
          decreases Climb(g, ord, p)
        {
          ClimbFacts(mem, root, g, ord, p);
          UpNext(mem, root, g, ord, p);
          q := mem[p].up;
          if q == NIL || mem[p].flag == 1 {
            break;
          }
          p := q;
        }
      } else {
        p := mem[q].right;
        while p != NIL
          invariant q in mem && q in g && g[q].hi == i && p == mem[q].right
          decreases g[q].hi - g[q].lo
        {
          DownNext(mem, root, g, ord, q);
          q := p;
          p := mem[q].right;
        }
        DownNext(mem, root, g, ord, q);
      }
    }

    /** avl_find_by_pos; positions are counted from 1. */
    method FindByPos(pos: int) returns (p: int)
      requires Valid() && 1 <= pos <= size
      ensures p == ord[pos - 1] && p in mem
    {
      hide Links, Placed, Ranked, Balanced;
      NoNodes(mem, root, g, ord);
      p := root;
      var rest := pos;
      while true
        invariant p in mem && p in g && g[p].lo + rest == pos && g[p].lo < pos <= g[p].hi
        decreases g[p].hi - g[p].lo
      {
        DownNext(mem, root, g, ord, p);
        RankAt(mem, g, p);
        if rest == mem[p].rank {
          return;
        }
        if rest < mem[p].rank {
          p := mem[p].left;
        } else {
          rest := rest - mem[p].rank;
          p := mem[p].right;
        }
      }
    }

    /** avl_find_by_key: the first node with the given key. */
    method FindByKey(key: int) returns (p: int, ghost k: int)
      requires Valid() && Ordering(fcmp) && Sorted(fcmp, KeysOf(mem, ord))
      ensures p == NIL ==> forall i :: 0 <= i < |ord| ==> fcmp(key, KeysOf(mem, ord)[i]) != 0
      ensures p != NIL ==> 0 <= k < |ord| && p == ord[k] && fcmp(key, KeysOf(mem, ord)[k]) == 0
      ensures p != NIL ==> FirstNotLess(fcmp, KeysOf(mem, ord), key, k)
    {
      hide Links, Placed, Ranked, Balanced, Ordering;
      ghost var lo, hi, keys := 0, |ord|, KeysOf(mem, ord);
      p, k := root, 0;
      NoNodes(mem, root, g, ord);
      while p != NIL
        invariant 0 <= lo <= hi <= |ord| && Strictly(fcmp, keys, key, lo, hi)
        invariant if p == NIL then lo == hi else p in mem && p in g && g[p].lo == lo && g[p].hi == hi
        decreases hi - lo
      {
        DownNext(mem, root, g, ord, p);
        KeyAt(mem, root, g, ord, p);
        var c := fcmp(key, mem[p].key);
        if c == 0 {
          break;
        }
        Parted(fcmp, keys, key, lo, hi, g[p].at);
        if c < 0 {
          hi := g[p].at;
          p := mem[p].left;
        } else {
          lo := g[p].at + 1;
          p := mem[p].right;
        }
      }
      if p != NIL {
        p, k := FirstOfRun(p, key);
      }
    }

    /** The second loop of avl_find_by_key: back to the first node of the run of equal keys. */
    method FirstOfRun(p0: int, key: int) returns (p: int, ghost k: int)
      requires Valid() && Ordering(fcmp) && Sorted(fcmp, KeysOf(mem, ord)) && p0 in mem && fcmp(key, mem[p0].key) == 0
      ensures 0 <= k < |ord| && p == ord[k] && p in mem && fcmp(key, KeysOf(mem, ord)[k]) == 0
      ensures FirstNotLess(fcmp, KeysOf(mem, ord), key, k)
    {
      hide Links, Placed, Ranked, Balanced, Ordering, Sorted, Between;
      p := p0;
      ghost var keys := KeysOf(mem, ord);
      k := PlaceOf(mem, root, g, ord, p);
      KeyAt(mem, root, g, ord, p);
      while true
        invariant p in mem && p in g && k == g[p].at && 0 <= k < |ord| && ord[k] == p
        invariant keys[k] == mem[p].key && fcmp(key, keys[k]) == 0
        decreases k
      {
        var q := FindPrev(p);
        if q == NIL {
          NthNode(mem, root, g, ord, k - 1);
          LinkAt(mem, root, p);
          RunStarts(fcmp, keys, key, k);
          return;
        }
        NthNode(mem, root, g, ord, k - 1);
        KeyAt(mem, root, g, ord, q);
        if fcmp(mem[q].key, mem[p].key) != 0 {
          RunStarts(fcmp, keys, key, k);
          return;
        }
        RunGoesOn(fcmp, key, mem[p].key, mem[q].key);
        p := q;
        k := k - 1;
      }
    }

    /** avl_next_by_key. */
    method NextByKey(node: int) returns (p: int)
      requires Valid() && node in mem
      ensures node in g && p == (var q := Nth(ord, g[node].at + 1); if q in mem && fcmp(mem[node].key, mem[q].key) == 0 then q else NIL)
    {
      hide Links, Placed, Ranked, Balanced;
      p := FindNext(node);
      LinkAt(mem, root, node);
      if p != NIL {
        NthNode(mem, root, g, ord, g[node].at + 1);
        if fcmp(mem[node].key, mem[p].key) != 0 {
          p := NIL;
        }
      }
    }

    // ----- deletion

    /** Node r takes the place of p in the record of its parent. */
    method Succeed(p: int, r: int)
      requires p in mem && (mem[p].up != NIL ==> mem[p].up in mem)
      modifies this`mem, this`root
      ensures mem == (if old(mem[p].up) == NIL then old(mem) else old(mem)[old(mem[p].up) := WithKid(old(mem[mem[p].up]), old(mem[p].flag), r)])
      ensures root == if old(mem[p].up) == NIL then r else old(root)
    {
      var f := mem[p].up;
      if f == NIL {
        root := r;
      } else {
        mem := mem[f := WithKid(mem[f], mem[p].flag, r)];
      }
    }

    /** The interchange of p with the next node r. */
    method Interchange(p: int, r: int)
      requires Valid() && NextOf(mem, g, p, r)
      modifies this`mem, this`root, this`g, this`ord, this`h
      ensures p in old(mem) && r in old(mem) && mem == Exchanged(old(mem), p, r) && SameNodes(old(mem), mem)
      ensures ord == SwappedOrder(old(ord), p, r) && Standing() && Balanced(mem, h, NIL, 0, 0) && Hgt(h, root) == old(Hgt(h, root))
      ensures p in g && r in old(g) && g[p] == old(g)[r] && mem[p].left == NIL
    {
      hide Links, Placed, Ranked, Balanced, Exchanged, WrittenAt, NextOf, NearWritten, FarWritten;
      NextIn(mem, g, p, r);
      NextFacts(mem, root, g, ord, h, p, r);
      CanExchange(mem, root, g, ord, h, p, r);
      BalAt(mem, h, NIL, 0, 0, p);
      BalAt(mem, h, NIL, 0, 0, r);
      RootNode(mem, root, p);
      BalAt(mem, h, NIL, 0, 0, root);
      ExchangedLinks(mem, root, p, r);
      ExchangedPlaced(mem, root, g, ord, p, r);
      ExchangedRanked(mem, g, p, r);
      ExchangedBalanced(mem, root, h, p, r);
      RootNode(mem, root, r);
      ghost var t := Exchanged(mem, p, r);
      ExchangedNodes(mem, p, r);
      LinkAt(mem, root, p);
      ExchangedLeft(mem, p, r);
      forall z | z in mem ensures t[z] == WrittenAt(mem, p, r, z) {
        WrittenIsExchanged(mem, root, g, ord, h, p, r, z);
      }
      ghost var m := Written(mem, p, r);
      forall z ensures z in m <==> z in mem {
        WrittenKeys(mem, p, r, z);
      }
      forall z | z in mem ensures m[z] == WrittenAt(mem, p, r, z) {
        if mem[p].right == r {
          NearIs(mem, p, r, z);
        } else {
          FarIs(mem, p, r, z);
        }
      }
      if mem[p].right == r {
        WriteNear(p, r);
      } else {
        WriteFar(p, r);
      }
      SameMem(mem, t);
      g, ord, h := Swapped(g, p, r), SwappedOrder(ord, p, r), Swapped(h, p, r);
    }

    /** The assignments of the interchange when r is the right child of p. */
    method WriteNear(p: int, r: int)
      requires Links(mem, root) && Placed(mem, root, g, ord) && Exchangeable(mem, p, r) && mem[p].right == r
      modifies this`mem, this`root
      ensures root == Sw(p, r, old(root)) && mem == NearWritten(old(mem), p, r)
    {
      hide Links, Placed;
      LinkAt(mem, root, p);
      LinkAt(mem, root, r);
      KidNotSelf(mem, root, g, ord, p);
      KidNotSelf(mem, root, g, ord, r);
      assert KidOk(mem, p, 0) && KidOk(mem, p, 1) && KidOk(mem, r, 1);
      var pr, rr := mem[p], mem[r];
      var q, s, x, y := pr.left, rr.right, pr.right, rr.up;
      Succeed(p, r);
      mem := mem[r := rr.(rank := pr.rank, up := pr.up, flag := pr.flag, bal := pr.bal, left := q, right := p)];
      mem := mem[q := mem[q].(up := r)];
      mem := mem[p := pr.(rank := 1, up := r, flag := 1, bal := if s == NIL then 0 else 1, left := NIL, right := s)];
      if s != NIL {
        mem := mem[s := mem[s].(up := p)];
      }
    }

    /** The assignments of the interchange when r is further down. */
    method WriteFar(p: int, r: int)
      requires Links(mem, root) && Placed(mem, root, g, ord) && Exchangeable(mem, p, r) && mem[p].right != r
      modifies this`mem, this`root
      ensures root == Sw(p, r, old(root)) && mem == FarWritten(old(mem), p, r)
    {
      hide Links, Placed;
      LinkAt(mem, root, p);
      LinkAt(mem, root, r);
      KidNotSelf(mem, root, g, ord, p);
      KidNotSelf(mem, root, g, ord, r);
      assert KidOk(mem, p, 0) && KidOk(mem, p, 1) && KidOk(mem, r, 1);
      var pr, rr := mem[p], mem[r];
      var q, s, x, y := pr.left, rr.right, pr.right, rr.up;
      Succeed(p, r);
      mem := mem[r := rr.(rank := pr.rank, up := pr.up, flag := pr.flag, bal := pr.bal, left := q, right := x)];
      mem := mem[q := mem[q].(up := r)];
      mem := mem[x := mem[x].(up := r)];
      mem := mem[y := mem[y].(left := p)];
      mem := mem[p := pr.(rank := 1, up := y, flag := 0, bal := if s == NIL then 0 else 1, left := NIL, right := s)];
      if s != NIL {
        mem := mem[s := mem[s].(up := p)];
      }
    }

    /** The ranks of all nodes that lose a node of their left subtrees. */
    method LowerRanks(p: int)
      requires Standing() && Balanced(mem, h, NIL, 0, 0) && p in mem
      modifies this`mem
      ensures SameButRanks(old(mem), mem) && Links(mem, root) && Placed(mem, root, g, ord) && Balanced(mem, h, NIL, 0, 0)
      ensures p in g && root in g && Lowered(mem, g, root, g[p].at)
    {
      hide Links, Placed, Ranked, Balanced, Lowered, SameButRanks;
      LoweredStart(mem, root, g, ord, p);
      Spans(mem, root, g, ord, p);
      RanksSelf(mem);
      var q := p;
      var f := mem[q].up;
      while f != NIL
        invariant q in mem && q in g && f == mem[q].up && Links(mem, root) && Placed(mem, root, g, ord) && Balanced(mem, h, NIL, 0, 0)
        invariant SameButRanks(old(mem), mem) && g[q].lo <= g[p].at < g[q].hi && Lowered(mem, g, q, g[p].at)
        decreases Climb(g, ord, q)
      {
        LinkAt(mem, root, q);
        ClimbFacts(mem, root, g, ord, q);
        LoweredStep(mem, root, g, ord, q, g[p].at);
        DroppedFrame(mem, f, mem[q].flag);
        RanksFrame(mem, Dropped(mem, f, mem[q].flag), root, g, ord, h, NIL, 0, 0);
        RanksTrans(old(mem), mem, Dropped(mem, f, mem[q].flag));
        if mem[q].flag == 0 {
          mem := mem[f := mem[f].(rank := mem[f].rank - 1)];
        }
        q := f;
        f := mem[q].up;
      }
      RootNode(mem, root, q);
    }

    /** The subtree of f on side `flag` has lost one level; go upstairs and correct. */
    method ShrinkUp(f0: int, flag0: int)
      requires Standing() && Shrinking(mem, root, h, height, f0, flag0)
      modifies this`mem, this`root, this`height, this`g, this`h
      ensures Standing() && SameNodes(old(mem), mem) && Balanced(mem, h, NIL, 0, 0) && height == Hgt(h, root)
    {
      hide Links, Placed, Ranked, Balanced;
      var f, flag := f0, flag0;
      while f != NIL
        invariant Standing() && SameNodes(old(mem), mem) && Shrinking(mem, root, h, height, f, flag)
        decreases Climb(g, ord, f)
      {
        var side := if flag == 0 then -1 else 1;
        ShrinkFacts(mem, root, h, height, f, flag);
        ClimbFacts(mem, root, g, ord, f);
        RootNode(mem, root, f);
        if mem[f].bal == 0 {
          Settle(f, -side, flag, 1, h[f]);
          NothingOff(mem, h, mem[f].up, mem[f].flag, 0);
          return;
        }
        if mem[f].bal == side {
          Settle(f, 0, flag, 1, h[f] - 1);
        } else {
          f := RotateSubtree(f, flag, 1);
          if mem[f].bal == side {
            NothingOff(mem, h, mem[f].up, mem[f].flag, 0);
            return;
          }
        }
        ShrinkNext(mem, root, h, height, f);
        ClimbFacts(mem, root, g, ord, f);
        flag := mem[f].flag;
        f := mem[f].up;
      }
      height := height - 1;
    }

    /** avl_delete_node. */
    method DeleteNode(node: int)
      requires Valid() && node in mem
      modifies this`mem, this`root, this`size, this`height, this`g, this`ord, this`h
      ensures Valid() && node in old(g) && 0 <= old(g)[node].at < |old(ord)| && old(ord)[old(g)[node].at] == node
      ensures ord == Removed(old(ord), old(g)[node].at)
      ensures Lost(old(mem), mem, node) && (Sorted(fcmp, KeysOf(old(mem), old(ord))) ==> Sorted(fcmp, KeysOf(mem, ord)))
    {
      hide Links, Placed, Ranked, Balanced, Exchanged, Unlinked, Closed, Lowered;
      var p := node;
      Spans(mem, root, g, ord, p);
      if mem[p].left != NIL && mem[p].right != NIL {
        var r := FindNext(p);
        HasNext(mem, root, g, ord, p);
        Interchange(p, r);
        Spans(mem, root, g, ord, p);
        SwapRemoved(old(mem), old(root), old(g), old(ord), p, r);
      }
      ghost var m1 := mem;
      RemoveNode(p);
      LostAfter(old(mem), m1, mem, p);
      LostKeys(old(mem), mem, old(root), old(g), old(ord), p, fcmp);
    }

    /** The rest of avl_delete_node: p has at most one child. */
    method RemoveNode(p: int)
      requires Standing() && Balanced(mem, h, NIL, 0, 0) && size == |ord| && height == Hgt(h, root)
      requires p in mem && p in g && (mem[p].left == NIL || mem[p].right == NIL) && 0 <= g[p].at < |ord|
      modifies this`mem, this`root, this`size, this`height, this`g, this`ord, this`h
      ensures Valid() && ord == Removed(old(ord), old(g[p].at)) && Lost(old(mem), mem, p)
    {
      hide Links, Placed, Ranked, Balanced, Unlinked, Closed, Lowered, SameButRanks;
      LowerRanks(p);
      RanksAt(old(mem), mem, p);
      var f, flag := mem[p].up, mem[p].flag;
      var q := if mem[p].left != NIL then mem[p].left else mem[p].right;
      UnlinkedLinks(mem, root, g, ord, p, q);
      UnlinkedPlaced(mem, root, g, ord, p, q);
      UnlinkedRanked(mem, root, g, ord, p, q);
      UnlinkedBalanced(mem, root, g, ord, h, p, q);
      UnlinkedShrinks(mem, root, g, ord, h, height, p, q);
      UnlinkedLost(mem, root, g, ord, p, q);
      RanksLost(old(mem), mem, Unlinked(mem, p, q), p);
      ghost var k := Closed(g, p);
      Unlink(p, q);
      g, ord, h := k, Removed(ord, g[p].at), h - {p};
      size := size - 1;
      ghost var m1 := mem;
      ShrinkUp(f, flag);
      LostSame(old(mem), m1, mem, p);
    }

    /** Child q takes the place of p, and p returns to the pool. */
    method Unlink(p: int, q: int)
      requires Links(mem, root) && Placed(mem, root, g, ord) && OneKid(mem, p, q)
      modifies this`mem, this`root
      ensures mem == Unlinked(old(mem), p, q) && root == RootWithout(old(mem), old(root), p, q)
    {
      hide Links, Placed;
      LinkAt(mem, root, p);
      KidNotSelf(mem, root, g, ord, p);
      assert KidOk(mem, p, 0) && KidOk(mem, p, 1);
      var f, flag := mem[p].up, mem[p].flag;
      Succeed(p, q);
      if q != NIL {
        mem := mem[q := mem[q].(up := f, flag := flag)];
      }
      mem := mem - {p};
    }
  }
}
