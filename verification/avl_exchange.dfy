/** avl_delete_node, first part: a node with two children is interchanged with the next one. */
module AvlExchange {
  import opened AvlModel
  import opened AvlRotate
  import opened AvlInsert
  import opened AvlClimb

  function Sw(p: int, r: int, x: int): int {
    if x == p then r else if x == r then p else x
  }

  /** A record taken over by a node with another key, in a tree where p and r have changed places. */
  function Moved(rec: Rec, key: int, p: int, r: int): Rec {
    Rec(key, rec.rank, Sw(p, r, rec.up), rec.flag, rec.bal, Sw(p, r, rec.left), Sw(p, r, rec.right))
  }

  function Exchanged(mem: Mem, p: int, r: int): Mem
    requires p in mem && r in mem
  {
    map x | x in mem :: Moved(mem[Sw(p, r, x)], mem[x].key, p, r)
  }

  function Swapped<T>(m: map<int, T>, p: int, r: int): map<int, T>
    requires p in m && r in m
  {
    m[p := m[r]][r := m[p]]
  }

  function SwappedOrder(ord: seq<int>, p: int, r: int): (t: seq<int>)
    ensures |t| == |ord| && forall i :: 0 <= i < |ord| ==> t[i] == Sw(p, r, ord[i])
  {
    seq(|ord|, i requires 0 <= i < |ord| => Sw(p, r, ord[i]))
  }

  lemma ExchangedLinks(mem: Mem, root: int, p: int, r: int)
    requires Links(mem, root) && p in mem && r in mem && p != r
    ensures Links(Exchanged(mem, p, r), Sw(p, r, root))
  {
    hide Links;
    var t, top := Exchanged(mem, p, r), Sw(p, r, root);
    LinkAt(mem, root, p);
    forall x | x in t ensures LinkOk(t, top, x) {
      var y := Sw(p, r, x);
      LinkAt(mem, root, y);
      assert KidOk(mem, y, 0) && KidOk(mem, y, 1);
    }
    RootIn(mem, root, p);
    LinksIntro(t, top);
  }

  lemma RootIn(mem: Mem, root: int, p: int)
    requires Links(mem, root) && p in mem
    ensures root in mem
  {
  }

  lemma LinksIntro(mem: Mem, root: int)
    requires NIL !in mem && root in mem && forall x {:trigger LinkOk(mem, root, x)} :: x in mem ==> LinkOk(mem, root, x)
    ensures Links(mem, root)
  {
  }

  lemma ExchangedPos(mem: Mem, root: int, g: Places, ord: seq<int>, p: int, r: int, x: int)
    requires Links(mem, root) && Placed(mem, root, g, ord) && p in mem && r in mem && p != r && p in g && r in g && x in mem
    ensures PosOk(Exchanged(mem, p, r), Swapped(g, p, r), x)
  {
    hide Links, Placed;
    LinkAt(mem, root, p);
    PosAt(mem, root, g, ord, Sw(p, r, x));
  }

  lemma ExchangedOrder(mem: Mem, g: Places, ord: seq<int>, p: int, r: int)
    requires Order(mem, g, ord) && p in mem && r in mem && p in g && r in g
    ensures Order(Exchanged(mem, p, r), Swapped(g, p, r), SwappedOrder(ord, p, r))
  {
    var n, s := Swapped(g, p, r), SwappedOrder(ord, p, r);
    forall x | x in n ensures 0 <= n[x].at < |s| && s[n[x].at] == x {
      assert Sw(p, r, x) in g && n[x] == g[Sw(p, r, x)];
    }
    forall i | 0 <= i < |s| ensures s[i] in n && n[s[i]].at == i {
      assert ord[i] in g && n[s[i]] == g[ord[i]];
    }
  }

  lemma ExchangedPlaced(mem: Mem, root: int, g: Places, ord: seq<int>, p: int, r: int)
    requires Links(mem, root) && Placed(mem, root, g, ord) && p in mem && r in mem && p != r && p in g && r in g
    ensures Placed(Exchanged(mem, p, r), Sw(p, r, root), Swapped(g, p, r), SwappedOrder(ord, p, r))
  {
    hide Links, PosOk, Order;
    var t, n := Exchanged(mem, p, r), Swapped(g, p, r);
    ExchangedOrder(mem, g, ord, p, r);
    forall x | x in t ensures PosOk(t, n, x) {
      ExchangedPos(mem, root, g, ord, p, r, x);
    }
  }

  lemma ExchangedRanked(mem: Mem, g: Places, p: int, r: int)
    requires Ranked(mem, g) && p in mem && r in mem && p in g && r in g
    ensures Ranked(Exchanged(mem, p, r), Swapped(g, p, r))
  {
    var t, n := Exchanged(mem, p, r), Swapped(g, p, r);
    forall x | x in t && x in n ensures RankOk(t, n, x) {
      assert RankOk(mem, g, Sw(p, r, x));
    }
  }

  /** Every node of the exchanged tree has at its links the heights that its predecessor had. */
  lemma SwappedHeight(h: Heights, p: int, r: int, x: int)
    requires p in h && r in h
    ensures Hgt(Swapped(h, p, r), Sw(p, r, x)) == Hgt(h, x)
  {
  }

  lemma ExchangedBal(mem: Mem, h: Heights, p: int, r: int, x: int)
    requires Balanced(mem, h, NIL, 0, 0) && p in mem && r in mem && p in h && r in h && x in mem && x in h && NIL !in mem
    ensures BalOk(Exchanged(mem, p, r), Swapped(h, p, r), x, NIL, 0, 0)
  {
    hide Balanced;
    var y := Sw(p, r, x);
    HeightKeys(mem, h, NIL, 0, 0);
    BalAt(mem, h, NIL, 0, 0, y);
    SwappedHeight(h, p, r, y);
    SwappedHeight(h, p, r, mem[y].left);
    SwappedHeight(h, p, r, mem[y].right);
  }

  lemma ExchangedBalanced(mem: Mem, root: int, h: Heights, p: int, r: int)
    requires Links(mem, root) && Balanced(mem, h, NIL, 0, 0) && p in mem && r in mem && p != r && p in h && r in h
    ensures Balanced(Exchanged(mem, p, r), Swapped(h, p, r), NIL, 0, 0)
  {
    hide Links, Balanced, BalOk;
    var t, n := Exchanged(mem, p, r), Swapped(h, p, r);
    NilOut(mem, root);
    HeightKeys(mem, h, NIL, 0, 0);
    forall x | x in t && x in n ensures n[x] >= 1 && BalOk(t, n, x, NIL, 0, 0) {
      ExchangedBal(mem, h, p, r, x);
      BalAt(mem, h, NIL, 0, 0, Sw(p, r, x));
    }
    BalancedIntro(t, n, NIL, 0, 0);
  }

  lemma NilOut(mem: Mem, root: int)
    requires Links(mem, root)
    ensures NIL !in mem
  {
  }

  // ----- what the routine writes

  /** Node r is the next node of p: its left subtree is empty, and it is the right child of p or a left child further down. */
  ghost predicate NextOf(mem: Mem, g: Places, p: int, r: int) {
    && p in mem && r in mem && p in g && r in g && g[r].at == g[p].at + 1
    && mem[p].left != NIL && mem[p].right != NIL
  }

  lemma NextFacts(mem: Mem, root: int, g: Places, ord: seq<int>, h: Heights, p: int, r: int)
    requires Links(mem, root) && Placed(mem, root, g, ord) && Ranked(mem, g) && Balanced(mem, h, NIL, 0, 0) && NextOf(mem, g, p, r)
    ensures p != r && mem[r].left == NIL && mem[r].rank == 1 && mem[r].bal == (if mem[r].right == NIL then 0 else 1)
    ensures mem[p].right != r ==> mem[r].up in mem && mem[r].up != p && mem[r].flag == 0
    ensures mem[p].right == r ==> mem[r].up == p && mem[r].flag == 1
  {
    hide Links, Placed, Ranked, Balanced;
    PosAt(mem, root, g, ord, p);
    PosAt(mem, root, g, ord, r);
    LinkAt(mem, root, p);
    LinkAt(mem, root, r);
    assert KidOk(mem, p, 1) && KidOk(mem, r, 0) && KidOk(mem, r, 1);
    PosAt(mem, root, g, ord, mem[p].right);
    Below(mem, root, g, ord, mem[p].right, r);
    RankAt(mem, g, r);
    BalAt(mem, h, NIL, 0, 0, r);
    HeightKeys(mem, h, NIL, 0, 0);
    if mem[r].left != NIL {
      NothingBetween(mem, root, g, ord, p, r);
    }
    if mem[r].right != NIL {
      BalAt(mem, h, NIL, 0, 0, mem[r].right);
    }
    if mem[p].right != r {
      PosAt(mem, root, g, ord, mem[r].up);
      Below(mem, root, g, ord, mem[p].right, mem[r].up);
    }
  }

  lemma RankAt(mem: Mem, g: Places, x: int)
    requires Ranked(mem, g) && x in mem && x in g
    ensures RankOk(mem, g, x)
  {
  }

  /** Between p and the next node there is no room for a left subtree. */
  lemma NothingBetween(mem: Mem, root: int, g: Places, ord: seq<int>, p: int, r: int)
    requires Links(mem, root) && Placed(mem, root, g, ord) && NextOf(mem, g, p, r)
    ensures mem[r].left == NIL
  {
    hide Links, Placed;
    PosAt(mem, root, g, ord, p);
    PosAt(mem, root, g, ord, r);
    LinkAt(mem, root, p);
    LinkAt(mem, root, r);
    assert KidOk(mem, p, 1) && KidOk(mem, r, 0);
    PosAt(mem, root, g, ord, mem[p].right);
    Below(mem, root, g, ord, mem[p].right, r);
    if mem[r].left != NIL {
      PosAt(mem, root, g, ord, mem[r].left);
    }
  }

  /** The records as the routine leaves them. */
  function WrittenAt(mem: Mem, p: int, r: int, z: int): Rec
    requires p in mem && r in mem && z in mem
  {
    var f, q, s, x, y := mem[p].up, mem[p].left, mem[r].right, mem[p].right, mem[r].up;
    if z == r then mem[r].(rank := mem[p].rank, up := f, flag := mem[p].flag, bal := mem[p].bal, left := q, right := if x == r then p else x)
    else if z == p then mem[p].(rank := 1, up := if x == r then r else y, flag := if x == r then 1 else 0, bal := if s == NIL then 0 else 1,
                                left := NIL, right := s)
    else
      var a := if z == f then WithKid(mem[z], mem[p].flag, r) else mem[z];
      var b := if z == q || z == x then a.(up := r) else a;
      var c := if z == y && x != r then b.(left := p) else b;
      if z == s then c.(up := p) else c
  }

  lemma WrittenIsExchanged(mem: Mem, root: int, g: Places, ord: seq<int>, h: Heights, p: int, r: int, z: int)
    requires Links(mem, root) && Placed(mem, root, g, ord) && Ranked(mem, g) && Balanced(mem, h, NIL, 0, 0) && NextOf(mem, g, p, r)
    requires z in mem
    ensures z in Exchanged(mem, p, r) && Exchanged(mem, p, r)[z] == WrittenAt(mem, p, r, z)
  {
    hide Links, Placed, Ranked, Balanced, NextOf;
    NextIn(mem, g, p, r);
    NextFacts(mem, root, g, ord, h, p, r);
    LinkAt(mem, root, p);
    LinkAt(mem, root, r);
    LinkAt(mem, root, z);
    KidNotSelf(mem, root, g, ord, p);
    KidNotSelf(mem, root, g, ord, r);
    KidNotSelf(mem, root, g, ord, z);
    assert KidOk(mem, p, 0) && KidOk(mem, p, 1) && KidOk(mem, r, 1) && KidOk(mem, z, 0) && KidOk(mem, z, 1);
    NotAboveOwn(mem, root, g, ord, p, r);
  }

  lemma NextIn(mem: Mem, g: Places, p: int, r: int)
    requires NextOf(mem, g, p, r)
    ensures p in mem && r in mem && p in g && r in g && mem[p].left != NIL && mem[p].right != NIL
  {
  }

  lemma NotAboveOwn(mem: Mem, root: int, g: Places, ord: seq<int>, p: int, r: int)
    requires Links(mem, root) && Placed(mem, root, g, ord) && NextOf(mem, g, p, r)
    ensures mem[p].up != r && mem[r].right != p && mem[p].left != r
  {
    hide Links, Placed;
    PosAt(mem, root, g, ord, p);
    PosAt(mem, root, g, ord, r);
    LinkAt(mem, root, p);
    NothingBetween(mem, root, g, ord, p, r);
    PosAt(mem, root, g, ord, mem[p].right);
    Below(mem, root, g, ord, mem[p].right, r);
  }

  predicate Exchangeable(mem: Mem, p: int, r: int) {
    && p in mem && r in mem && p != r && NIL !in mem
    && mem[p].left in mem && mem[p].right in mem && (mem[r].right == NIL || mem[r].right in mem) && (mem[p].up == NIL || mem[p].up in mem)
    && mem[r].left == NIL && mem[p].up != r && mem[p].up != p && mem[r].right != p && mem[r].right != r && mem[p].left != r && mem[p].left != p
    && mem[p].right != p && (mem[p].right != r ==> mem[r].up in mem && mem[r].up != p && mem[r].up != r)
  }

  function NearWritten(mem: Mem, p: int, r: int): Mem
    requires Exchangeable(mem, p, r)
  {
    var pr, rr := mem[p], mem[r];
    var q, s := pr.left, rr.right;
    var m := SetKid(mem, pr.up, pr.flag, r);
    var m := m[r := rr.(rank := pr.rank, up := pr.up, flag := pr.flag, bal := pr.bal, left := q, right := p)];
    var m := m[q := m[q].(up := r)];
    var m := m[p := pr.(rank := 1, up := r, flag := 1, bal := if s == NIL then 0 else 1, left := NIL, right := s)];
    if s == NIL then m else m[s := m[s].(up := p)]
  }

  function FarWritten(mem: Mem, p: int, r: int): Mem
    requires Exchangeable(mem, p, r) && mem[p].right != r
  {
    var pr, rr := mem[p], mem[r];
    var q, s, x, y := pr.left, rr.right, pr.right, rr.up;
    var m := SetKid(mem, pr.up, pr.flag, r);
    var m := m[r := rr.(rank := pr.rank, up := pr.up, flag := pr.flag, bal := pr.bal, left := q, right := x)];
    var m := m[q := m[q].(up := r)];
    var m := m[x := m[x].(up := r)];
    var m := m[y := m[y].(left := p)];
    var m := m[p := pr.(rank := 1, up := y, flag := 0, bal := if s == NIL then 0 else 1, left := NIL, right := s)];
    if s == NIL then m else m[s := m[s].(up := p)]
  }

  /** The memory after the assignments of the interchange. */
  function Written(mem: Mem, p: int, r: int): Mem
    requires Exchangeable(mem, p, r)
  {
    if mem[p].right == r then NearWritten(mem, p, r) else FarWritten(mem, p, r)
  }

  lemma WrittenKeys(mem: Mem, p: int, r: int, z: int)
    requires Exchangeable(mem, p, r)
    ensures z in Written(mem, p, r) <==> z in mem
  {
  }

  lemma CanExchange(mem: Mem, root: int, g: Places, ord: seq<int>, h: Heights, p: int, r: int)
    requires Links(mem, root) && Placed(mem, root, g, ord) && Ranked(mem, g) && Balanced(mem, h, NIL, 0, 0) && NextOf(mem, g, p, r)
    ensures Exchangeable(mem, p, r)
  {
    hide Links, Placed, Ranked, Balanced, NextOf;
    NextIn(mem, g, p, r);
    NextFacts(mem, root, g, ord, h, p, r);
    NotAboveOwn(mem, root, g, ord, p, r);
    LinkAt(mem, root, p);
    LinkAt(mem, root, r);
    KidNotSelf(mem, root, g, ord, p);
    KidNotSelf(mem, root, g, ord, r);
    assert KidOk(mem, p, 0) && KidOk(mem, p, 1) && KidOk(mem, r, 1);
  }

  lemma NearIs(mem: Mem, p: int, r: int, z: int)
    requires Exchangeable(mem, p, r) && mem[p].right == r && z in mem
    ensures z in NearWritten(mem, p, r) && NearWritten(mem, p, r)[z] == WrittenAt(mem, p, r, z)
  {
  }

  lemma FarIs(mem: Mem, p: int, r: int, z: int)
    requires Exchangeable(mem, p, r) && mem[p].right != r && z in mem
    ensures z in FarWritten(mem, p, r) && FarWritten(mem, p, r)[z] == WrittenAt(mem, p, r, z)
  {
  }
}
