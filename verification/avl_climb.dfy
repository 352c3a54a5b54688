/** One step of the loops that go upstairs to the root and correct balances. */
module AvlClimb {
  import opened AvlModel
  import opened AvlRotate
  import opened AvlDouble

  function SetBal(mem: Mem, p: int, b: int): Mem
    requires p in mem
  {
    mem[p := mem[p].(bal := b)]
  }

  lemma SetBalStructure(mem: Mem, root: int, g: Places, ord: seq<int>, p: int, b: int)
    requires Links(mem, root) && Placed(mem, root, g, ord) && Ranked(mem, g) && p in mem
    ensures Links(SetBal(mem, p, b), root) && Placed(SetBal(mem, p, b), root, g, ord) && Ranked(SetBal(mem, p, b), g)
  {
    hide Links, Placed, Ranked;
    var t := SetBal(mem, p, b);
    assert SameStructure(t, mem);
    StructureLinks(t, mem, root);
    StructurePlaced(t, mem, root, g, ord);
  }

  /** Node p takes balance b and height v, and the heights of its children as they are; its parent still assumes the old height. */
  lemma SetBalBalanced(mem: Mem, root: int, g: Places, ord: seq<int>, h: Heights, p: int, flag: int, d: int, b: int, v: int)
    requires Links(mem, root) && Placed(mem, root, g, ord) && Balanced(mem, h, p, flag, d) && p in mem && p in h
    requires var l, r := Hgt(h, mem[p].left), Hgt(h, mem[p].right);
             b == r - l && -1 <= b <= 1 && v == 1 + if l < r then r else l
    ensures Balanced(SetBal(mem, p, b), h[p := v], mem[p].up, mem[p].flag, h[p] - v)
  {
    hide Links, Placed, Balanced, BalOk;
    var t, n := SetBal(mem, p, b), h[p := v];
    NoHeight(mem, h, p, flag, d, mem[p].left);
    NoHeight(mem, h, p, flag, d, mem[p].right);
    HeightKeys(mem, h, p, flag, d);
    forall x | x in mem && x in n ensures n[x] >= 1 && BalOk(t, n, x, mem[p].up, mem[p].flag, h[p] - v) {
      if x == p {
        SetBalHere(mem, root, g, ord, h, p, b, v);
      } else {
        SetBalElse(mem, root, h, p, flag, d, b, v, x);
      }
    }
    BalancedIntro(t, n, mem[p].up, mem[p].flag, h[p] - v);
  }

  lemma SetBalHere(mem: Mem, root: int, g: Places, ord: seq<int>, h: Heights, p: int, b: int, v: int)
    requires Links(mem, root) && Placed(mem, root, g, ord) && p in mem && p in h
    requires var l, r := Hgt(h, mem[p].left), Hgt(h, mem[p].right);
             b == r - l && -1 <= b <= 1 && v == 1 + if l < r then r else l
    ensures BalOk(SetBal(mem, p, b), h[p := v], p, mem[p].up, mem[p].flag, h[p] - v)
  {
    hide Links, Placed;
    KidNotSelf(mem, root, g, ord, p);
  }

  lemma SetBalElse(mem: Mem, root: int, h: Heights, p: int, flag: int, d: int, b: int, v: int, x: int)
    requires Links(mem, root) && Balanced(mem, h, p, flag, d) && p in mem && p in h && x in mem && x != p
    ensures x in h && h[x] >= 1 && BalOk(SetBal(mem, p, b), h[p := v], x, mem[p].up, mem[p].flag, h[p] - v)
  {
    hide Links, Balanced, Assumed;
    SeesSame(mem, root, h, p, flag, d, b, v, x, 0);
    SeesSame(mem, root, h, p, flag, d, b, v, x, 1);
    BalAt(mem, h, p, flag, d, x);
  }

  lemma SeesSame(mem: Mem, root: int, h: Heights, p: int, flag: int, d: int, b: int, v: int, x: int, e: int)
    requires Links(mem, root) && p in mem && p in h && x in mem && x != p && (e == 0 || e == 1)
    ensures Assumed(SetBal(mem, p, b), h[p := v], x, e, mem[p].up, mem[p].flag, h[p] - v) == Assumed(mem, h, x, e, p, flag, d)
  {
    hide Links;
    LinkAt(mem, root, p);
    LinkAt(mem, root, x);
    assert KidOk(mem, x, e);
  }

  /** No node is its own child. */
  lemma KidNotSelf(mem: Mem, root: int, g: Places, ord: seq<int>, x: int)
    requires Links(mem, root) && Placed(mem, root, g, ord) && x in mem
    ensures mem[x].left != x && mem[x].right != x && mem[x].up != x
  {
    hide Links, Placed;
    LinkAt(mem, root, x);
    PosAt(mem, root, g, ord, x);
  }

  lemma HeightKeys(mem: Mem, h: Heights, f: int, flag: int, d: int)
    requires Balanced(mem, h, f, flag, d)
    ensures forall x :: x in mem <==> x in h
  {
  }

  lemma BalancedIntro(mem: Mem, h: Heights, f: int, flag: int, d: int)
    requires forall x :: x in mem <==> x in h
    requires forall x {:trigger BalOk(mem, h, x, f, flag, d)} :: x in mem && x in h ==> h[x] >= 1 && BalOk(mem, h, x, f, flag, d)
    ensures Balanced(mem, h, f, flag, d)
  {
    forall x | x in h ensures h[x] >= 1 {
      assert BalOk(mem, h, x, f, flag, d);
    }
  }

  /** With no difference, or above the root, nothing is off. */
  lemma NothingOff(mem: Mem, h: Heights, f: int, flag: int, d: int)
    requires Balanced(mem, h, f, flag, d) && (d == 0 || f !in mem)
    ensures Balanced(mem, h, NIL, 0, 0)
  {
    forall x | x in mem && x in h ensures BalOk(mem, h, x, NIL, 0, 0) {
      assert BalOk(mem, h, x, f, flag, d);
    }
  }

  // ----- both kinds of rotation

  predicate Straight(mem: Mem, p: int, s: int)
    requires Heavy(mem, p, s)
  {
    if s == 0 then mem[Kid(mem[p], s)].bal <= 0 else mem[Kid(mem[p], s)].bal >= 0
  }

  /** The node that comes to the top. */
  function Riser(mem: Mem, p: int, s: int): int
    requires Heavy(mem, p, s)
  {
    var q := Kid(mem[p], s);
    if Straight(mem, p, s) then q else Kid(mem[q], 1 - s)
  }

  ghost predicate Unbalanced(mem: Mem, root: int, g: Places, ord: seq<int>, h: Heights, p: int, s: int, flag: int, d: int) {
    && Links(mem, root) && Placed(mem, root, g, ord) && Ranked(mem, g) && Balanced(mem, h, p, flag, d)
    && (s == 0 || s == 1) && p in mem && TooHigh(mem, h, p, s)
  }

  lemma HeavySide(mem: Mem, root: int, g: Places, ord: seq<int>, h: Heights, p: int, s: int, flag: int, d: int)
    requires Unbalanced(mem, root, g, ord, h, p, s, flag, d)
    ensures Heavy(mem, p, s) && p in h && p in g && Kid(mem[p], s) in h && h[Kid(mem[p], s)] >= 2 && Kid(mem[p], s) != p
    ensures !Straight(mem, p, s) ==> HeavyTwice(mem, p, s)
  {
    hide Links, Placed, Ranked, Balanced;
    BalAt(mem, h, p, flag, d, p);
    LinkAt(mem, root, p);
    PosAt(mem, root, g, ord, p);
    NoHeight(mem, h, p, flag, d, Kid(mem[p], 1 - s));
    HeightKeys(mem, h, p, flag, d);
    Apart(mem, root, g, ord, p, s);
    if !Straight(mem, p, s) {
      TwiceCaseFacts(mem, root, h, p, s, flag, d);
    }
  }

  function Rotated(mem: Mem, p: int, s: int): Mem
    requires Heavy(mem, p, s) && (Straight(mem, p, s) || HeavyTwice(mem, p, s))
  {
    if Straight(mem, p, s) then Turn(mem, p, s) else Twice(mem, p, s)
  }

  function RotatedPlaces(mem: Mem, g: Places, p: int, s: int): Places
    requires Heavy(mem, p, s) && p in g && Kid(mem[p], s) in g && (!Straight(mem, p, s) ==> HeavyTwice(mem, p, s) && Kid(mem[Kid(mem[p], s)], 1 - s) in g)
  {
    if Straight(mem, p, s) then TurnPlaces(g, p, Kid(mem[p], s), s) else TwicePlaces(mem, g, p, s)
  }

  function RotatedHeights(mem: Mem, h: Heights, p: int, s: int): Heights
    requires Heavy(mem, p, s) && (Straight(mem, p, s) || HeavyTwice(mem, p, s))
  {
    var q := Kid(mem[p], s);
    var r := Kid(mem[q], 1 - s);
    if Straight(mem, p, s) then TurnHeights(h, p, q, r) else TwiceHeights(h, p, q, r)
  }

  lemma RotatedStructure(mem: Mem, root: int, g: Places, ord: seq<int>, h: Heights, p: int, s: int, flag: int, d: int)
    requires Unbalanced(mem, root, g, ord, h, p, s, flag, d) && Heavy(mem, p, s) && (Straight(mem, p, s) || HeavyTwice(mem, p, s))
    ensures p in g && Kid(mem[p], s) in g && (!Straight(mem, p, s) ==> Kid(mem[Kid(mem[p], s)], 1 - s) in g)
    ensures var t, top, k := Rotated(mem, p, s), TopAfter(mem, root, p, Riser(mem, p, s)), RotatedPlaces(mem, g, p, s);
            Links(t, top) && Placed(t, top, k, ord) && Ranked(t, k)
  {
    hide Links, Placed, Ranked, Balanced, Turn, Twice, TurnPlaces, TwicePlaces;
    PosAt(mem, root, g, ord, p);
    PosAt(mem, root, g, ord, Kid(mem[p], s));
    if Straight(mem, p, s) {
      TurnLinks(mem, root, g, ord, p, s);
      TurnPlaced(mem, root, g, ord, p, s);
      TurnRanked(mem, root, g, ord, p, s);
    } else {
      TwiceStructure(mem, root, g, ord, p, s);
    }
  }

  /** The balances after a rotation, and the height of the new top: the old height of the heavy child, or one more if that was even. */
  lemma RotatedBalanced(mem: Mem, root: int, g: Places, ord: seq<int>, h: Heights, p: int, s: int, flag: int, d: int)
    requires Unbalanced(mem, root, g, ord, h, p, s, flag, d) && Heavy(mem, p, s) && (Straight(mem, p, s) || HeavyTwice(mem, p, s))
    requires p in h && Kid(mem[p], s) in h
    ensures var t, k, z, q := Rotated(mem, p, s), RotatedHeights(mem, h, p, s), Riser(mem, p, s), Kid(mem[p], s);
            && z in k && Balanced(t, k, mem[p].up, mem[p].flag, h[p] - k[z])
            && k[z] == (if mem[q].bal == 0 then h[q] + 1 else h[q])
            && z in t && t[z].bal == (if mem[q].bal != 0 then 0 else if s == 0 then 1 else -1)
            && t[z].up == mem[p].up && t[z].flag == mem[p].flag
  {
    hide Links, Placed, Ranked, Balanced, Turn, Twice;
    Apart(mem, root, g, ord, p, s);
    var q := Kid(mem[p], s);
    BalAt(mem, h, p, flag, d, q);
    if Straight(mem, p, s) {
      TurnBalanced(mem, root, g, ord, h, p, s, flag, d);
      TurnAt(mem, root, g, ord, p, s, q);
      TurnCaseFacts(mem, h, p, s, flag, d);
    } else {
      TwiceBalanced(mem, root, g, ord, h, p, s, flag, d);
      SixApart(mem, root, g, ord, p, s);
      TwiceAt(mem, root, g, ord, p, s, Kid(mem[q], 1 - s));
      TwiceCaseFacts(mem, root, h, p, s, flag, d);
    }
  }

  /** Keys stay, heights outside the three nodes stay, and the new top holds the positions of the old one. */
  lemma RotatedFrame(mem: Mem, root: int, g: Places, ord: seq<int>, h: Heights, p: int, s: int, flag: int, d: int, x: int)
    requires Unbalanced(mem, root, g, ord, h, p, s, flag, d) && Heavy(mem, p, s) && (Straight(mem, p, s) || HeavyTwice(mem, p, s))
    requires x in mem && p in g && Kid(mem[p], s) in g && (!Straight(mem, p, s) ==> Kid(mem[Kid(mem[p], s)], 1 - s) in g)
    ensures x in Rotated(mem, p, s) && Rotated(mem, p, s)[x].key == mem[x].key
    ensures mem[x].up == NIL && x != p ==> Hgt(RotatedHeights(mem, h, p, s), x) == Hgt(h, x)
    ensures var k, z := RotatedPlaces(mem, g, p, s), Riser(mem, p, s); z in k && k[z].lo == g[p].lo && k[z].hi == g[p].hi
  {
    hide Links, Placed, Ranked, Balanced, Turn, Twice;
    Apart(mem, root, g, ord, p, s);
    LinkAt(mem, root, x);
    LinkAt(mem, root, p);
    LinkAt(mem, root, Kid(mem[p], s));
    if Straight(mem, p, s) {
      TurnAt(mem, root, g, ord, p, s, x);
    } else {
      SixApart(mem, root, g, ord, p, s);
      TwiceAt(mem, root, g, ord, p, s, x);
    }
  }

  lemma RotatedKeys(mem: Mem, p: int, s: int, x: int)
    requires Heavy(mem, p, s) && (Straight(mem, p, s) || HeavyTwice(mem, p, s))
    ensures x in Rotated(mem, p, s) <==> x in mem
  {
    hide Turn, Twice;
    if Straight(mem, p, s) {
      TurnKeys(mem, p, s, x);
    } else {
      TwiceKeys(mem, p, s, x);
    }
  }
}
