/** The double rotation of avl_rotate_subtree is a single rotation of the heavy child followed by one of the node itself;
    only the balances differ. */
module AvlDouble {
  import opened AvlModel
  import opened AvlRotate

  predicate HeavyTwice(mem: Mem, p: int, s: int) {
    Heavy(mem, p, s) && Heavy(mem, Kid(mem[p], s), 1 - s)
  }

  function TopRec(p: Rec, q: Rec, r: Rec, pid: int, qid: int, s: int): Rec {
    Hang(WithKid(WithKid(r, s, qid), 1 - s, pid), p.up, p.flag).(bal := 0, rank := if s == 0 then r.rank + q.rank else r.rank + p.rank)
  }

  function ChildRec(q: Rec, r: Rec, rid: int, s: int): Rec {
    Hang(WithKid(q, 1 - s, Kid(r, s)), rid, s).(
    bal := if s == 0 then (if r.bal <= 0 then 0 else -1) else (if r.bal >= 0 then 0 else 1),
    rank := if s == 0 then q.rank else q.rank - r.rank)
  }

  function NodeRec(p: Rec, q: Rec, r: Rec, rid: int, s: int): Rec {
    Hang(WithKid(p, s, Kid(r, 1 - s)), rid, 1 - s).(
    bal := if s == 0 then (if r.bal >= 0 then 0 else 1) else (if r.bal <= 0 then 0 else -1),
    rank := if s == 0 then p.rank - (q.rank + r.rank) else p.rank)
  }

  /** The memory after a double rotation, as the routine writes it. */
  function Twice(mem: Mem, p: int, s: int): Mem
    requires HeavyTwice(mem, p, s)
  {
    var q := Kid(mem[p], s);
    var r := Kid(mem[q], 1 - s);
    var m := SetKid(mem, mem[p].up, mem[p].flag, r);
    var m := m[p := NodeRec(mem[p], mem[q], mem[r], r, s)][q := ChildRec(mem[q], mem[r], r, s)][r := TopRec(mem[p], mem[q], mem[r], p, q, s)];
    SetUp(SetUp(m, Kid(mem[r], s), q, 1 - s), Kid(mem[r], 1 - s), p, s)
  }

  /** The six nodes that a double rotation touches are different. */
  lemma SixApart(mem: Mem, root: int, g: Places, ord: seq<int>, p: int, s: int)
    requires Links(mem, root) && Placed(mem, root, g, ord) && HeavyTwice(mem, p, s)
    ensures var q := Kid(mem[p], s);
            var f, r := mem[p].up, Kid(mem[q], 1 - s);
            var a, b := Kid(mem[r], s), Kid(mem[r], 1 - s);
            && p != q && p != r && q != r && f != p && f != q && f != r && (f != NIL ==> f in mem)
            && (a != NIL ==> a in mem && a != p && a != q && a != r && a != f && a != b)
            && (b != NIL ==> b in mem && b != p && b != q && b != r && b != f)
  {
    hide Links, Placed;
    var q := Kid(mem[p], s);
    var f, r := mem[p].up, Kid(mem[q], 1 - s);
    Apart(mem, root, g, ord, p, s);
    Apart(mem, root, g, ord, q, 1 - s);
    LinkAt(mem, root, p);
    LinkAt(mem, root, q);
    LinkAt(mem, root, r);
    PosAt(mem, root, g, ord, p);
    PosAt(mem, root, g, ord, q);
    PosAt(mem, root, g, ord, r);
    if f != NIL {
      PosAt(mem, root, g, ord, f);
      LinkAt(mem, root, f);
    }
    Grandkid(mem, root, g, ord, r, s);
    Grandkid(mem, root, g, ord, r, 1 - s);
  }

  lemma Grandkid(mem: Mem, root: int, g: Places, ord: seq<int>, r: int, s: int)
    requires Links(mem, root) && Placed(mem, root, g, ord) && r in mem && (s == 0 || s == 1)
    ensures var a := Kid(mem[r], s); a != NIL ==> a in mem && mem[a].up == r && mem[a].flag == s && a in g && r in g && g[a].hi - g[a].lo < g[r].hi - g[r].lo
  {
    assert LinkOk(mem, root, r) && KidOk(mem, r, s) && PosOk(mem, g, r);
    if Kid(mem[r], s) != NIL {
      assert PosOk(mem, g, Kid(mem[r], s));
    }
  }

  lemma TwiceAt(mem: Mem, root: int, g: Places, ord: seq<int>, p: int, s: int, x: int)
    requires Links(mem, root) && Placed(mem, root, g, ord) && HeavyTwice(mem, p, s) && x in mem
    ensures var q := Kid(mem[p], s);
            var f, r := mem[p].up, Kid(mem[q], 1 - s);
            x in Twice(mem, p, s) && Twice(mem, p, s)[x] ==
            if x == r then TopRec(mem[p], mem[q], mem[r], p, q, s)
            else if x == q then ChildRec(mem[q], mem[r], r, s)
            else if x == p then NodeRec(mem[p], mem[q], mem[r], r, s)
            else if x == Kid(mem[r], s) then Hang(mem[x], q, 1 - s)
            else if x == Kid(mem[r], 1 - s) then Hang(mem[x], p, s)
            else if x == f then WithKid(mem[f], mem[p].flag, r)
            else mem[x]
  {
    SixApart(mem, root, g, ord, p, s);
  }

  lemma TwiceKeys(mem: Mem, p: int, s: int, x: int)
    requires HeavyTwice(mem, p, s)
    ensures x in Twice(mem, p, s) <==> x in mem
  {
  }

  // ----- the two single rotations

  function TwicePlaces(mem: Mem, g: Places, p: int, s: int): Places
    requires HeavyTwice(mem, p, s) && p in g && Kid(mem[p], s) in g && Kid(mem[Kid(mem[p], s)], 1 - s) in g
  {
    var q := Kid(mem[p], s);
    var r := Kid(mem[q], 1 - s);
    TurnPlaces(TurnPlaces(g, q, r, 1 - s), p, r, s)
  }

  lemma FirstTurn(mem: Mem, root: int, g: Places, ord: seq<int>, p: int, s: int)
    requires Links(mem, root) && Placed(mem, root, g, ord) && HeavyTwice(mem, p, s)
    ensures var q := Kid(mem[p], s);
            var r := Kid(mem[q], 1 - s);
            var t := Turn(mem, q, 1 - s);
            && p in g && q in g && r in g && Links(t, root) && Placed(t, root, TurnPlaces(g, q, r, 1 - s), ord)
            && Heavy(t, p, s) && Kid(t[p], s) == r && t[p] == WithKid(mem[p], s, r)
  {
    hide Links, Placed, Turn;
    var q := Kid(mem[p], s);
    var r := Kid(mem[q], 1 - s);
    Apart(mem, root, g, ord, p, s);
    Apart(mem, root, g, ord, q, 1 - s);
    LinkAt(mem, root, q);
    TurnLinks(mem, root, g, ord, q, 1 - s);
    TurnPlaced(mem, root, g, ord, q, 1 - s);
    TurnAt(mem, root, g, ord, q, 1 - s, p);
    TurnKeys(mem, q, 1 - s, r);
  }

  function Both(mem: Mem, p: int, s: int): Mem
    requires HeavyTwice(mem, p, s) && Heavy(Turn(mem, Kid(mem[p], s), 1 - s), p, s)
  {
    Turn(Turn(mem, Kid(mem[p], s), 1 - s), p, s)
  }

  /** Records that differ in the balance only. */
  predicate SameBut(r: Rec, t: Rec) {
    r == t.(bal := r.bal)
  }

  lemma TwiceIsBoth(mem: Mem, root: int, g: Places, ord: seq<int>, p: int, s: int, x: int)
    requires Links(mem, root) && Placed(mem, root, g, ord) && HeavyTwice(mem, p, s) && x in mem
    requires Heavy(Turn(mem, Kid(mem[p], s), 1 - s), p, s)
    ensures x in Twice(mem, p, s) && x in Both(mem, p, s) && SameBut(Twice(mem, p, s)[x], Both(mem, p, s)[x])
  {
    hide Links, Placed, Turn, Twice;
    var q := Kid(mem[p], s);
    var r, t := Kid(mem[q], 1 - s), Turn(mem, q, 1 - s);
    FirstTurn(mem, root, g, ord, p, s);
    var k := TurnPlaces(g, q, r, 1 - s);
    SixApart(mem, root, g, ord, p, s);
    LinkAt(mem, root, q);
    Apart(mem, root, g, ord, p, s);
    TwiceAt(mem, root, g, ord, p, s, x);
    TurnKeys(mem, q, 1 - s, x);
    TurnAt(mem, root, g, ord, q, 1 - s, x);
    TurnAt(mem, root, g, ord, q, 1 - s, r);
    TurnAt(t, root, k, ord, p, s, x);
  }

  ghost predicate SameStructure(mem: Mem, t: Mem) {
    (forall x :: x in mem <==> x in t) && forall x :: x in mem && x in t ==> SameBut(mem[x], t[x])
  }

  lemma StructureLinks(mem: Mem, t: Mem, root: int)
    requires SameStructure(mem, t) && Links(t, root)
    ensures Links(mem, root)
  {
    forall x | x in mem ensures LinkOk(mem, root, x) {
      assert LinkOk(t, root, x) && KidOk(t, x, 0) && KidOk(t, x, 1);
    }
  }

  lemma StructurePlaced(mem: Mem, t: Mem, root: int, g: Places, ord: seq<int>)
    requires SameStructure(mem, t) && Placed(t, root, g, ord)
    ensures Placed(mem, root, g, ord) && (Ranked(t, g) ==> Ranked(mem, g))
  {
    forall x | x in mem ensures PosOk(mem, g, x) {
      assert PosOk(t, g, x);
    }
    if Ranked(t, g) {
      forall x | x in mem && x in g ensures RankOk(mem, g, x) {
        assert RankOk(t, g, x);
      }
    }
  }

  lemma TwiceStructure(mem: Mem, root: int, g: Places, ord: seq<int>, p: int, s: int)
    requires Links(mem, root) && Placed(mem, root, g, ord) && HeavyTwice(mem, p, s)
    ensures var q := Kid(mem[p], s);
            var top := TopAfter(mem, root, p, Kid(mem[q], 1 - s));
            && p in g && q in g && Kid(mem[q], 1 - s) in g
            && Links(Twice(mem, p, s), top) && Placed(Twice(mem, p, s), top, TwicePlaces(mem, g, p, s), ord)
            && (Ranked(mem, g) ==> Ranked(Twice(mem, p, s), TwicePlaces(mem, g, p, s)))
  {
    hide Links, Placed, Turn, Twice, TurnPlaces, Ranked;
    var q := Kid(mem[p], s);
    var r, t := Kid(mem[q], 1 - s), Turn(mem, q, 1 - s);
    FirstTurn(mem, root, g, ord, p, s);
    var k := TurnPlaces(g, q, r, 1 - s);
    PlacesKeys(g, q, r, 1 - s, p);
    PlacesKeys(g, q, r, 1 - s, r);
    TurnLinks(t, root, k, ord, p, s);
    TurnPlaced(t, root, k, ord, p, s);
    forall x ensures (x in Twice(mem, p, s) <==> x in mem) && (x in Both(mem, p, s) <==> x in mem) {
      TwiceKeys(mem, p, s, x);
      TurnKeys(mem, q, 1 - s, x);
      TurnKeys(t, p, s, x);
    }
    forall x | x in mem ensures SameBut(Twice(mem, p, s)[x], Both(mem, p, s)[x]) {
      TwiceIsBoth(mem, root, g, ord, p, s, x);
    }
    var top := TopAfter(mem, root, p, r);
    assert TopAfter(t, root, p, r) == top;
    StructureLinks(Twice(mem, p, s), Both(mem, p, s), top);
    StructurePlaced(Twice(mem, p, s), Both(mem, p, s), top, TwicePlaces(mem, g, p, s), ord);
    if Ranked(mem, g) {
      TurnRanked(mem, root, g, ord, q, 1 - s);
      TurnRanked(t, root, k, ord, p, s);
    }
  }

  lemma PlacesKeys(g: Places, p: int, q: int, s: int, x: int)
    requires p in g && q in g
    ensures x in TurnPlaces(g, p, q, s) <==> x in g
  {
  }

  // ----- heights

  ghost predicate TwiceCase(mem: Mem, h: Heights, p: int, s: int, flag: int, d: int) {
    && Heavy(mem, p, s) && p in h && Balanced(mem, h, p, flag, d) && TooHigh(mem, h, p, s)
    && if s == 0 then mem[Kid(mem[p], s)].bal > 0 else mem[Kid(mem[p], s)].bal < 0
  }

  lemma TwiceCaseFacts(mem: Mem, root: int, h: Heights, p: int, s: int, flag: int, d: int)
    requires TwiceCase(mem, h, p, s, flag, d) && Kid(mem[p], s) != p && Links(mem, root)
    ensures HeavyTwice(mem, p, s)
    ensures var q := Kid(mem[p], s);
            var r := Kid(mem[q], 1 - s);
            var k, o := Hgt(h, Kid(mem[p], 1 - s)), Hgt(h, Kid(mem[q], s));
            k >= 0 && o == k && Hgt(h, r) == k + 1
  {
    var q := Kid(mem[p], s);
    BalAt(mem, h, p, flag, d, q);
    NoHeight(mem, h, p, flag, d, Kid(mem[p], 1 - s));
    LinkAt(mem, root, q);
  }

  lemma TwiceInner(mem: Mem, root: int, g: Places, ord: seq<int>, h: Heights, p: int, s: int, flag: int, d: int)
    requires TwiceCase(mem, h, p, s, flag, d) && HeavyTwice(mem, p, s) && Links(mem, root) && Placed(mem, root, g, ord)
    ensures var q := Kid(mem[p], s);
            var r := Kid(mem[q], 1 - s);
            var k, a, b := Hgt(h, Kid(mem[p], 1 - s)), Hgt(h, Kid(mem[r], s)), Hgt(h, Kid(mem[r], 1 - s));
            mem[r].bal == (if s == 0 then b - a else a - b) && (a == k || b == k) && a <= k && b <= k && k - 1 <= a && k - 1 <= b
  {
    hide Links, Placed, Balanced;
    var q := Kid(mem[p], s);
    var r := Kid(mem[q], 1 - s);
    SixApart(mem, root, g, ord, p, s);
    TwiceCaseFacts(mem, root, h, p, s, flag, d);
    BalAt(mem, h, p, flag, d, r);
  }

  function TwiceHeights(h: Heights, p: int, q: int, r: int): Heights {
    h[p := Hgt(h, r)][q := Hgt(h, r)][r := Hgt(h, r) + 1]
  }

  lemma TwiceKids(mem: Mem, root: int, g: Places, ord: seq<int>, p: int, s: int, x: int, e: int)
    requires Links(mem, root) && Placed(mem, root, g, ord) && HeavyTwice(mem, p, s) && x in mem && (e == 0 || e == 1)
    ensures var q := Kid(mem[p], s);
            var f, r := mem[p].up, Kid(mem[q], 1 - s);
            x in Twice(mem, p, s) && Kid(Twice(mem, p, s)[x], e) ==
            if x == r then (if e == s then q else p)
            else if x == q && e == 1 - s then Kid(mem[r], s)
            else if x == p && e == s then Kid(mem[r], 1 - s)
            else if x == f && e == mem[p].flag then r
            else Kid(mem[x], e)
  {
    hide Twice, Links, Placed;
    SixApart(mem, root, g, ord, p, s);
    TwiceAt(mem, root, g, ord, p, s, x);
    LinkAt(mem, root, p);
    LinkAt(mem, root, Kid(mem[p], s));
  }

  /** Only f has p as a child, only p has q, and only q has r. */
  lemma ThreeElsewhere(mem: Mem, root: int, p: int, s: int, x: int, e: int)
    requires Links(mem, root) && HeavyTwice(mem, p, s) && x in mem && (e == 0 || e == 1)
    ensures Kid(mem[x], e) == p ==> x == mem[p].up && e == mem[p].flag
    ensures Kid(mem[x], e) == Kid(mem[p], s) ==> x == p && e == s
    ensures Kid(mem[x], e) == Kid(mem[Kid(mem[p], s)], 1 - s) ==> x == Kid(mem[p], s) && e == 1 - s
  {
    hide Links;
    KidsElsewhere(mem, root, p, s, x, e);
    KidsElsewhere(mem, root, Kid(mem[p], s), 1 - s, x, e);
  }

  lemma TwiceOthers(mem: Mem, root: int, g: Places, ord: seq<int>, h: Heights, p: int, s: int, flag: int, d: int, x: int, e: int)
    requires Links(mem, root) && Placed(mem, root, g, ord) && x in mem && TwiceCase(mem, h, p, s, flag, d) && HeavyTwice(mem, p, s)
    requires (e == 0 || e == 1) && x != p && x != Kid(mem[p], s) && x != Kid(mem[Kid(mem[p], s)], 1 - s)
    ensures var q := Kid(mem[p], s);
            var r := Kid(mem[q], 1 - s);
            var k := TwiceHeights(h, p, q, r);
            x in Twice(mem, p, s) &&
            Assumed(Twice(mem, p, s), k, x, e, mem[p].up, mem[p].flag, h[p] - k[r]) == Assumed(mem, h, x, e, p, flag, d)
  {
    hide Links, Placed, Twice, Balanced;
    TwiceKids(mem, root, g, ord, p, s, x, e);
    SixApart(mem, root, g, ord, p, s);
    ThreeElsewhere(mem, root, p, s, x, e);
    LinkAt(mem, root, p);
  }

  lemma TwiceBalDown(mem: Mem, root: int, g: Places, ord: seq<int>, h: Heights, p: int, s: int, flag: int, d: int, x: int)
    requires Links(mem, root) && Placed(mem, root, g, ord) && x in mem && TwiceCase(mem, h, p, s, flag, d) && HeavyTwice(mem, p, s) && x == p
    ensures var q := Kid(mem[p], s);
            var r := Kid(mem[q], 1 - s);
            var k := TwiceHeights(h, p, q, r);
            x in Twice(mem, p, s) && x in k && k[x] >= 1 && BalOk(Twice(mem, p, s), k, x, mem[p].up, mem[p].flag, h[p] - k[r])
  {
    hide Links, Placed, Twice, Balanced;
    var q := Kid(mem[p], s);
    SixApart(mem, root, g, ord, p, s);
    TwiceAt(mem, root, g, ord, p, s, x);
    TwiceCaseFacts(mem, root, h, p, s, flag, d);
    TwiceInner(mem, root, g, ord, h, p, s, flag, d);
    TwiceKids(mem, root, g, ord, p, s, x, 0);
    TwiceKids(mem, root, g, ord, p, s, x, 1);
    ThreeElsewhere(mem, root, p, s, x, 0);
    ThreeElsewhere(mem, root, p, s, x, 1);
    ThreeElsewhere(mem, root, p, s, Kid(mem[q], 1 - s), 0);
    ThreeElsewhere(mem, root, p, s, Kid(mem[q], 1 - s), 1);
  }

  lemma TwiceBalChild(mem: Mem, root: int, g: Places, ord: seq<int>, h: Heights, p: int, s: int, flag: int, d: int, x: int)
    requires Links(mem, root) && Placed(mem, root, g, ord) && x in mem && TwiceCase(mem, h, p, s, flag, d) && HeavyTwice(mem, p, s) && x == Kid(mem[p], s)
    ensures var q := Kid(mem[p], s);
            var r := Kid(mem[q], 1 - s);
            var k := TwiceHeights(h, p, q, r);
            x in Twice(mem, p, s) && x in k && k[x] >= 1 && BalOk(Twice(mem, p, s), k, x, mem[p].up, mem[p].flag, h[p] - k[r])
  {
    hide Links, Placed, Twice, Balanced;
    var q := Kid(mem[p], s);
    SixApart(mem, root, g, ord, p, s);
    TwiceAt(mem, root, g, ord, p, s, x);
    TwiceCaseFacts(mem, root, h, p, s, flag, d);
    TwiceInner(mem, root, g, ord, h, p, s, flag, d);
    TwiceKids(mem, root, g, ord, p, s, x, 0);
    TwiceKids(mem, root, g, ord, p, s, x, 1);
    ThreeElsewhere(mem, root, p, s, x, 0);
    ThreeElsewhere(mem, root, p, s, x, 1);
    ThreeElsewhere(mem, root, p, s, Kid(mem[q], 1 - s), 0);
    ThreeElsewhere(mem, root, p, s, Kid(mem[q], 1 - s), 1);
  }

  lemma TwiceBalTop(mem: Mem, root: int, g: Places, ord: seq<int>, h: Heights, p: int, s: int, flag: int, d: int, x: int)
    requires Links(mem, root) && Placed(mem, root, g, ord) && x in mem && TwiceCase(mem, h, p, s, flag, d) && HeavyTwice(mem, p, s) && x == Kid(mem[Kid(mem[p], s)], 1 - s)
    ensures var q := Kid(mem[p], s);
            var r := Kid(mem[q], 1 - s);
            var k := TwiceHeights(h, p, q, r);
            x in Twice(mem, p, s) && x in k && k[x] >= 1 && BalOk(Twice(mem, p, s), k, x, mem[p].up, mem[p].flag, h[p] - k[r])
  {
    hide Links, Placed, Twice, Balanced;
    var q := Kid(mem[p], s);
    SixApart(mem, root, g, ord, p, s);
    TwiceAt(mem, root, g, ord, p, s, x);
    TwiceCaseFacts(mem, root, h, p, s, flag, d);
    TwiceInner(mem, root, g, ord, h, p, s, flag, d);
    TwiceKids(mem, root, g, ord, p, s, x, 0);
    TwiceKids(mem, root, g, ord, p, s, x, 1);
    ThreeElsewhere(mem, root, p, s, x, 0);
    ThreeElsewhere(mem, root, p, s, x, 1);
    ThreeElsewhere(mem, root, p, s, Kid(mem[q], 1 - s), 0);
    ThreeElsewhere(mem, root, p, s, Kid(mem[q], 1 - s), 1);
  }

  lemma TwiceBalOther(mem: Mem, root: int, g: Places, ord: seq<int>, h: Heights, p: int, s: int, flag: int, d: int, x: int)
    requires Links(mem, root) && Placed(mem, root, g, ord) && x in mem && TwiceCase(mem, h, p, s, flag, d) && HeavyTwice(mem, p, s)
    requires x != p && x != Kid(mem[p], s) && x != Kid(mem[Kid(mem[p], s)], 1 - s)
    ensures var q := Kid(mem[p], s);
            var r := Kid(mem[q], 1 - s);
            var k := TwiceHeights(h, p, q, r);
            x in Twice(mem, p, s) && x in k && k[x] >= 1 && BalOk(Twice(mem, p, s), k, x, mem[p].up, mem[p].flag, h[p] - k[r])
  {
    hide Links, Placed, Twice, Balanced, Assumed;
    SixApart(mem, root, g, ord, p, s);
    TwiceAt(mem, root, g, ord, p, s, x);
    BalAt(mem, h, p, flag, d, x);
    TwiceOthers(mem, root, g, ord, h, p, s, flag, d, x, 0);
    TwiceOthers(mem, root, g, ord, h, p, s, flag, d, x, 1);
  }

  lemma TwiceBalanced(mem: Mem, root: int, g: Places, ord: seq<int>, h: Heights, p: int, s: int, flag: int, d: int)
    requires Links(mem, root) && Placed(mem, root, g, ord) && TwiceCase(mem, h, p, s, flag, d) && HeavyTwice(mem, p, s)
    ensures var q := Kid(mem[p], s);
            var r := Kid(mem[q], 1 - s);
            var k := TwiceHeights(h, p, q, r);
            Balanced(Twice(mem, p, s), k, mem[p].up, mem[p].flag, h[p] - k[r])
  {
    hide Twice, BalOk, Links, Placed;
    var q := Kid(mem[p], s);
    var r := Kid(mem[q], 1 - s);
    var t, k := Twice(mem, p, s), TwiceHeights(h, p, q, r);
    forall x ensures x in t <==> x in mem {
      TwiceKeys(mem, p, s, x);
    }
    forall x | x in t ensures k[x] >= 1 && BalOk(t, k, x, mem[p].up, mem[p].flag, h[p] - k[r]) {
      if x == p {
        TwiceBalDown(mem, root, g, ord, h, p, s, flag, d, x);
      } else if x == q {
        TwiceBalChild(mem, root, g, ord, h, p, s, flag, d, x);
      } else if x == r {
        TwiceBalTop(mem, root, g, ord, h, p, s, flag, d, x);
      } else {
        TwiceBalOther(mem, root, g, ord, h, p, s, flag, d, x);
      }
    }
  }
}
