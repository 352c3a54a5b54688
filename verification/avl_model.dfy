/** glpavl.c: a memory of node records, and the conditions that make it an AVL tree with ranks. */
module AvlModel {
  const NIL := -1

  datatype Rec = Rec(key: int, rank: int, up: int, flag: int, bal: int, left: int, right: int)

  type Mem = map<int, Rec>

  /** The subtree of a node holds the positions lo..hi of the in-order sequence, the node itself is at position `at`. */
  datatype Pos = Pos(lo: int, at: int, hi: int)

  type Places = map<int, Pos>

  type Heights = map<int, int>

  function Kid(r: Rec, s: int): int {
    if s == 0 then r.left else r.right
  }

  // ----- links

  ghost predicate KidOk(mem: Mem, x: int, s: int)
    requires x in mem
  {
    var c := Kid(mem[x], s);
    c != NIL ==> c in mem && mem[c].up == x && mem[c].flag == s
  }

  ghost predicate LinkOk(mem: Mem, root: int, x: int)
    requires x in mem
  {
    var r := mem[x];
    && KidOk(mem, x, 0) && KidOk(mem, x, 1) && (r.flag == 0 || r.flag == 1)
    && (if r.up == NIL then x == root && r.flag == 0 else x != root && r.up in mem && Kid(mem[r.up], r.flag) == x)
  }

  ghost predicate Links(mem: Mem, root: int) {
    && NIL !in mem && (forall x {:trigger LinkOk(mem, root, x)} :: x in mem ==> LinkOk(mem, root, x))
    && (if root == NIL then forall x :: x !in mem else root in mem)
  }

  // ----- positions and ranks

  ghost predicate PosOk(mem: Mem, g: Places, x: int)
    requires x in mem
  {
    var r := mem[x];
    && x in g && g[x].lo <= g[x].at < g[x].hi
    && (if r.left == NIL then g[x].lo == g[x].at else r.left in g && g[r.left].lo == g[x].lo && g[r.left].hi == g[x].at)
    && (if r.right == NIL then g[x].hi == g[x].at + 1 else r.right in g && g[r.right].lo == g[x].at + 1 && g[r.right].hi == g[x].hi)
  }

  ghost predicate Order(mem: Mem, g: Places, ord: seq<int>) {
    && (forall x :: x in mem <==> x in g)
    && (forall x :: x in g ==> 0 <= g[x].at < |ord| && ord[g[x].at] == x)
    && (forall i :: 0 <= i < |ord| ==> ord[i] in g && g[ord[i]].at == i)
  }

  ghost predicate Placed(mem: Mem, root: int, g: Places, ord: seq<int>) {
    && Order(mem, g, ord)
    && (forall x {:trigger PosOk(mem, g, x)} :: x in mem ==> PosOk(mem, g, x))
    && (root in g ==> g[root].lo == 0 && g[root].hi == |ord|)
  }

  ghost predicate RankOk(mem: Mem, g: Places, x: int)
    requires x in mem && x in g
  {
    mem[x].rank == g[x].at - g[x].lo + 1
  }

  ghost predicate Ranked(mem: Mem, g: Places) {
    forall x {:trigger RankOk(mem, g, x)} :: x in mem && x in g ==> RankOk(mem, g, x)
  }

  // ----- heights and balances

  function Hgt(h: Heights, x: int): int {
    if x in h then h[x] else 0
  }

  /** The height that the record of x assumes for its child on side s; it is off by d on side `flag` of node f. */
  function Assumed(mem: Mem, h: Heights, x: int, s: int, f: int, flag: int, d: int): int
    requires x in mem
  {
    Hgt(h, Kid(mem[x], s)) + if x == f && s == flag then d else 0
  }

  ghost predicate BalOk(mem: Mem, h: Heights, x: int, f: int, flag: int, d: int)
    requires x in mem && x in h
  {
    var l, r := Assumed(mem, h, x, 0, f, flag, d), Assumed(mem, h, x, 1, f, flag, d);
    mem[x].bal == r - l && -1 <= r - l <= 1 && h[x] == 1 + if l < r then r else l
  }

  ghost predicate Balanced(mem: Mem, h: Heights, f: int, flag: int, d: int) {
    && (forall x :: x in mem <==> x in h) && (forall x :: x in h ==> h[x] >= 1)
    && forall x {:trigger BalOk(mem, h, x, f, flag, d)} :: x in mem && x in h ==> BalOk(mem, h, x, f, flag, d)
  }

  // ----- which nodes lie below a node

  ghost predicate Within(g: Places, a: int, i: int)
    requires a in g
  {
    g[a].lo <= i < g[a].hi
  }

  /** A node whose position lies in the part of `a` has its whole subtree there, and so has its parent unless it is `a`. */
  lemma {:induction false} Below(mem: Mem, root: int, g: Places, ord: seq<int>, a: int, y: int)
    requires Links(mem, root) && Placed(mem, root, g, ord) && a in mem && y in mem && a in g && y in g && Within(g, a, g[y].at)
    ensures g[a].lo <= g[y].lo && g[y].hi <= g[a].hi
    ensures y != a ==> g[y].hi - g[y].lo < g[a].hi - g[a].lo
    ensures y != a ==> mem[y].up in mem && mem[y].up in g && Within(g, a, g[mem[y].up].at)
    decreases g[a].hi - g[a].lo
  {
    assert PosOk(mem, g, a) && LinkOk(mem, root, a) && LinkOk(mem, root, y);
    if y != a {
      assert ord[g[y].at] == y && ord[g[a].at] == a;
      var s := if g[y].at < g[a].at then 0 else 1;
      var c := Kid(mem[a], s);
      assert KidOk(mem, a, s);
      Below(mem, root, g, ord, c, y);
    }
  }

  /** Every node lies below the root. */
  lemma InRoot(mem: Mem, root: int, g: Places, ord: seq<int>, x: int)
    requires Links(mem, root) && Placed(mem, root, g, ord) && x in mem
    ensures root in g && x in g && 0 <= g[x].lo && g[x].hi <= |ord|
  {
    Below(mem, root, g, ord, root, x);
  }
}
