/** The conditions on single nodes say that the memory is an AVL tree in the usual recursive sense. */
module AvlShape {
  import opened AvlModel
  import opened AvlRotate
  import opened AvlInsert
  import opened AvlDescent
  import opened AvlClimb
  import opened AvlExchange
  import opened AvlSearch
  import opened AvlClass

  datatype Tree = Leaf | Node(left: Tree, id: int, right: Tree)

  function InOrder(t: Tree): seq<int> {
    match t
    case Leaf => []
    case Node(l, x, r) => InOrder(l) + [x] + InOrder(r)
  }

  function Height(t: Tree): nat {
    match t
    case Leaf => 0
    case Node(l, _, r) => 1 + if Height(l) < Height(r) then Height(r) else Height(l)
  }

  function Size(t: Tree): nat {
    match t
    case Leaf => 0
    case Node(l, _, r) => Size(l) + 1 + Size(r)
  }

  /** Tree t hangs at link x, with all its up links, flags, ranks and balances right. */
  ghost predicate Hangs(mem: Mem, x: int, up: int, flag: int, t: Tree)
    decreases t
  {
    match t
    case Leaf => x == NIL
    case Node(l, id, r) =>
      && x == id && x in mem && mem[x].up == up && mem[x].flag == flag
      && Hangs(mem, mem[x].left, x, 0, l) && Hangs(mem, mem[x].right, x, 1, r)
      && mem[x].rank == Size(l) + 1 && mem[x].bal == Height(r) - Height(l) && -1 <= mem[x].bal <= 1
  }

  /** Tree t hangs at node x and holds its part of the in-order sequence. */
  ghost predicate Fits(mem: Mem, x: int, up: int, flag: int, h: Heights, part: seq<int>, t: Tree) {
    Hangs(mem, x, up, flag, t) && Height(t) == Hgt(h, x) && Size(t) == |part| && InOrder(t) == part
  }

  lemma {:induction false} Subtree(mem: Mem, root: int, g: Places, ord: seq<int>, h: Heights, x: int) returns (t: Tree)
    requires Links(mem, root) && Placed(mem, root, g, ord) && Ranked(mem, g) && Balanced(mem, h, NIL, 0, 0) && x in mem && x in g
    ensures 0 <= g[x].lo <= g[x].hi <= |ord| && Fits(mem, x, mem[x].up, mem[x].flag, h, ord[g[x].lo..g[x].hi], t)
    decreases g[x].hi - g[x].lo, 1
  {
    hide Links, Placed, Ranked, Balanced, Fits;
    DownNext(mem, root, g, ord, x);
    var l := Side(mem, root, g, ord, h, x, 0);
    var r := Side(mem, root, g, ord, h, x, 1);
    t := Node(l, x, r);
    Joined(mem, root, g, ord, h, x, l, r);
  }

  /** The part of the in-order sequence on one side of x. */
  ghost function SidePart(g: Places, ord: seq<int>, x: int, s: int): seq<int>
    requires x in g && 0 <= g[x].lo <= g[x].at < g[x].hi <= |ord|
  {
    if s == 0 then ord[g[x].lo..g[x].at] else ord[g[x].at + 1..g[x].hi]
  }

  lemma {:induction false} Side(mem: Mem, root: int, g: Places, ord: seq<int>, h: Heights, x: int, s: int) returns (t: Tree)
    requires Links(mem, root) && Placed(mem, root, g, ord) && Ranked(mem, g) && Balanced(mem, h, NIL, 0, 0) && x in mem && x in g
    requires 0 <= g[x].lo <= g[x].at < g[x].hi <= |ord| && (s == 0 || s == 1)
    ensures Fits(mem, Kid(mem[x], s), x, s, h, SidePart(g, ord, x, s), t)
    decreases g[x].hi - g[x].lo, 0
  {
    hide Links, Placed, Ranked, Balanced, Fits;
    LinkAt(mem, root, x);
    assert KidOk(mem, x, s);
    PosAt(mem, root, g, ord, x);
    var c := Kid(mem[x], s);
    if c == NIL {
      t := Leaf;
      NoNil(mem, root, h);
      assert SidePart(g, ord, x, s) == [];
      LeafFits(mem, x, s, h);
    } else {
      t := Subtree(mem, root, g, ord, h, c);
    }
  }

  lemma LeafFits(mem: Mem, x: int, s: int, h: Heights)
    requires NIL !in h
    ensures Fits(mem, NIL, x, s, h, [], Leaf)
  {
  }

  lemma NoNil(mem: Mem, root: int, h: Heights)
    requires Links(mem, root) && Balanced(mem, h, NIL, 0, 0)
    ensures NIL !in h
  {
  }

  lemma Joined(mem: Mem, root: int, g: Places, ord: seq<int>, h: Heights, x: int, l: Tree, r: Tree)
    requires Links(mem, root) && Ranked(mem, g) && Balanced(mem, h, NIL, 0, 0) && x in mem && x in g
    requires 0 <= g[x].lo <= g[x].at < g[x].hi <= |ord| && ord[g[x].at] == x
    requires Fits(mem, mem[x].left, x, 0, h, SidePart(g, ord, x, 0), l) && Fits(mem, mem[x].right, x, 1, h, SidePart(g, ord, x, 1), r)
    ensures Fits(mem, x, mem[x].up, mem[x].flag, h, ord[g[x].lo..g[x].hi], Node(l, x, r))
  {
    hide Links, Ranked, Balanced, Hangs, InOrder, Height, Size;
    JoinedHangs(mem, g, ord, h, x, l, r);
    JoinedOrder(g, ord, x, l, r);
  }

  lemma JoinedHangs(mem: Mem, g: Places, ord: seq<int>, h: Heights, x: int, l: Tree, r: Tree)
    requires Ranked(mem, g) && Balanced(mem, h, NIL, 0, 0) && x in mem && x in g && 0 <= g[x].lo <= g[x].at < g[x].hi <= |ord|
    requires Hangs(mem, mem[x].left, x, 0, l) && Height(l) == Hgt(h, mem[x].left) && Size(l) == g[x].at - g[x].lo
    requires Hangs(mem, mem[x].right, x, 1, r) && Height(r) == Hgt(h, mem[x].right)
    ensures Hangs(mem, x, mem[x].up, mem[x].flag, Node(l, x, r)) && Height(Node(l, x, r)) == Hgt(h, x)
  {
    hide Ranked, Balanced;
    RankAt(mem, g, x);
    BalAt(mem, h, NIL, 0, 0, x);
  }

  lemma JoinedOrder(g: Places, ord: seq<int>, x: int, l: Tree, r: Tree)
    requires x in g && 0 <= g[x].lo <= g[x].at < g[x].hi <= |ord| && ord[g[x].at] == x
    requires InOrder(l) == SidePart(g, ord, x, 0) && InOrder(r) == SidePart(g, ord, x, 1)
    requires Size(l) == |SidePart(g, ord, x, 0)| && Size(r) == |SidePart(g, ord, x, 1)|
    ensures InOrder(Node(l, x, r)) == ord[g[x].lo..g[x].hi] && Size(Node(l, x, r)) == g[x].hi - g[x].lo
  {
    var i, a, j := g[x].lo, g[x].at, g[x].hi;
    assert ord[i..j] == ord[i..a] + [ord[a]] + ord[a + 1..j];
  }

  /** The whole tree. */
  lemma Shape(mem: Mem, root: int, g: Places, ord: seq<int>, h: Heights) returns (t: Tree)
    requires Links(mem, root) && Placed(mem, root, g, ord) && Ranked(mem, g) && Balanced(mem, h, NIL, 0, 0)
    ensures Hangs(mem, root, NIL, 0, t) && InOrder(t) == ord && Height(t) == Hgt(h, root) && Size(t) == |ord|
  {
    hide Links, Placed, Ranked, Balanced;
    NoNodes(mem, root, g, ord);
    HeightKeys(mem, h, NIL, 0, 0);
    if root == NIL {
      t := Leaf;
      NoRoot(mem, root);
    } else {
      t := Subtree(mem, root, g, ord, h, root);
      LinkAt(mem, root, root);
      assert ord[0..|ord|] == ord;
    }
  }

  lemma NoRoot(mem: Mem, root: int)
    requires Links(mem, root)
    ensures NIL !in mem
  {
  }

  function Fib(n: nat): nat {
    if n < 2 then n else Fib(n - 1) + Fib(n - 2)
  }

  lemma {:induction false} FibGrows(m: nat, n: nat)
    requires m <= n
    ensures Fib(m) <= Fib(n)
    decreases n
  {
    if m < n {
      FibGrows(m, n - 1);
    }
  }

  /** Balanced trees are low: a tree of height k has at least Fib(k + 2) - 1 nodes. */
  lemma {:induction false} LowTree(mem: Mem, x: int, up: int, flag: int, t: Tree)
    requires Hangs(mem, x, up, flag, t)
    ensures Size(t) + 1 >= Fib(Height(t) + 2)
    decreases t
  {
    hide Fib;
    match t
    case Leaf =>
      FibTwo();
    case Node(l, _, r) =>
      LowTree(mem, mem[x].left, x, 0, l);
      LowTree(mem, mem[x].right, x, 1, r);
      LowStep(Height(l), Height(r), Height(t));
  }

  lemma FibTwo()
    ensures Fib(2) <= 1
  {
  }

  lemma LowStep(a: nat, b: nat, k: nat)
    requires k == 1 + (if a < b then b else a) && -1 <= b - a <= 1
    ensures Fib(a + 2) + Fib(b + 2) >= Fib(k + 2)
  {
    FibGrows(k, a + 2);
    FibGrows(k, b + 2);
  }

  /** What the invariant of the tree object means. */
  lemma TreeShape(a: AvlTree) returns (t: Tree)
    requires a.Valid()
    ensures Hangs(a.mem, a.root, NIL, 0, t) && InOrder(t) == a.ord && Height(t) == a.height && Size(t) == a.size
    ensures a.size + 1 >= Fib(Height(t) + 2)
  {
    t := Shape(a.mem, a.root, a.g, a.ord, a.h);
    LowTree(a.mem, a.root, NIL, 0, t);
  }
}
