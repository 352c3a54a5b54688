/** The dynamic memory pool: atoms are carved out of blocks of fixed size, free atoms and blocks are linked through their
    own first bytes. */
module Dmp {
  import opened Collections

  const BLK_SIZE := 8000

  /** align_datasize, with the size of a double as alignment unit */
  function Align(n: nat): (r: nat)
    ensures n <= r < n + 8 && r % 8 == 0
  {
    (n + 7) / 8 * 8
  }

  /** The size of a pointer is all that the pool depends on. */
  datatype Machine = Machine(ptr: nat) {
    predicate Ok() {
      ptr == 4 || ptr == 8
    }

    /** Bytes of a block taken by the pointer to the previous block. */
    function Header(): (r: nat)
      requires Ok()
      ensures ptr <= r < ptr + 8 && r % ptr == 0 && r % 8 == 0
    {
      Align(ptr)
    }
  }

  datatype Addr = Addr(blk: int, off: int)

  datatype Ptr = Null | To(a: Addr)

  predicate Overlap(a: Addr, la: int, b: Addr, lb: int) {
    a.blk == b.blk && a.off < b.off + lb && b.off < a.off + la
  }

  /** The addresses on a linked list that starts at p, where word holds the links. */
  ghost predicate Chain(word: map<Addr, Ptr>, p: Ptr, s: seq<Addr>)
    decreases |s|
  {
    if s == [] then p == Null
    else p == To(s[0]) && s[0] in word && Chain(word, word[s[0]], s[1..])
  }

  lemma {:induction false} ChainFrame(word: map<Addr, Ptr>, word': map<Addr, Ptr>, p: Ptr, s: seq<Addr>)
    requires Chain(word, p, s) && forall a :: a in s && a in word ==> a in word' && word'[a] == word[a]
    ensures Chain(word', p, s)
    decreases |s|
  {
    if s != [] {
      assert s[0] in s;
      forall a | a in s[1..] && a in word ensures a in word' && word'[a] == word[a] {
        assert a in s;
      }
      ChainFrame(word, word', word[s[0]], s[1..]);
    }
  }

  lemma ChainPush(word: map<Addr, Ptr>, p: Ptr, s: seq<Addr>, a: Addr)
    requires Chain(word, p, s) && a !in s
    ensures Chain(word[a := p], To(a), [a] + s)
  {
    ChainFrame(word, word[a := p], p, s);
    assert ([a] + s)[1..] == s;
  }

  /** Everything but the machine constants: `slots` are all atoms cut out so far with their lengths, `live` those in use,
      `free`, `blocks` and `stocks` the three linked lists. */
  datatype View = View(size: int, avail: Ptr, link: Ptr, used: int, stock: Ptr, count: int, word: map<Addr, Ptr>, nextBlk: int,
                       slots: map<Addr, int>, live: set<Addr>, free: seq<Addr>, blocks: seq<Addr>, stocks: seq<Addr>)

  /** Atoms lie behind the header of an allocated block, inside the block, and do not overlap. */
  ghost predicate SlotsOk(mc: Machine, v: View)
    requires mc.Ok()
  {
    && (forall a :: a in v.slots ==> v.slots[a] >= mc.ptr && mc.Header() <= a.off && a.off + v.slots[a] <= BLK_SIZE)
    && (forall a :: a in v.slots ==> Addr(a.blk, 0) in v.blocks)
    && (forall a, b :: a in v.slots && b in v.slots && a != b ==> !Overlap(a, v.slots[a], b, v.slots[b]))
  }

  /** The newest block is filled up to `used`. */
  ghost predicate TopOk(mc: Machine, v: View)
    requires mc.Ok()
  {
    v.blocks != [] ==>
      && mc.Header() <= v.used <= BLK_SIZE
      && (forall a :: a in v.slots && a.blk == v.blocks[0].blk ==> a.off + v.slots[a] <= v.used)
      && (0 < v.size < mc.ptr ==> v.used % mc.ptr == 0)
  }

  ghost predicate ListsOk(v: View) {
    && Chain(v.word, v.avail, v.free) && Chain(v.word, v.link, v.blocks) && Chain(v.word, v.stock, v.stocks)
    && NoDup(v.free) && NoDup(v.blocks) && NoDup(v.stocks)
    && (forall a :: a in v.blocks ==> a.off == 0 && 0 <= a.blk < v.nextBlk && a !in v.stocks)
    && (forall a :: a in v.stocks ==> a.off == 0 && 0 <= a.blk < v.nextBlk)
  }

  ghost predicate AtomsOk(mc: Machine, v: View) {
    && 0 <= v.size <= 256 && v.live <= v.slots.Keys && v.count == |v.live|
    && (forall a :: a in v.free <==> a in v.slots && a !in v.live)
    && (v.size > 0 ==> forall a :: a in v.slots ==> v.slots[a] == Extent(mc, v.size))
    && (v.size == 0 ==> v.free == [])
  }

  /** Length of an atom of a fixed-sized pool: a free atom must hold a pointer. */
  function Extent(mc: Machine, size: int): int {
    if size >= mc.ptr then size else mc.ptr
  }

  /** Atoms of a fixed-sized pool follow each other without gaps; those of a variable-sized pool start and end at multiples of 8. */
  function Unit(mc: Machine, size: int): (r: int)
    requires mc.Ok()
    ensures r > 0
  {
    if size == 0 then 8 else Extent(mc, size)
  }

  ghost predicate Aligned(mc: Machine, v: View)
    requires mc.Ok()
  {
    && (forall a :: a in v.slots ==> (a.off - mc.Header()) % Unit(mc, v.size) == 0 && v.slots[a] % Unit(mc, v.size) == 0)
    && (v.blocks != [] ==> (v.used - mc.Header()) % Unit(mc, v.size) == 0)
  }

  ghost predicate PoolOk(mc: Machine, v: View) {
    mc.Ok() && SlotsOk(mc, v) && TopOk(mc, v) && ListsOk(v) && AtomsOk(mc, v) && Aligned(mc, v)
  }

  /** In a variable-sized pool, and in one for atoms whose length is a multiple of 8, every atom starts at a multiple of 8. */
  lemma AtomsAligned(mc: Machine, v: View, a: Addr)
    requires PoolOk(mc, v) && a in v.slots && (v.size == 0 || Extent(mc, v.size) % 8 == 0)
    ensures a.off % 8 == 0 && v.slots[a] % 8 == 0
  {
    hide SlotsOk, TopOk, ListsOk, AtomsOk;
    var u := Unit(mc, v.size);
    Multiples(a.off - mc.Header(), u);
    Multiples(v.slots[a], u);
  }

  lemma Multiples(x: int, u: int)
    requires u > 0 && u % 8 == 0 && x % u == 0
    ensures x % 8 == 0
  {
    var k, m := x / u, u / 8;
    assert x == k * u && u == 8 * m;
    assert x == 8 * (k * m);
  }

  lemma NextUnit(x: int, len: int, u: int)
    requires u > 0 && x % u == 0 && len % u == 0
    ensures (x + len) % u == 0
  {
    var k, m := x / u, len / u;
    assert x == k * u && len == m * u;
    assert x + len == u * (k + m);
    ZeroRemainder(k + m, u);
  }

  lemma ZeroRemainder(k: int, u: int)
    requires u > 0
    ensures (u * k) % u == 0
  {
    var q, r := (u * k) / u, (u * k) % u;
    assert u * (k - q) == r;
    WholeUnits(u, k - q);
  }

  lemma WholeUnits(u: int, d: int)
    requires u > 0
    ensures (d >= 1 ==> u * d >= u) && (d <= -1 ==> u * d < 0)
  {
    if d >= 1 {
      assert u * (d - 1) >= 0;
    }
  }

  // ----- consequences

  /** Live atoms overlap neither each other, nor the links of free atoms, nor a block header, and lie inside their block. */
  lemma LiveAtoms(mc: Machine, v: View, a: Addr)
    requires PoolOk(mc, v) && a in v.live
    ensures a in v.slots && 0 <= a.off && a.off + v.slots[a] <= 8000 && Addr(a.blk, 0) in v.blocks
    ensures forall b :: b in v.live && b != a ==> b in v.slots && !Overlap(a, v.slots[a], b, v.slots[b])
    ensures forall b :: b in v.free ==> !Overlap(a, v.slots[a], b, mc.ptr)
    ensures forall b :: b in v.blocks || b in v.stocks ==> !Overlap(a, v.slots[a], b, mc.ptr)
  {
    forall b | b in v.free ensures !Overlap(a, v.slots[a], b, mc.ptr) {
      assert b in v.slots && b !in v.live;
    }
    forall b | b in v.stocks ensures !Overlap(a, v.slots[a], b, mc.ptr) {
      StockApart(v, a, b);
    }
  }

  lemma StockApart(v: View, a: Addr, b: Addr)
    requires ListsOk(v) && Addr(a.blk, 0) in v.blocks && b in v.stocks
    ensures a.blk != b.blk
  {
    assert b == Addr(b.blk, 0);
  }

  /** Whatever is written into a live atom, the pool stays in order. */
  lemma UserWrites(mc: Machine, v: View, a: Addr, word': map<Addr, Ptr>)
    requires PoolOk(mc, v) && a in v.live && a in v.slots
    requires forall b :: b in v.word && !Overlap(a, v.slots[a], b, mc.ptr) ==> b in word' && word'[b] == v.word[b]
    ensures PoolOk(mc, v.(word := word'))
  {
    hide SlotsOk, TopOk, AtomsOk, Aligned, ListsOk;
    LiveAtoms(mc, v, a);
    WrittenLists(v, a, v.slots[a], mc.ptr, word');
    SlotsFrame(mc, v, v.(word := word'));
    AtomsFrame(mc, v, v.(word := word'));
  }

  lemma WrittenLists(v: View, a: Addr, len: int, ptr: int, word': map<Addr, Ptr>)
    requires ListsOk(v) && forall b :: b in v.word && !Overlap(a, len, b, ptr) ==> b in word' && word'[b] == v.word[b]
    requires forall b :: b in v.free || b in v.blocks || b in v.stocks ==> !Overlap(a, len, b, ptr)
    ensures ListsOk(v.(word := word'))
  {
    hide Overlap, Chain;
    ChainFrame(v.word, word', v.avail, v.free);
    ChainFrame(v.word, word', v.link, v.blocks);
    ChainFrame(v.word, word', v.stock, v.stocks);
  }

  // ----- steps

  function Pulled(v: View): View
    requires v.free != [] && v.free[0] in v.word
  {
    v.(avail := v.word[v.free[0]], free := v.free[1..], live := v.live + {v.free[0]}, count := v.count + 1)
  }

  /** A free atom is pulled from the list. */
  lemma PullKeeps(mc: Machine, v: View)
    requires PoolOk(mc, v) && v.free != []
    ensures v.avail == To(v.free[0]) && v.free[0] in v.word && v.free[0] !in v.live && PoolOk(mc, Pulled(v))
  {
    hide SlotsOk, TopOk, AtomsOk, ListsOk;
    FirstFree(v);
    PullAtoms(mc, v);
    PullRest(mc, v);
    SlotsFrame(mc, v, Pulled(v));
  }

  lemma FirstFree(v: View)
    requires ListsOk(v) && v.free != []
    ensures v.avail == To(v.free[0]) && v.free[0] in v.word && NoDup(v.free)
  {
  }

  lemma PullAtoms(mc: Machine, v: View)
    requires AtomsOk(mc, v) && v.free != [] && v.free[0] in v.word && NoDup(v.free)
    ensures v.free[0] !in v.live && AtomsOk(mc, Pulled(v))
  {
    hide Extent, NoDup;
    var t := Pulled(v);
    assert v.free[0] in v.free;
    forall b ensures b in t.free <==> b in t.slots && b !in t.live {
      RestOf(v.free, b);
    }
  }

  lemma RestOf(s: seq<Addr>, b: Addr)
    requires s != [] && NoDup(s)
    ensures b in s[1..] <==> b in s && b != s[0]
  {
    if b in s && b != s[0] {
      var i :| 0 <= i < |s| && s[i] == b;
      assert s[1..][i - 1] == b;
    }
    if b in s[1..] {
      var i :| 0 <= i < |s| - 1 && s[1..][i] == b;
      assert s[i + 1] == b;
    }
  }

  lemma PullRest(mc: Machine, v: View)
    requires ListsOk(v) && v.free != [] && v.free[0] in v.word
    ensures ListsOk(Pulled(v))
  {
    assert Chain(v.word, v.word[v.free[0]], v.free[1..]);
    forall i, j | 0 <= i < j < |v.free| - 1 ensures v.free[1..][i] != v.free[1..][j] {
      assert v.free[i + 1] != v.free[j + 1];
    }
  }

  /** Slots and the fill of the newest block depend on few fields. */
  lemma SlotsFrame(mc: Machine, v: View, t: View)
    requires mc.Ok() && SlotsOk(mc, v) && TopOk(mc, v)
    requires t.slots == v.slots && t.blocks == v.blocks && t.used == v.used && t.size == v.size
    ensures SlotsOk(mc, t) && TopOk(mc, t) && (Aligned(mc, v) ==> Aligned(mc, t))
  {
  }

  /** A block that is not in use becomes the newest one. */
  function Opened(mc: Machine, v: View, blk: Addr): View
    requires mc.Ok()
  {
    v.(word := v.word[blk := v.link], link := To(blk), used := mc.Header(), blocks := [blk] + v.blocks)
  }

  lemma OpenKeeps(mc: Machine, v: View, blk: Addr)
    requires PoolOk(mc, v) && blk.off == 0 && 0 <= blk.blk < v.nextBlk && blk !in v.blocks && blk !in v.stocks
    ensures PoolOk(mc, Opened(mc, v, blk)) && Opened(mc, v, blk).blocks[0] == blk
  {
    hide SlotsOk, TopOk, ListsOk, AtomsOk, Aligned;
    FreeNotBlock(mc, v, blk);
    OpenLists(mc, v, blk);
    OpenSlots(mc, v, blk);
    AtomsFrame(mc, v, Opened(mc, v, blk));
  }

  lemma OpenLists(mc: Machine, v: View, blk: Addr)
    requires mc.Ok() && ListsOk(v) && blk.off == 0 && 0 <= blk.blk < v.nextBlk && blk !in v.blocks && blk !in v.stocks && blk !in v.free
    ensures ListsOk(Opened(mc, v, blk))
  {
    var t := Opened(mc, v, blk);
    ChainPush(v.word, v.link, v.blocks, blk);
    ChainFrame(v.word, t.word, v.avail, v.free);
    ChainFrame(v.word, t.word, v.stock, v.stocks);
    hide Chain;
    DistinctPush(v.blocks, blk);
  }

  lemma DistinctPush(s: seq<Addr>, a: Addr)
    requires NoDup(s) && a !in s
    ensures NoDup([a] + s)
  {
  }

  lemma OpenSlots(mc: Machine, v: View, blk: Addr)
    requires mc.Ok() && SlotsOk(mc, v) && Aligned(mc, v) && blk !in v.blocks && blk.off == 0
    ensures SlotsOk(mc, Opened(mc, v, blk)) && TopOk(mc, Opened(mc, v, blk)) && Aligned(mc, Opened(mc, v, blk))
  {
    forall a | a in v.slots ensures a.blk != blk.blk && Addr(a.blk, 0) in [blk] + v.blocks {
      SlotBlock(mc, v, a);
      assert blk == Addr(blk.blk, 0);
    }
    hide Overlap;
  }

  lemma SlotBlock(mc: Machine, v: View, a: Addr)
    requires mc.Ok() && SlotsOk(mc, v) && a in v.slots
    ensures Addr(a.blk, 0) in v.blocks
  {
  }

  lemma FreeNotBlock(mc: Machine, v: View, blk: Addr)
    requires PoolOk(mc, v) && blk.off == 0
    ensures blk !in v.free
  {
    if blk in v.free {
      SlotBehindHeader(mc, v, blk);
    }
  }

  lemma SlotBehindHeader(mc: Machine, v: View, a: Addr)
    requires PoolOk(mc, v) && a in v.free
    ensures a in v.slots && a.off >= mc.ptr > 0
  {
  }

  /** The first block of the stock is taken off it. */
  function Unstocked(v: View): View
    requires v.stocks != [] && v.stocks[0] in v.word
  {
    v.(stock := v.word[v.stocks[0]], stocks := v.stocks[1..])
  }

  lemma UnstockKeeps(mc: Machine, v: View)
    requires PoolOk(mc, v) && v.stocks != []
    ensures v.stock == To(v.stocks[0]) && v.stocks[0] in v.word && PoolOk(mc, Unstocked(v))
    ensures v.stocks[0].off == 0 && 0 <= v.stocks[0].blk < v.nextBlk && v.stocks[0] !in v.blocks && v.stocks[0] !in Unstocked(v).stocks
  {
    hide SlotsOk, TopOk, Extent, AtomsOk;
    var b := v.stocks[0];
    assert b in v.stocks;
    RestOf(v.stocks, b);
    assert Chain(v.word, v.word[b], v.stocks[1..]);
    forall i, j | 0 <= i < j < |v.stocks| - 1 ensures v.stocks[1..][i] != v.stocks[1..][j] {
      assert v.stocks[i + 1] != v.stocks[j + 1];
    }
    forall a | a in v.stocks[1..] ensures a in v.stocks {
      RestOf(v.stocks, a);
    }
    forall a | a in v.blocks ensures a !in v.stocks[1..] {
      RestOf(v.stocks, a);
    }
    SlotsFrame(mc, v, Unstocked(v));
    AtomsFrame(mc, v, Unstocked(v));
  }

  lemma AtomsFrame(mc: Machine, v: View, t: View)
    requires AtomsOk(mc, v) && t.size == v.size && t.live == v.live && t.slots == v.slots && t.count == v.count && t.free == v.free
    ensures AtomsOk(mc, t)
  {
  }

  /** An atom of length len is cut off the newest block. */
  function Cut(v: View, len: int): View
    requires v.blocks != []
  {
    var a := Addr(v.blocks[0].blk, v.used);
    v.(used := v.used + len, slots := v.slots[a := len], live := v.live + {a}, count := v.count + 1)
  }

  lemma CutKeeps(mc: Machine, v: View, len: int)
    requires PoolOk(mc, v) && v.blocks != [] && len >= mc.ptr && v.used + len <= BLK_SIZE
    requires (v.size > 0 ==> len == Extent(mc, v.size)) && (v.size == 0 ==> len % 8 == 0)
    ensures PoolOk(mc, Cut(v, len)) && Addr(v.blocks[0].blk, v.used) !in v.slots
  {
    hide SlotsOk, ListsOk, AtomsOk, TopOk, Aligned;
    AtomsSize(mc, v);
    CutAligned(mc, v, len);
    CutFresh(mc, v);
    CutSlots(mc, v, len);
    CutLists(v, len);
    CutTop(mc, v, len);
    CutAtoms(mc, v, len);
  }

  lemma AtomsSize(mc: Machine, v: View)
    requires AtomsOk(mc, v)
    ensures 0 <= v.size
  {
  }

  lemma CutAligned(mc: Machine, v: View, len: int)
    requires mc.Ok() && Aligned(mc, v) && v.blocks != [] && v.size >= 0
    requires (v.size > 0 ==> len == Extent(mc, v.size)) && (v.size == 0 ==> len % 8 == 0)
    ensures Aligned(mc, Cut(v, len))
  {
    hide Extent;
    var u := Unit(mc, v.size);
    assert len % u == 0;
    NextUnit(v.used - mc.Header(), len, u);
  }

  lemma CutTop(mc: Machine, v: View, len: int)
    requires mc.Ok() && TopOk(mc, v) && v.blocks != [] && len >= mc.ptr && v.used + len <= BLK_SIZE
    requires v.size > 0 ==> len == Extent(mc, v.size)
    ensures TopOk(mc, Cut(v, len))
  {
    if 0 < v.size < mc.ptr {
      NextMultiple(v.used, mc.ptr);
    }
  }

  lemma CutAtoms(mc: Machine, v: View, len: int)
    requires AtomsOk(mc, v) && v.blocks != [] && (v.size > 0 ==> len == Extent(mc, v.size))
    requires Addr(v.blocks[0].blk, v.used) !in v.slots && Addr(v.blocks[0].blk, v.used) !in v.live
    ensures AtomsOk(mc, Cut(v, len))
  {
    hide Extent;
    var a, t := Addr(v.blocks[0].blk, v.used), Cut(v, len);
    forall b ensures b in t.free <==> b in t.slots && b !in t.live {
    }
  }

  lemma NextMultiple(u: int, p: int)
    requires (p == 4 || p == 8) && u % p == 0
    ensures (u + p) % p == 0
  {
  }

  lemma CutFresh(mc: Machine, v: View)
    requires PoolOk(mc, v) && v.blocks != []
    ensures Addr(v.blocks[0].blk, v.used) !in v.slots && Addr(v.blocks[0].blk, v.used) !in v.live && Addr(v.blocks[0].blk, 0) == v.blocks[0]
  {
    hide ListsOk;
    TopBlock(v);
    if Addr(v.blocks[0].blk, v.used) in v.slots {
      SlotBelowUsed(mc, v, Addr(v.blocks[0].blk, v.used));
    }
  }

  lemma TopBlock(v: View)
    requires ListsOk(v) && v.blocks != []
    ensures Addr(v.blocks[0].blk, 0) == v.blocks[0]
  {
    assert v.blocks[0] in v.blocks;
  }

  lemma SlotBelowUsed(mc: Machine, v: View, a: Addr)
    requires PoolOk(mc, v) && v.blocks != [] && a in v.slots && a.blk == v.blocks[0].blk
    ensures a.off < v.used
  {
  }

  lemma CutSlots(mc: Machine, v: View, len: int)
    requires PoolOk(mc, v) && v.blocks != [] && len >= mc.ptr && v.used + len <= BLK_SIZE
    ensures SlotsOk(mc, Cut(v, len))
  {
    hide AtomsOk, Extent;
    TopBlock(v);
    hide ListsOk;
    assert v.blocks[0] in v.blocks;
  }

  lemma CutLists(v: View, len: int)
    requires ListsOk(v) && v.blocks != []
    ensures ListsOk(Cut(v, len))
  {
  }

  /** A live atom is pushed to the list of free atoms. */
  function Freed(v: View, a: Addr): View {
    v.(word := v.word[a := v.avail], avail := To(a), free := [a] + v.free, live := v.live - {a}, count := v.count - 1)
  }

  lemma FreeKeeps(mc: Machine, v: View, a: Addr)
    requires PoolOk(mc, v) && a in v.live && v.size > 0
    ensures PoolOk(mc, Freed(v, a))
  {
    hide SlotsOk, TopOk, ListsOk, AtomsOk;
    NotLinked(mc, v, a);
    FreeLists(v, a);
    FreeAtoms(mc, v, a);
    SlotsFrame(mc, v, Freed(v, a));
  }

  lemma FreeLists(v: View, a: Addr)
    requires ListsOk(v) && a !in v.free && a !in v.blocks && a !in v.stocks
    ensures ListsOk(Freed(v, a))
  {
    var t := Freed(v, a);
    ChainPush(v.word, v.avail, v.free, a);
    ChainFrame(v.word, t.word, v.link, v.blocks);
    ChainFrame(v.word, t.word, v.stock, v.stocks);
    hide Chain;
    DistinctPush(v.free, a);
  }

  lemma FreeAtoms(mc: Machine, v: View, a: Addr)
    requires AtomsOk(mc, v) && a in v.live && v.size > 0
    ensures AtomsOk(mc, Freed(v, a))
  {
    hide Extent;
    var t := Freed(v, a);
    forall b ensures b in t.free <==> b in t.slots && b !in t.live {
    }
  }

  lemma NotLinked(mc: Machine, v: View, a: Addr)
    requires PoolOk(mc, v) && a in v.live
    ensures a in v.slots && a !in v.free && a !in v.blocks && a !in v.stocks
  {
    assert a in v.slots && a.off > 0;
  }

  /** Even for atoms shorter than a pointer: if `size` fits, so does the length by which the block is advanced. */
  lemma RoomForExtent(mc: Machine, v: View)
    requires PoolOk(mc, v) && v.blocks != [] && v.size > 0 && v.used + v.size <= BLK_SIZE
    ensures v.used + Extent(mc, v.size) <= BLK_SIZE
  {
    hide SlotsOk, ListsOk, AtomsOk;
    if v.size < mc.ptr {
      MultipleBelow(v.used, mc.ptr);
    }
  }

  lemma MultipleBelow(u: int, p: int)
    requires (p == 4 || p == 8) && u % p == 0 && u < BLK_SIZE
    ensures u + p <= BLK_SIZE
  {
  }

  // ----- the pool

  /** Only words at the beginning of a block have changed. */
  ghost predicate HeadersOnly(word: map<Addr, Ptr>, word': map<Addr, Ptr>) {
    forall a: Addr :: a.off != 0 ==> (a in word <==> a in word') && (a in word && a in word' ==> word'[a] == word[a])
  }

  /** No block is opened if the newest one has room for n bytes; otherwise one is, and the control program is asked for it only if none
      is in stock. */
  ghost predicate Supplied(v: View, w: View, n: int) {
    if v.blocks != [] && v.used + n <= 8000 then w.blocks == v.blocks && w.nextBlk == v.nextBlk
    else w.blocks != [] && w.blocks[1..] == v.blocks && w.nextBlk == if v.stock == Null then v.nextBlk + 1 else v.nextBlk
  }

  /** Atom a is the last one of the newest block and follows what was in use of it, or the header if the block is new. */
  ghost predicate TopAtom(mc: Machine, v: View, w: View, a: Addr, n: int)
    requires mc.Ok()
  {
    && w.blocks != [] && a in w.slots && a.blk == w.blocks[0].blk && w.used == a.off + w.slots[a]
    && a.off == if v.blocks != [] && v.used + n <= 8000 then v.used else mc.Header()
  }

  class Pool {
    const mc: Machine
    const size: int
    var avail: Ptr
    var link: Ptr
    var used: int
    var stock: Ptr
    var count: int
    var word: map<Addr, Ptr>
    var nextBlk: int
    ghost var slots: map<Addr, int>
    ghost var live: set<Addr>
    ghost var free: seq<Addr>
    ghost var blocks: seq<Addr>
    ghost var stocks: seq<Addr>

    ghost function Now(): View
      reads this
    {
      View(size, avail, link, used, stock, count, word, nextBlk, slots, live, free, blocks, stocks)
    }

    ghost predicate Valid()
      reads this
    {
      PoolOk(mc, Now()) && nextBlk >= 0
    }

    /** dmp_create_pool */
    constructor (mc: Machine, size: int)
      requires mc.Ok() && 0 <= size <= 256
      ensures Valid() && this.size == size && this.mc == mc && live == {} && count == 0
    {
      this.mc, this.size, avail, link, used, stock, count, word, nextBlk := mc, size, Null, Null, 0, Null, 0, map[], 0;
      slots, live, free, blocks, stocks := map[], {}, [], [], [];
    }

    /** A new block becomes the most recently allocated one: from the stock, or from the control program. */
    method OpenBlock()
      requires Valid()
      modifies this`link, this`used, this`stock, this`word, this`nextBlk, this`blocks, this`stocks
      ensures Valid() && blocks != [] && link == To(blocks[0]) && used == mc.Header() && blocks[1..] == old(blocks)
      ensures HeadersOnly(old(word), word) && nextBlk == if old(stock) == Null then old(nextBlk) + 1 else old(nextBlk)
    {
      hide PoolOk;
      var blk: Addr;
      StockHead(mc, Now());
      if stock != Null {
        UnstockKeeps(mc, Now());
        blk := stock.a;
        stock := word[blk];
        stocks := stocks[1..];
      } else {
        blk := Addr(nextBlk, 0);
        GrantBlock(mc, Now());
        nextBlk := nextBlk + 1;
      }
      OpenKeeps(mc, Now(), blk);
      word := word[blk := link];
      link := To(blk);
      used := mc.Header();
      blocks := [blk] + blocks;
    }

    /** Cut an atom of length len off the newest block; there is room for it. */
    method CutAtom(len: int) returns (a: Addr)
      requires Valid() && blocks != [] && len >= mc.ptr && used + len <= BLK_SIZE
      requires (size > 0 ==> len == Extent(mc, size)) && (size == 0 ==> len % 8 == 0)
      modifies this`used, this`count, this`slots, this`live
      ensures Valid() && a !in old(live) && live == old(live) + {a} && a in slots && slots[a] == len && count == old(count) + 1
      ensures a !in old(slots) && slots == old(slots)[a := len] && a == Addr(blocks[0].blk, old(used)) && used == old(used) + len
    {
      hide PoolOk;
      LinkHead(mc, Now());
      CutKeeps(mc, Now(), len);
      LiveSlots(mc, Now());
      a := Addr(link.a.blk, used);
      slots := slots[a := len];
      live := live + {a};
      used := used + len;
      count := count + 1;
    }

    /** dmp_get_atom */
    method GetAtom() returns (a: Addr)
      requires Valid() && size > 0
      modifies this
      ensures Valid() && a !in old(live) && live == old(live) + {a} && a in slots && slots[a] >= size && count == old(count) + 1
      ensures if old(avail) != Null then a == old(avail.a) && slots == old(slots) && blocks == old(blocks) && word == old(word) && nextBlk == old(nextBlk)
              else a !in old(slots) && slots == old(slots)[a := Extent(mc, size)] && HeadersOnly(old(word), word)
                   && Supplied(old(Now()), Now(), size) && TopAtom(mc, old(Now()), Now(), a, size)
    {
      hide PoolOk;
      FreeHead(mc, Now());
      if avail != Null {
        PullKeeps(mc, Now());
        a := avail.a;
        avail := word[a];
        free := free[1..];
        live := live + {a};
        count := count + 1;
        PulledExtent(mc, Now(), a);
        return;
      }
      LinkHead(mc, Now());
      if link == Null || used + size > BLK_SIZE {
        OpenBlock();
        SizeBound(mc, Now());
      }
      RoomForExtent(mc, Now());
      a := CutAtom(Extent(mc, size));
    }

    /** dmp_free_atom */
    method FreeAtom(a: Addr)
      requires Valid() && size > 0 && a in live
      modifies this
      ensures Valid() && live == old(live) - {a} && count == old(count) - 1
      ensures avail == To(a) && word == old(word)[a := old(avail)] && slots == old(slots) && blocks == old(blocks)
    {
      hide PoolOk;
      FreeKeeps(mc, Now(), a);
      word := word[a := avail];
      avail := To(a);
      free := [a] + free;
      live := live - {a};
      count := count - 1;
    }

    /** dmp_get_atomv */
    method GetAtomv(len: int) returns (a: Addr)
      requires Valid() && size == 0 && 1 <= len <= 256
      modifies this
      ensures Valid() && a !in old(live) && live == old(live) + {a} && a in slots && slots[a] >= len && count == old(count) + 1
      ensures a.off % 8 == 0 && slots[a] % 8 == 0 && Extent(mc, len) <= slots[a] < Extent(mc, len) + 8
      ensures a !in old(slots) && slots == old(slots)[a := slots[a]] && HeadersOnly(old(word), word)
      ensures Supplied(old(Now()), Now(), slots[a]) && TopAtom(mc, old(Now()), Now(), a, slots[a])
    {
      hide PoolOk;
      var n := Align(Extent(mc, len));
      MachineOk(mc, Now());
      LinkHead(mc, Now());
      if link == Null || used + n > BLK_SIZE {
        OpenBlock();
      }
      a := CutAtom(n);
      AtomsAligned(mc, Now(), a);
    }

    /** The first block moves to the list of stock blocks. */
    method StockOne()
      requires Valid() && link != Null && live == {} && count == 0 && slots == map[] && free == [] && avail == Null
      modifies this
      ensures Valid() && live == {} && count == 0 && slots == map[] && free == [] && avail == Null && nextBlk == old(nextBlk)
      ensures old(blocks) != [] && blocks == old(blocks)[1..] && stocks == [old(blocks)[0]] + old(stocks)
    {
      hide PoolOk;
      LinkHead(mc, Now());
      StockBlock(mc, Now());
      var blk := link.a;
      link := word[blk];
      word := word[blk := stock];
      stock := To(blk);
      stocks := [blk] + stocks;
      blocks := blocks[1..];
    }

    /** dmp_free_all */
    method FreeAll()
      requires Valid()
      modifies this
      ensures Valid() && live == {} && count == 0 && link == Null && blocks == [] && nextBlk == old(nextBlk)
      ensures forall b :: b in stocks <==> b in old(stocks) || b in old(blocks)
    {
      hide PoolOk;
      DropKeeps(mc, Now());
      avail, used, count := Null, used, 0;
      slots, live, free := map[], {}, [];
      while link != Null
        invariant Valid() && live == {} && count == 0 && slots == map[] && free == [] && avail == Null && nextBlk == old(nextBlk)
        invariant forall b :: b in stocks || b in blocks <==> b in old(stocks) || b in old(blocks)
        decreases |blocks|
      {
        LinkHead(mc, Now());
        StockOne();
      }
      LinkHead(mc, Now());
      ResetUsed(mc, Now());
      used := 0;
    }
  }

  lemma StockHead(mc: Machine, v: View)
    requires PoolOk(mc, v)
    ensures mc.Ok() && (v.stock == Null <==> v.stocks == []) && (v.stocks != [] ==> v.stock == To(v.stocks[0]))
  {
  }

  lemma LinkHead(mc: Machine, v: View)
    requires PoolOk(mc, v)
    ensures mc.Ok() && (v.link == Null <==> v.blocks == []) && (v.blocks != [] ==> v.link == To(v.blocks[0]) && v.blocks[0] in v.word)
  {
  }

  lemma FreeHead(mc: Machine, v: View)
    requires PoolOk(mc, v)
    ensures (v.avail == Null <==> v.free == []) && (v.free != [] ==> v.avail == To(v.free[0]) && v.free[0] in v.word)
  {
  }

  lemma MachineOk(mc: Machine, v: View)
    requires PoolOk(mc, v)
    ensures mc.Ok()
  {
  }

  lemma SizeBound(mc: Machine, v: View)
    requires PoolOk(mc, v)
    ensures v.size <= 256
  {
  }

  lemma LiveSlots(mc: Machine, v: View)
    requires PoolOk(mc, v)
    ensures v.live <= v.slots.Keys
  {
  }

  lemma PulledExtent(mc: Machine, v: View, a: Addr)
    requires PoolOk(mc, v) && a in v.live && v.size > 0
    ensures a in v.slots && v.slots[a] >= v.size
  {
  }

  lemma GrantBlock(mc: Machine, v: View)
    requires PoolOk(mc, v)
    ensures PoolOk(mc, v.(nextBlk := v.nextBlk + 1)) && Addr(v.nextBlk, 0) !in v.blocks && Addr(v.nextBlk, 0) !in v.stocks
  {
    hide SlotsOk, TopOk, AtomsOk, Chain;
    var t := v.(nextBlk := v.nextBlk + 1);
    SlotsFrame(mc, v, t);
    AtomsFrame(mc, v, t);
  }

  lemma DropKeeps(mc: Machine, v: View)
    requires PoolOk(mc, v)
    ensures PoolOk(mc, v.(avail := Null, count := 0, slots := map[], live := {}, free := []))
  {
    hide Chain, Overlap, Extent;
    assert Chain(v.word, Null, []) by {
      NoChain(v.word);
    }
  }

  lemma NoChain(word: map<Addr, Ptr>)
    ensures Chain(word, Null, [])
  {
  }

  lemma ResetUsed(mc: Machine, v: View)
    requires PoolOk(mc, v) && v.blocks == []
    ensures PoolOk(mc, v.(used := 0))
  {
    hide Chain, Overlap, Extent;
  }

  /** One block moves from the list of allocated blocks to the stock. */
  lemma StockBlock(mc: Machine, v: View)
    requires PoolOk(mc, v) && v.blocks != [] && v.slots == map[] && v.free == [] && v.blocks[0] in v.word
    ensures var b := v.blocks[0];
            PoolOk(mc, v.(link := v.word[b], word := v.word[b := v.stock], stock := To(b), stocks := [b] + v.stocks, blocks := v.blocks[1..]))
  {
    hide Extent, Overlap;
    var b := v.blocks[0];
    var t := v.(link := v.word[b], word := v.word[b := v.stock], stock := To(b), stocks := [b] + v.stocks, blocks := v.blocks[1..]);
    assert b in v.blocks;
    ChainPush(v.word, v.stock, v.stocks, b);
    assert Chain(v.word, v.word[b], v.blocks[1..]);
    RestOf(v.blocks, b);
    ChainFrame(v.word, t.word, v.word[b], v.blocks[1..]);
    DistinctPush(v.stocks, b);
    StockLists(v, t);
  }

  lemma StockLists(v: View, t: View)
    requires ListsOk(v) && v.blocks != [] && t.nextBlk == v.nextBlk && t.stocks == [v.blocks[0]] + v.stocks && t.blocks == v.blocks[1..]
    ensures NoDup(t.blocks)
    ensures forall a :: a in t.blocks ==> a.off == 0 && 0 <= a.blk < t.nextBlk && a !in t.stocks
    ensures forall a :: a in t.stocks ==> a.off == 0 && 0 <= a.blk < t.nextBlk
  {
    hide Chain;
    forall i, j | 0 <= i < j < |t.blocks| ensures t.blocks[i] != t.blocks[j] {
      assert v.blocks[i + 1] != v.blocks[j + 1];
    }
    forall a | a in t.blocks ensures a in v.blocks && a != v.blocks[0] {
      RestOf(v.blocks, a);
    }
    assert v.blocks[0] in v.blocks;
  }
}
