/** Node problems of the implicit enumeration suite, stored as differences along the path from the root. */
module IesModel {
  import opened Sums
  import opened Collections

  datatype Kind = FR | LO | UP | DB | FX

  datatype Tag = BS | NL | NU | NF | NS

  datatype What = Row | Col

  datatype Item = Item(what: What, typx: Kind, lb: real, ub: real, coef: real)

  datatype Bnds = Bnds(typx: Kind, lb: real, ub: real)

  /** Local attributes of a row or column in a node problem. */
  datatype Attr = Attr(bnds: Bnds, coef: real, tag: Tag)

  /** ies_default_tagx */
  function DefaultTag(it: Item): Tag {
    if it.what == Row then BS else
      match it.typx
      case FR => NF
      case LO => NL
      case UP => NU
      case DB => if Abs(it.lb) <= Abs(it.ub) then NL else NF
      case FX => NS
  }

  function Default(it: Item): Attr {
    Attr(Bnds(it.typx, it.lb, it.ub), it.coef, DefaultTag(it))
  }

  /** The status names a bound that the row or column has, or its being basic, free or fixed. */
  predicate NamesBound(typx: Kind, t: Tag) {
    match t
    case BS => true
    case NL => typx == LO || typx == DB
    case NU => typx == UP || typx == DB
    case NF => typx == FR
    case NS => typx == FX
  }

  /** New rows are basic and new columns are not. The default status names a bound, except for a double-bounded column whose lower bound
      is the greater one in absolute value. */
  lemma DefaultStatus(it: Item)
    ensures Default(it).tag == BS <==> it.what == Row
    ensures NamesBound(it.typx, Default(it).tag) <==>
              !(it.what == Col && it.typx == DB && (if it.lb < 0.0 then -it.lb else it.lb) > (if it.ub < 0.0 then -it.ub else it.ub))
    ensures Default(it).tag == NU ==> it.typx == UP
    ensures !NamesBound(it.typx, Default(it).tag) ==> Default(it).tag == NF
    ensures Default(it).bnds == Bnds(it.typx, it.lb, it.ub) && Default(it).coef == it.coef
  {
  }

  /** The failing case, for a column with -2 <= x <= 1. */
  lemma DefaultStatusFails()
    ensures Default(Item(Col, DB, -2.0, 1.0, 0.0)).tag == NF && !NamesBound(DB, NF)
  {
  }

  type Master = map<int, Item>

  /** A node problem: its rows and columns with their attributes, and the constant term. */
  datatype Prob = Prob(at: map<int, Attr>, c0: real)

  datatype Const = Same | Now(c0: real)

  /** The patch lists of a node. */
  datatype Patch = Patch(del: set<int>, add: set<int>, bnds: map<int, Bnds>, coef: map<int, real>, c0: Const, stat: map<int, Tag>)

  const NO_PATCH := Patch({}, {}, map[], map[], Same, map[])

  // ----- decoding a path

  /** Rows and columns of the last node of a path. */
  function Items(path: seq<Patch>): set<int> {
    if path == [] then {} else
      var p := path[|path| - 1];
      Items(path[..|path| - 1]) - p.del + p.add
  }

  function PatchBnds(p: Patch, x: int, b: Bnds): Bnds {
    if x in p.bnds then p.bnds[x] else b
  }

  function PatchCoef(p: Patch, x: int, c: real): real {
    if x in p.coef then p.coef[x] else c
  }

  function PatchTag(p: Patch, x: int, t: Tag): Tag {
    if x in p.stat then p.stat[x] else t
  }

  function PatchAttr(p: Patch, x: int, d: Attr, a: Attr): Attr {
    var s := if x in p.del then d else a;
    Attr(PatchBnds(p, x, s.bnds), PatchCoef(p, x, s.coef), PatchTag(p, x, s.tag))
  }

  /** Attributes that the patches of a path give to row or column x with the default attributes d: a deletion on the way
      resets them to the defaults. */
  function AttrOf(path: seq<Patch>, x: int, d: Attr): Attr {
    if path == [] then d else PatchAttr(path[|path| - 1], x, d, AttrOf(path[..|path| - 1], x, d))
  }

  function ConstOf(path: seq<Patch>): real {
    if path == [] then 0.0 else
      match path[|path| - 1].c0
      case Same => ConstOf(path[..|path| - 1])
      case Now(c) => c
  }

  predicate Known(ms: Master, path: seq<Patch>) {
    Items(path) <= ms.Keys
  }

  /** The problem of the last node of a path. */
  function Decode(ms: Master, path: seq<Patch>): Prob
    requires Known(ms, path)
  {
    Prob(map x | x in Items(path) :: AttrOf(path, x, Default(ms[x])), ConstOf(path))
  }

  lemma ItemsLast(path: seq<Patch>, p: Patch)
    ensures Items(path + [p]) == Items(path) - p.del + p.add
    ensures ConstOf(path + [p]) == match p.c0 { case Same => ConstOf(path) case Now(c) => c }
  {
    assert (path + [p])[..|path|] == path;
  }

  lemma AttrLast(path: seq<Patch>, p: Patch, x: int, d: Attr)
    ensures AttrOf(path + [p], x, d) == PatchAttr(p, x, d, AttrOf(path, x, d))
  {
    assert (path + [p])[..|path|] == path;
  }

  // ----- encoding the current problem against its parent

  /** The patch that make_patch_lists stores for problem P below `path`. */
  ghost predicate Encodes(ms: Master, path: seq<Patch>, P: Prob, p: Patch)
    requires P.at.Keys <= ms.Keys
  {
    && p.add == P.at.Keys - Items(path) && p.del == Items(path) - P.at.Keys
    && (forall x :: x in p.bnds <==> x in P.at && P.at[x].bnds != AttrOf(path, x, Default(ms[x])).bnds)
    && (forall x :: x in p.bnds && x in P.at ==> p.bnds[x] == P.at[x].bnds)
    && (forall x :: x in p.coef <==> x in P.at && P.at[x].coef != AttrOf(path, x, Default(ms[x])).coef)
    && (forall x :: x in p.coef && x in P.at ==> p.coef[x] == P.at[x].coef)
    && (forall x :: x in p.stat <==> x in P.at && P.at[x].tag != AttrOf(path, x, Default(ms[x])).tag)
    && (forall x :: x in p.stat && x in P.at ==> p.stat[x] == P.at[x].tag)
    && p.c0 == if P.c0 == ConstOf(path) then Same else Now(P.c0)
  }

  /** The items come back, and the constant term. */
  lemma ItemsBack(ms: Master, path: seq<Patch>, P: Prob, p: Patch)
    requires P.at.Keys <= ms.Keys && Encodes(ms, path, P, p)
    ensures Items(path + [p]) == P.at.Keys && ConstOf(path + [p]) == P.c0
  {
    hide AttrOf, Items;
    ItemsLast(path, p);
    SameSet(Items(path + [p]), P.at.Keys);
  }

  lemma AttrBack(ms: Master, path: seq<Patch>, P: Prob, p: Patch, x: int)
    requires P.at.Keys <= ms.Keys && Encodes(ms, path, P, p) && x in P.at
    ensures x in ms && AttrOf(path + [p], x, Default(ms[x])) == P.at[x]
  {
    hide AttrOf, Items;
    AttrLast(path, p, x, Default(ms[x]));
  }

  /** Decoding what was encoded gives the problem back: rows and columns, types, bounds, objective coefficients,
      statuses and the constant term, also for items deleted at one level and added again at another. */
  lemma RoundTrip(ms: Master, path: seq<Patch>, P: Prob, p: Patch)
    requires P.at.Keys <= ms.Keys && Encodes(ms, path, P, p)
    ensures Known(ms, path + [p]) && Decode(ms, path + [p]) == P
  {
    hide AttrOf, Items, Encodes, ConstOf;
    ItemsBack(ms, path, P, p);
    var D := Decode(ms, path + [p]).at;
    assert D.Keys == P.at.Keys;
    forall x | x in D ensures D[x] == P.at[x] {
      AttrBack(ms, path, P, p, x);
    }
  }

  /** A child without patches inherits everything from its parent. */
  lemma Inherits(ms: Master, path: seq<Patch>)
    requires Known(ms, path)
    ensures Known(ms, path + [NO_PATCH]) && Decode(ms, path + [NO_PATCH]) == Decode(ms, path)
  {
    ItemsLast(path, NO_PATCH);
    assert Items(path + [NO_PATCH]) == Items(path);
    var D, E := Decode(ms, path + [NO_PATCH]).at, Decode(ms, path).at;
    assert D.Keys == E.Keys;
    forall x | x in D ensures D[x] == E[x] {
      AttrLast(path, NO_PATCH, x, Default(ms[x]));
    }
  }

  // ----- items named in patches

  predicate Names(p: Patch, x: int) {
    x in p.del || x in p.add || x in p.bnds || x in p.coef || x in p.stat
  }

  lemma {:induction false} ItemsAdded(path: seq<Patch>, x: int)
    requires x in Items(path)
    ensures exists h :: 0 <= h < |path| && x in path[h].add
  {
    if path != [] {
      var n := |path| - 1;
      if x in path[n].add {
        assert 0 <= n < |path|;
      } else {
        ItemsAdded(path[..n], x);
        var h :| 0 <= h < n && x in path[..n][h].add;
        assert x in path[h].add;
      }
    }
  }

  /** Decoding depends on the master set only through the items of the problem. */
  lemma DecodeFrame(ms: Master, ms': Master, path: seq<Patch>)
    requires Known(ms, path) && forall x :: x in Items(path) ==> x in ms' && ms'[x] == ms[x]
    ensures Known(ms', path) && Decode(ms', path) == Decode(ms, path)
  {
    forall x | x in Items(path) ensures x in ms' {
    }
    var D, E := Decode(ms', path).at, Decode(ms, path).at;
    assert D.Keys == E.Keys;
    forall x | x in D ensures D[x] == E[x] {
    }
  }
}
