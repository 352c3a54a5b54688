/** The implicit enumeration tree as an object: patch lists are made, freed and applied along paths from the root. */
module IesTree {
  import opened Collections
  import opened IesModel
  import opened IesState
  import opened IesSave
  import opened IesRevive
  import opened IesDelete

  // ----- walking a path

  /** Mark the rows and columns of the last node of a path. */
  method MarkItems(path: seq<Patch>) returns (marked: set<int>)
    ensures marked == Items(path)
  {
    marked := {};
    var k := 0;
    while k < |path|
      invariant 0 <= k <= |path| && marked == Items(path[..k])
    {
      assert path[..k + 1] == path[..k] + [path[k]];
      ItemsLast(path[..k], path[k]);
      marked := marked - path[k].del + path[k].add;
      k := k + 1;
    }
    assert path[..k] == path;
  }

  lemma {:induction false} ItemsInAdds(path: seq<Patch>, x: int)
    requires x in Items(path)
    ensures exists k :: 0 <= k < |path| && x in path[k].add
  {
    ItemsAdded(path, x);
  }

  /** Look through the add_them lists of the path for items that are still marked. */
  method CollectMarked(path: seq<Patch>, left: set<int>) returns (del: set<int>)
    requires left <= Items(path)
    ensures del == left
  {
    del := {};
    var marked := left;
    var k := 0;
    while k < |path|
      invariant 0 <= k <= |path| && del + marked == left && del !! marked
      invariant forall h, x :: 0 <= h < k && x in path[h].add ==> x !in marked
    {
      del := del + (path[k].add * marked);
      marked := marked - path[k].add;
      k := k + 1;
    }
    Inhabited(marked);
    forall x | x in marked ensures false {
      ItemsInAdds(path, x);
    }
    SameSet(del, left);
  }

  lemma {:induction false} AttrPrefix(path: seq<Patch>, k: nat, x: int, d: Attr)
    requires k < |path|
    ensures AttrOf(path[..k + 1], x, d) == PatchAttr(path[k], x, d, AttrOf(path[..k], x, d))
  {
    assert path[..k + 1] == path[..k] + [path[k]];
    AttrLast(path[..k], path[k], x, d);
  }

  /** The most recent types/bounds entries of the path; a deletion forgets the entry. */
  ghost predicate BndsAre(ms: Master, path: seq<Patch>, temp: map<int, Bnds>) {
    forall x :: x in ms ==> AttrOf(path, x, Default(ms[x])).bnds == if x in temp then temp[x] else Default(ms[x]).bnds
  }

  lemma BndsNext(ms: Master, path: seq<Patch>, k: nat, temp: map<int, Bnds>)
    requires k < |path| && BndsAre(ms, path[..k], temp)
    ensures BndsAre(ms, path[..k + 1], (temp - path[k].del) + path[k].bnds)
  {
    hide AttrOf, Default;
    var next := (temp - path[k].del) + path[k].bnds;
    forall x | x in ms
      ensures AttrOf(path[..k + 1], x, Default(ms[x])).bnds == if x in next then next[x] else Default(ms[x]).bnds
    {
      AttrPrefix(path, k, x, Default(ms[x]));
    }
  }

  method LatestBnds(ghost ms: Master, path: seq<Patch>) returns (temp: map<int, Bnds>)
    ensures BndsAre(ms, path, temp)
  {
    temp := map[];
    var k := 0;
    assert BndsAre(ms, path[..0], temp);
    hide BndsAre, AttrOf;
    while k < |path|
      invariant 0 <= k <= |path| && BndsAre(ms, path[..k], temp)
    {
      BndsNext(ms, path, k, temp);
      temp := (temp - path[k].del) + path[k].bnds;
      k := k + 1;
    }
    assert path[..k] == path;
  }

  /** The most recent objective coefficient entries of the path. */
  ghost predicate CoefAre(ms: Master, path: seq<Patch>, temp: map<int, real>) {
    forall x :: x in ms ==> AttrOf(path, x, Default(ms[x])).coef == if x in temp then temp[x] else Default(ms[x]).coef
  }

  lemma CoefNext(ms: Master, path: seq<Patch>, k: nat, temp: map<int, real>)
    requires k < |path| && CoefAre(ms, path[..k], temp)
    ensures CoefAre(ms, path[..k + 1], (temp - path[k].del) + path[k].coef)
  {
    hide AttrOf, Default;
    var next := (temp - path[k].del) + path[k].coef;
    forall x | x in ms
      ensures AttrOf(path[..k + 1], x, Default(ms[x])).coef == if x in next then next[x] else Default(ms[x]).coef
    {
      AttrPrefix(path, k, x, Default(ms[x]));
    }
  }

  method LatestCoef(ghost ms: Master, path: seq<Patch>) returns (temp: map<int, real>)
    ensures CoefAre(ms, path, temp)
  {
    temp := map[];
    var k := 0;
    assert CoefAre(ms, path[..0], temp);
    hide CoefAre, AttrOf;
    while k < |path|
      invariant 0 <= k <= |path| && CoefAre(ms, path[..k], temp)
    {
      CoefNext(ms, path, k, temp);
      temp := (temp - path[k].del) + path[k].coef;
      k := k + 1;
    }
    assert path[..k] == path;
  }

  /** The most recent status entries of the path. */
  ghost predicate StatAre(ms: Master, path: seq<Patch>, temp: map<int, Tag>) {
    forall x :: x in ms ==> AttrOf(path, x, Default(ms[x])).tag == if x in temp then temp[x] else Default(ms[x]).tag
  }

  lemma StatNext(ms: Master, path: seq<Patch>, k: nat, temp: map<int, Tag>)
    requires k < |path| && StatAre(ms, path[..k], temp)
    ensures StatAre(ms, path[..k + 1], (temp - path[k].del) + path[k].stat)
  {
    hide AttrOf, Default;
    var next := (temp - path[k].del) + path[k].stat;
    forall x | x in ms
      ensures AttrOf(path[..k + 1], x, Default(ms[x])).tag == if x in next then next[x] else Default(ms[x]).tag
    {
      AttrPrefix(path, k, x, Default(ms[x]));
    }
  }

  method LatestStat(ghost ms: Master, path: seq<Patch>) returns (temp: map<int, Tag>)
    ensures StatAre(ms, path, temp)
  {
    temp := map[];
    var k := 0;
    assert StatAre(ms, path[..0], temp);
    hide StatAre, AttrOf;
    while k < |path|
      invariant 0 <= k <= |path| && StatAre(ms, path[..k], temp)
    {
      StatNext(ms, path, k, temp);
      temp := (temp - path[k].del) + path[k].stat;
      k := k + 1;
    }
    assert path[..k] == path;
  }

  method LatestConst(path: seq<Patch>) returns (c: real)
    ensures c == ConstOf(path)
  {
    c := 0.0;
    var k := 0;
    while k < |path|
      invariant 0 <= k <= |path| && c == ConstOf(path[..k])
    {
      assert path[..k + 1] == path[..k] + [path[k]];
      ItemsLast(path[..k], path[k]);
      match path[k].c0 {
        case Same =>
        case Now(v) => c := v;
      }
      k := k + 1;
    }
    assert path[..k] == path;
  }

  /** The comparison loops of make_patch_lists. */
  method MakePatch(ms: Master, path: seq<Patch>, P: Prob) returns (p: Patch)
    requires P.at.Keys <= ms.Keys
    ensures Encodes(ms, path, P, p)
  {
    hide Items, AttrOf, ConstOf;
    var marked := MarkItems(path);
    assert marked - P.at.Keys <= marked;
    var del := CollectMarked(path, marked - P.at.Keys);
    var tb := LatestBnds(ms, path);
    var tc := LatestCoef(ms, path);
    var ts := LatestStat(ms, path);
    var c := LatestConst(path);
    var bnds := map x | x in P.at && P.at[x].bnds != (if x in tb then tb[x] else Default(ms[x]).bnds) :: P.at[x].bnds;
    var coef := map x | x in P.at && P.at[x].coef != (if x in tc then tc[x] else Default(ms[x]).coef) :: P.at[x].coef;
    var stat := map x | x in P.at && P.at[x].tag != (if x in ts then ts[x] else Default(ms[x]).tag) :: P.at[x].tag;
    p := Patch(del, P.at.Keys - marked, bnds, coef, if P.c0 == c then Same else Now(P.c0), stat);
  }

  /** Defaults first, then the patches of the path in order, as far as they concern rows and columns of the node. */
  method ApplyPatches(ms: Master, path: seq<Patch>) returns (P: Prob)
    requires Known(ms, path)
    ensures P == Decode(ms, path)
  {
    hide Items, ConstOf, Default;
    var items := MarkItems(path);
    var at := map x | x in items :: Default(ms[x]);
    var k := 0;
    while k < |path|
      invariant 0 <= k <= |path|
      invariant at.Keys == items && forall x :: x in items ==> at[x] == AttrOf(path[..k], x, Default(ms[x]))
    {
      ghost var before := at;
      var p := path[k];
      at := map x | x in items :: PatchAttr(p, x, Default(ms[x]), at[x]);
      forall x | x in items ensures at[x] == AttrOf(path[..k + 1], x, Default(ms[x])) {
        AttrPrefix(path, k, x, Default(ms[x]));
      }
      k := k + 1;
    }
    assert path[..k] == path;
    var c := LatestConst(path);
    P := Prob(at, c);
    assert at == Decode(ms, path).at;
  }
}
