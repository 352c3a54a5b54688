/** Keys: nodes keep theirs, and their order decides where a new node goes. */
module AvlKeys {
  import opened AvlModel
  import opened AvlInsert

  ghost predicate SameNodes(mem: Mem, t: Mem) {
    (forall x :: x in mem <==> x in t) && forall x :: x in mem && x in t ==> t[x].key == mem[x].key
  }

  /** The nodes of mem and one more, r; the others keep their keys. */
  ghost predicate Grown(mem: Mem, t: Mem, r: int, key: int) {
    && (forall x :: x in t <==> x in mem || x == r) && r in t && t[r].key == key
    && forall x :: x in mem && x in t && x != r ==> t[x].key == mem[x].key
  }

  ghost function KeysOf(mem: Mem, ord: seq<int>): (s: seq<int>)
    ensures |s| == |ord| && forall i :: 0 <= i < |ord| ==> s[i] == KeyOf(mem, ord[i])
  {
    seq(|ord|, i requires 0 <= i < |ord| => KeyOf(mem, ord[i]))
  }

  function KeyOf(mem: Mem, x: int): int {
    if x in mem then mem[x].key else 0
  }

  /** The key comparison routine orders all keys, possibly with ties. */
  ghost predicate Ordering(fcmp: (int, int) -> int) {
    && (forall a, b :: fcmp(a, b) > 0 <==> fcmp(b, a) < 0)
    && (forall a, b, c :: fcmp(a, b) <= 0 && fcmp(b, c) <= 0 ==> fcmp(a, c) <= 0)
  }

  ghost predicate Sorted(fcmp: (int, int) -> int, keys: seq<int>) {
    forall i, j :: 0 <= i < j < |keys| ==> fcmp(keys[i], keys[j]) <= 0
  }

  /** All keys before lo are less than the given one, all keys from hi on are not. */
  ghost predicate Between(fcmp: (int, int) -> int, keys: seq<int>, key: int, lo: int, hi: int) {
    && (forall i :: 0 <= i < lo && i < |keys| ==> fcmp(key, keys[i]) > 0)
    && (forall i :: 0 <= i < |keys| && hi <= i ==> fcmp(key, keys[i]) <= 0)
  }

  ghost predicate FirstNotLess(fcmp: (int, int) -> int, keys: seq<int>, key: int, k: int) {
    Between(fcmp, keys, key, k, k)
  }

  lemma Chained(fcmp: (int, int) -> int, a: int, b: int, c: int)
    requires Ordering(fcmp)
    ensures fcmp(a, b) <= 0 && fcmp(b, c) <= 0 ==> fcmp(a, c) <= 0
    ensures (fcmp(a, b) > 0 <==> fcmp(b, a) < 0) && (fcmp(b, a) > 0 <==> fcmp(a, b) < 0)
  {
  }

  lemma Halved(fcmp: (int, int) -> int, keys: seq<int>, key: int, lo: int, hi: int, at: int)
    requires Ordering(fcmp) && Sorted(fcmp, keys) && Between(fcmp, keys, key, lo, hi) && 0 <= lo <= at < hi <= |keys|
    ensures if fcmp(key, keys[at]) <= 0 then Between(fcmp, keys, key, lo, at) else Between(fcmp, keys, key, at + 1, hi)
  {
    if fcmp(key, keys[at]) <= 0 {
      forall i | 0 <= i < |keys| && at <= i ensures fcmp(key, keys[i]) <= 0 {
        if i > at {
          Chained(fcmp, key, keys[at], keys[i]);
        }
      }
    } else {
      forall i | 0 <= i < at + 1 && i < |keys| ensures fcmp(key, keys[i]) > 0 {
        if i < at {
          Chained(fcmp, key, keys[i], keys[at]);
        }
      }
    }
  }

  lemma SortedAt(fcmp: (int, int) -> int, keys: seq<int>, i: int, j: int)
    requires Sorted(fcmp, keys) && 0 <= i < j < |keys|
    ensures fcmp(keys[i], keys[j]) <= 0
  {
  }

  /** Elements before k are less than the key, all others are not. */
  lemma KeySide(fcmp: (int, int) -> int, keys: seq<int>, key: int, k: int, i: int)
    requires Ordering(fcmp) && FirstNotLess(fcmp, keys, key, k) && 0 <= i < |keys|
    ensures if i < k then fcmp(keys[i], key) <= 0 else fcmp(key, keys[i]) <= 0
  {
    hide Ordering;
    Chained(fcmp, key, keys[i], key);
  }

  /** A key put before the first one that is not less keeps the order. */
  lemma StaysSorted(fcmp: (int, int) -> int, keys: seq<int>, key: int, k: int)
    requires Ordering(fcmp) && Sorted(fcmp, keys) && 0 <= k <= |keys| && FirstNotLess(fcmp, keys, key, k)
    ensures Sorted(fcmp, Inserted(keys, k, key))
  {
    hide Ordering, Sorted, FirstNotLess, Inserted;
    var t := Inserted(keys, k, key);
    assert |t| == |keys| + 1 by {
      InsertedAt(keys, k, key, k);
    }
    forall i, j | 0 <= i < j < |t| ensures fcmp(t[i], t[j]) <= 0 {
      InsertedAt(keys, k, key, i);
      InsertedAt(keys, k, key, j);
      if i == k {
        KeySide(fcmp, keys, key, k, j - 1);
      } else if j == k {
        KeySide(fcmp, keys, key, k, i);
      } else {
        SortedAt(fcmp, keys, if i < k then i else i - 1, if j < k then j else j - 1);
      }
    }
    SortedIntro(fcmp, t);
  }

  lemma InsertedAt(keys: seq<int>, k: int, key: int, i: int)
    requires 0 <= k <= |keys| && 0 <= i <= |keys|
    ensures var t := Inserted(keys, k, key);
            |t| == |keys| + 1 && t[i] == if i < k then keys[i] else if i == k then key else keys[i - 1]
  {
  }

  lemma SortedIntro(fcmp: (int, int) -> int, keys: seq<int>)
    requires forall i, j :: 0 <= i < j < |keys| ==> fcmp(keys[i], keys[j]) <= 0
    ensures Sorted(fcmp, keys)
  {
  }

  lemma KeyAt(mem: Mem, root: int, g: Places, ord: seq<int>, x: int)
    requires Placed(mem, root, g, ord) && x in mem && x in g
    ensures 0 <= g[x].at < |ord| && KeysOf(mem, ord)[g[x].at] == mem[x].key
  {
  }

  lemma KeysSame(mem: Mem, t: Mem, ord: seq<int>)
    requires SameNodes(mem, t)
    ensures KeysOf(mem, ord) == KeysOf(t, ord)
  {
    forall i | 0 <= i < |ord| ensures KeysOf(mem, ord)[i] == KeysOf(t, ord)[i] {
      var x := ord[i];
      assert KeyOf(mem, x) == KeyOf(t, x);
    }
  }

  lemma GrownAfter(m0: Mem, m1: Mem, m2: Mem, r: int, key: int)
    requires SameNodes(m0, m1) && Grown(m1, m2, r, key)
    ensures Grown(m0, m2, r, key)
  {
  }

  lemma SameAfter(m0: Mem, m1: Mem, m2: Mem, r: int, key: int)
    requires Grown(m0, m1, r, key) && SameNodes(m1, m2)
    ensures Grown(m0, m2, r, key)
  {
  }

  lemma GrownKeys(mem: Mem, t: Mem, g: Places, root: int, ord: seq<int>, r: int, key: int, k: int)
    requires Grown(mem, t, r, key) && r !in mem && Placed(mem, root, g, ord) && 0 <= k <= |ord|
    ensures KeysOf(t, Inserted(ord, k, r)) == Inserted(KeysOf(mem, ord), k, key)
  {
    var a, b := KeysOf(t, Inserted(ord, k, r)), Inserted(KeysOf(mem, ord), k, key);
    forall i | 0 <= i < |a| ensures a[i] == b[i] {
      if i != k {
        var j := if i < k then i else i - 1;
        var x := ord[j];
        assert x in g && x in mem && Inserted(ord, k, r)[i] == x;
      }
    }
  }

  // ----- searching for a key

  /** Keys before lo are less than the given one, keys from hi on are greater. */
  ghost predicate Strictly(fcmp: (int, int) -> int, keys: seq<int>, key: int, lo: int, hi: int) {
    && (forall i :: 0 <= i < lo && i < |keys| ==> fcmp(key, keys[i]) > 0)
    && (forall i :: 0 <= i < |keys| && hi <= i ==> fcmp(key, keys[i]) < 0)
  }

  lemma Parted(fcmp: (int, int) -> int, keys: seq<int>, key: int, lo: int, hi: int, at: int)
    requires Ordering(fcmp) && Sorted(fcmp, keys) && Strictly(fcmp, keys, key, lo, hi) && 0 <= lo <= at < hi <= |keys| && fcmp(key, keys[at]) != 0
    ensures if fcmp(key, keys[at]) < 0 then Strictly(fcmp, keys, key, lo, at) else Strictly(fcmp, keys, key, at + 1, hi)
  {
    hide Ordering;
    forall i | 0 <= i < |keys| && at < i
      ensures fcmp(key, keys[at]) < 0 ==> fcmp(key, keys[i]) < 0
    {
      assert fcmp(keys[at], keys[i]) <= 0;
      Chained(fcmp, keys[at], keys[i], key);
      Chained(fcmp, key, keys[at], keys[i]);
      Chained(fcmp, keys[i], key, keys[at]);
    }
    forall i | 0 <= i < at
      ensures fcmp(key, keys[at]) > 0 ==> fcmp(key, keys[i]) > 0
    {
      Chained(fcmp, key, keys[i], keys[at]);
    }
  }

  lemma RunStarts(fcmp: (int, int) -> int, keys: seq<int>, key: int, k: int)
    requires Ordering(fcmp) && Sorted(fcmp, keys) && 0 <= k < |keys| && fcmp(key, keys[k]) == 0
    requires k > 0 ==> fcmp(keys[k - 1], keys[k]) != 0
    ensures FirstNotLess(fcmp, keys, key, k)
  {
    hide Ordering;
    forall i | 0 <= i < k ensures fcmp(key, keys[i]) > 0 {
      Chained(fcmp, key, keys[i], keys[k - 1]);
      Chained(fcmp, keys[k], key, keys[k - 1]);
      Chained(fcmp, key, keys[k], key);
      Chained(fcmp, keys[k - 1], keys[k], key);
      assert i < k - 1 ==> fcmp(keys[i], keys[k - 1]) <= 0;
    }
    forall i | k <= i < |keys| ensures fcmp(key, keys[i]) <= 0 {
      Chained(fcmp, key, keys[k], keys[i]);
    }
  }

  lemma RunGoesOn(fcmp: (int, int) -> int, key: int, a: int, b: int)
    requires Ordering(fcmp) && fcmp(key, a) == 0 && fcmp(b, a) == 0
    ensures fcmp(key, b) == 0
  {
    Chained(fcmp, key, a, b);
    Chained(fcmp, b, a, key);
  }
}
