/** Master rows stay only as long as some node problem uses them. */
module IesHeld {
  import opened Collections
  import opened IesModel
  import opened IesState
  import opened IesSave
  import opened IesRevive
  import opened IesDelete

  /** Row x is named in some add_them list or belongs to the current active node problem. */
  ghost predicate Held(s: St, x: int) {
    x in s.count && (s.count[x] >= 1 || (ActiveCurrent(s, s.cur) && x in s.inst.at))
  }

  ghost predicate RowsHeldBut(s: St, X: set<int>) {
    forall x :: x in s.master && s.master[x].what == Row && x !in X ==> Held(s, x)
  }

  ghost predicate RowsHeld(s: St) {
    RowsHeldBut(s, {})
  }

  lemma ItemCounted(s: St, v: int, x: int)
    requires Inv(s) && v in s.nodes && x in Items(Path(s.nodes, v))
    ensures x in s.count && s.count[x] >= 1
  {
    hide CountsOk, AllFaithful, CurrentOk;
    ItemsLive(s, v, x);
    Referenced(s, x, v);
  }

  lemma SuspendHeld(s: St, p: Patch, x: int)
    requires CanSuspend(s, p) && Held(s, x) && x in s.master
    ensures Held(Suspended(s, p), x)
  {
    hide Inv;
    CountsPositive(s, x);
    if x in s.inst.at && x !in p.add {
      AboveCounted(s, x);
    }
  }

  /** After the lists of the current node are made, the items that only it adds are the items of the instance that were not
      counted. */
  ghost predicate NewOrphans(count: map<int, int>, inst: Prob, t: map<int, int>, add: set<int>) {
    forall x :: x in t ==> x in count && ((x in add && t[x] == 1) <==> (x in inst.at && count[x] == 0))
  }

  lemma SuspendOrphans(s: St, p: Patch)
    requires CanSuspend(s, p)
    ensures NewOrphans(s.count, s.inst, Bump(s.count, p.add, 1), p.add)
  {
    hide Inv;
    var t := Bump(s.count, p.add, 1);
    forall x | x in t ensures x in s.count && ((x in p.add && t[x] == 1) <==> (x in s.inst.at && s.count[x] == 0)) {
      CountedMaster(s, x);
      CountsPositive(s, x);
      if x in s.inst.at && x !in p.add {
        AboveCounted(s, x);
      }
    }
  }

  lemma CountedMaster(s: St, x: int)
    requires Inv(s) && x in s.count
    ensures x in s.master
  {
  }

  lemma CountsPositive(s: St, x: int)
    requires Inv(s) && x in s.master
    ensures x in s.count && s.count[x] >= 0
  {
  }

  lemma AboveCounted(s: St, x: int)
    requires Inv(s) && s.cur in s.nodes && x in Items(Above(s.nodes, s.cur))
    ensures x in s.count && s.count[x] >= 1
  {
    hide CountsOk, AllFaithful, RefsOk;
    ItemCounted(s, s.nodes[s.cur].up, x);
  }

  lemma ResumeHeld(s: St, v: int, P: Prob, x: int)
    requires Inv(s) && s.cur == -1 && v in s.nodes && s.nodes[v].count < 0 && P.at.Keys == Items(Path(s.nodes, v))
    requires Held(s, x)
    ensures Held(Resumed(s, v, P), x)
  {
    hide Inv, Items, Path, Above;
    NoNodeBelow0(s);
    if x in s.nodes[v].patch.add {
      AddedItem(s, v, x);
    }
  }

  lemma NoNodeBelow0(s: St)
    requires Inv(s)
    ensures -1 !in s.nodes
  {
  }

  lemma AddedItem(s: St, v: int, x: int)
    requires Inv(s) && v in s.nodes && x in s.nodes[v].patch.add
    ensures x in Items(Path(s.nodes, v))
  {
    hide CountsOk, AllFaithful, RefsOk, AllNamesOk, CurrentOk;
    PathIs(s.nodes, v);
    ItemsLast(Above(s.nodes, v), s.nodes[v].patch);
  }

  /** Removing a leaf together with the rows that only it adds leaves the other rows held. */
  lemma RemoveHeld(s: St, v: int, x: int)
    requires Inv(s) && v in s.nodes && v != s.cur && Held(s, x)
    requires !(x in s.nodes[v].patch.add && x in s.count && s.count[x] == 1)
    ensures Held(WithoutLeaf(s, v), x)
  {
    hide AllFaithful, RefsOk, AllNamesOk;
    if ActiveCurrent(s, s.cur) {
      RemovedActive(s, v, s.cur);
    }
  }
}
