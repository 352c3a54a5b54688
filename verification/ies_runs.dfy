/** Runs of the enumeration tree: any interleaving of its operations. */
module IesRuns {
  import opened Collections
  import opened IesModel
  import opened IesState
  import opened IesSave
  import opened IesRevive
  import opened IesDelete
  import opened IesClass

  /** Save makes the patch lists of the current active node and leaves it; Leave leaves a current inactive node; Enter
      revives a node when none is current; Edit is any change of the current active node problem, or of the statuses of
      an inactive one. */
  datatype Op =
    | Save(p: Patch)
    | Leave
    | Enter(v: int)
    | Deactivate(v: int)
    | Create(w: int, parent: int)
    | AddItem(x: int, it: Item)
    | DropItem(x: int)
    | Edit(P: Prob)
    | Remove(v: int)

  ghost predicate Start(s: St) {
    s.master == map[] && s.count == map[] && s.nodes == map[] && s.cur == -1 && s.saved == map[]
  }

  ghost predicate CanEnter(s: St, v: int) {
    s.cur == -1 && TreeOk(s.nodes) && v in s.nodes && Known(s.master, Path(s.nodes, v))
  }

  ghost function Entered(s: St, v: int): St
    requires CanEnter(s, v)
  {
    var P := Decode(s.master, Path(s.nodes, v));
    if s.nodes[v].count < 0 then Resumed(s, v, P) else s.(cur := v, inst := P)
  }

  ghost predicate Step(s: St, op: Op, t: St) {
    match op
    case Save(p) => CanSuspend(s, p) && t == Suspended(s, p)
    case Leave => s.cur in s.nodes && s.nodes[s.cur].count >= 0 && t == s.(cur := -1)
    case Enter(v) => CanEnter(s, v) && t == Entered(s, v)
    case Deactivate(v) => v in s.nodes && s.nodes[v].count < 0 && v != s.cur && t == Deactivated(s, v)
    case Create(w, parent) =>
      && w !in s.nodes && w >= 0
      && (parent == -1 || (parent in s.nodes && parent in s.saved && parent < w && s.nodes[parent].count >= 0))
      && t == WithNode(s, w, parent)
    case AddItem(x, it) => x !in s.master && t == WithItem(s, x, it)
    case DropItem(x) => x in s.master && x in s.count && s.count[x] == 0 && (s.cur != -1 ==> x !in s.inst.at) && t == WithoutItem(s, x)
    case Edit(P) =>
      && s.cur in s.nodes && P.at.Keys <= s.master.Keys && (s.nodes[s.cur].count < 0 || P.at.Keys == s.inst.at.Keys)
      && t == s.(inst := P)
    case Remove(v) => v in s.nodes && s.nodes[v].count <= 0 && v != s.cur && t == WithoutLeaf(s, v)
  }

  ghost predicate Run(ss: seq<St>, ops: seq<Op>) {
    |ss| == |ops| + 1 && Start(ss[0]) && forall k :: 0 <= k < |ops| ==> Step(ss[k], ops[k], ss[k + 1])
  }

  lemma StartInv(s: St)
    requires Start(s)
    ensures Inv(s)
  {
  }

  lemma StepInv(s: St, op: Op, t: St)
    requires Inv(s) && Step(s, op, t)
    ensures Inv(t)
  {
    hide Inv, CanSuspend;
    InvParts(s);
    match op
    case Save(p) => SuspendKeeps(s, p);
    case Leave => LeaveInactive(s);
    case Enter(v) =>
      DecodeItems(s.master, Path(s.nodes, v));
      if s.nodes[v].count < 0 {
        ResumeActive(s, v, Decode(s.master, Path(s.nodes, v)));
      } else {
        ResumeInactive(s, v, Decode(s.master, Path(s.nodes, v)));
      }
    case Deactivate(v) => DeactivateKeeps(s, v);
    case Create(w, parent) => CreateKeeps(s, w, parent);
    case AddItem(x, it) => AddItemKeeps(s, x, it);
    case DropItem(x) => DropKeeps(s, x);
    case Edit(P) => EditKeeps(s, P);
    case Remove(v) => RemoveKeeps(s, v);
  }

  /** The invariant holds in every state of every run: a live item counts the add_them entries that name it, no patch list
      names a deleted item, and every node is decoded to the problem saved for it. */
  lemma {:induction false} RunInv(ss: seq<St>, ops: seq<Op>, k: nat)
    requires Run(ss, ops) && k < |ss|
    ensures Inv(ss[k])
  {
    hide Inv, Step;
    if k == 0 {
      StartInv(ss[0]);
    } else {
      RunInv(ss, ops, k - 1);
      StepAt(ss, ops, k - 1);
      StepInv(ss[k - 1], ops[k - 1], ss[k]);
    }
  }

  lemma StepAt(ss: seq<St>, ops: seq<Op>, k: nat)
    requires Run(ss, ops) && k < |ops|
    ensures Step(ss[k], ops[k], ss[k + 1])
  {
  }

  /** What is saved for a node changes only when the node itself is saved again or removed. */
  lemma StepSaved(s: St, op: Op, t: St, v: int)
    requires Step(s, op, t) && v in s.nodes && v in s.saved && v in t.nodes && !(op.Save? && s.cur == v)
    ensures v in t.saved && t.saved[v] == s.saved[v]
  {
    hide Inv, Path, Decode, Encodes, Items;
  }

  lemma {:induction false} SavedStays(ss: seq<St>, ops: seq<Op>, i: nat, j: nat, v: int, P: Prob)
    requires Run(ss, ops) && i <= j < |ss| && v in ss[i].saved && ss[i].saved[v] == P
    requires forall k :: i <= k <= j ==> v in ss[k].nodes
    requires forall k :: i <= k < j ==> !(ops[k].Save? && ss[k].cur == v)
    ensures v in ss[j].saved && ss[j].saved[v] == P
    decreases j
  {
    hide Inv, Step;
    if i < j {
      SavedStays(ss, ops, i, j - 1, v, P);
      StepAt(ss, ops, j - 1);
      StepSaved(ss[j - 1], ops[j - 1], ss[j], v);
    }
  }

  /** In every run, reviving a node restores exactly the problem it had when its patch lists were made last, whatever
      happened to other nodes and to the master set in between. */
  lemma ReviveRestores(ss: seq<St>, ops: seq<Op>, i: nat, j: nat)
    requires Run(ss, ops) && i < j < |ops| && ops[i].Save? && ops[j] == Enter(ss[i].cur)
    requires forall k :: i < k <= j ==> ss[i].cur in ss[k].nodes
    requires forall k :: i < k < j ==> !(ops[k].Save? && ss[k].cur == ss[i].cur)
    ensures ss[j + 1].cur == ss[i].cur && ss[j + 1].inst == ss[i].inst
  {
    hide Inv, Decode, Encodes, Path;
    var v := ss[i].cur;
    StepAt(ss, ops, i);
    SavedStays(ss, ops, i + 1, j, v, ss[i].inst);
    RunInv(ss, ops, j);
    StepAt(ss, ops, j);
    InvParts(ss[j]);
    NodeKnown(ss[j], v);
  }
}
