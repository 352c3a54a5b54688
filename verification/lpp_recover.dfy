/** Transformation queue entries, and what one postsolve step does with the solution arrays. */
module LpRecover {
  import opened Sums
  import opened LpModel

  /** Element of the coefficient list of a forcing row; `flag` tells at which bound column `ref` was fixed. */
  datatype Lfx = Lfx(ref: int, flag: Stat, val: real)

  /** Coefficient lists of free rows and fixed columns are finite maps from reference numbers to values. */
  datatype Entry =
    | EmptyRow(p: int)
    | EmptyCol(q: int, stat: Stat, prim: real, dual: real)
    | FreeRow(p: int, lf: map<int, real>)
    | FixedCol(q: int, val: real, c: real, lf: map<int, real>)
    | RowSngton1(p: int, q: int, apq: real)
    | RowSngton2(p: int, q: int, apq: real, lbChanged: bool, ubChanged: bool)
    | ColSngton1(p: int, q: int, rhs: real, c: real, apq: real)
    | ColSngton2(p: int, q: int, stat: Stat)
    | ForcingRow(p: int, stat: Stat, bnd: real, lfx: seq<Lfx>)

  function Vec(lf: map<int, real>, k: int): real {
    if k in lf then lf[k] else 0.0
  }

  function VecF(lf: map<int, real>, x: seq<real>): int -> real {
    (k: int) => Vec(lf, k) * Val(x, k)
  }

  function Dot(lf: map<int, real>, x: seq<real>): real {
    Sum(VecF(lf, x), |x|)
  }

  predicate Shaped(S: Sol) {
    |S.rs| == |S.rp| == |S.rd| && |S.cs| == |S.cp| == |S.cd|
  }

  /** row_stat[p] == 0, with p in range */
  predicate RowUnset(S: Sol, p: int) {
    0 <= p < |S.rs| && S.rs[p] == Unset
  }

  predicate ColUnset(S: Sol, q: int) {
    0 <= q < |S.cs| && S.cs[q] == Unset
  }

  predicate RowSet(S: Sol, p: int) {
    0 <= p < |S.rs| && S.rs[p] != Unset
  }

  predicate ColSet(S: Sol, q: int) {
    0 <= q < |S.cs| && S.cs[q] != Unset
  }

  function SetRow(S: Sol, p: int, st: Stat, prim: real, dual: real): (T: Sol)
    requires Shaped(S) && 0 <= p < |S.rs|
    ensures Shaped(T)
  {
    S.(rs := S.rs[p := st], rp := S.rp[p := prim], rd := S.rd[p := dual])
  }

  function SetCol(S: Sol, q: int, st: Stat, prim: real, dual: real): (T: Sol)
    requires Shaped(S) && 0 <= q < |S.cs|
    ensures Shaped(T)
  {
    S.(cs := S.cs[q := st], cp := S.cp[q := prim], cd := S.cd[q := dual])
  }

  function AddScaled(rp: seq<real>, lf: map<int, real>, val: real): (r: seq<real>)
    ensures |r| == |rp|
  {
    seq(|rp|, k requires 0 <= k < |rp| => rp[k] + Vec(lf, k) * val)
  }

  function RecoverFixedCol(S: Sol, e: Entry): Option<Sol>
    requires Shaped(S) && e.FixedCol?
  {
    if ColUnset(S, e.q) && forall k <- e.lf :: RowSet(S, k) then
      Some(SetCol(S, e.q, NS, e.val, e.c - Dot(e.lf, S.rd)).(rp := AddScaled(S.rp, e.lf, e.val)))
    else
      None
  }

  function RecoverRowSngton1(S: Sol, p: int, q: int, apq: real): Option<Sol>
    requires Shaped(S)
  {
    if RowUnset(S, p) && ColSet(S, q) && S.cs[q] == NS && apq != 0.0 then
      Some(SetCol(SetRow(S, p, NS, apq * S.cp[q], S.cd[q] / apq), q, BS, S.cp[q], 0.0))
    else
      None
  }

  /** The column leaves its tightened bound to the row: row active, column basic. */
  function RowTakesOver(S: Sol, p: int, q: int, apq: real, st: Stat): Sol
    requires Shaped(S) && 0 <= p < |S.rs| && 0 <= q < |S.cs| && apq != 0.0
  {
    SetCol(SetRow(S, p, st, apq * S.cp[q], S.cd[q] / apq), q, BS, S.cp[q], 0.0)
  }

  /** The column stays at its own bound `st`: row inactive. */
  function RowInactive(S: Sol, p: int, q: int, apq: real, st: Stat): Sol
    requires Shaped(S) && 0 <= p < |S.rs| && 0 <= q < |S.cs|
  {
    SetRow(S, p, BS, apq * S.cp[q], 0.0).(cs := S.cs[q := st])
  }

  function RecoverRowSngton2(S: Sol, p: int, q: int, apq: real, lbc: bool, ubc: bool): Option<Sol>
    requires Shaped(S)
  {
    if !(RowUnset(S, p) && ColSet(S, q) && apq != 0.0) then None
    else if S.cs[q] == BS then Some(RowInactive(S, p, q, apq, BS))
    else if S.cs[q] == NF then None
    else if S.cs[q] == NL || (S.cs[q] == NS && S.cd[q] >= 0.0) then
      if lbc then Some(RowTakesOver(S, p, q, apq, if apq > 0.0 then NL else NU))
      else Some(RowInactive(S, p, q, apq, NL))
    else
      if ubc then Some(RowTakesOver(S, p, q, apq, if apq > 0.0 then NU else NL))
      else Some(RowInactive(S, p, q, apq, NU))
  }

  /** Status of the slack column from the status of the row it was merged into. */
  function SlackStat(st: Stat, apq: real): Stat {
    match st
    case NL => if apq > 0.0 then NU else NL
    case NU => if apq > 0.0 then NL else NU
    case _ => BS
  }

  function SlackBack(S: Sol, p: int, q: int, rhs: real, c: real, apq: real): (T: Sol)
    requires Shaped(S) && 0 <= p < |S.rs| && 0 <= q < |S.cs| && apq != 0.0
    ensures Shaped(T) && |T.rs| == |S.rs| && |T.cs| == |S.cs|
  {
    var dual := -apq * S.rd[p];
    SetRow(SetCol(S, q, SlackStat(S.rs[p], apq), (rhs - S.rp[p]) / apq, dual), p, NS, rhs, (c - dual) / apq)
  }

  function RecoverColSngton1(S: Sol, p: int, q: int, rhs: real, c: real, apq: real): Option<Sol>
    requires Shaped(S)
  {
    if !(RowSet(S, p) && ColUnset(S, q) && apq != 0.0) || S.rs[p] == NF || S.rs[p] == NS then None
    else Some(SlackBack(S, p, q, rhs, c, apq))
  }

  function RecoverColSngton2(S: Sol, p: int, q: int, stat: Stat): Option<Sol>
    requires Shaped(S)
  {
    if RowSet(S, p) && S.rs[p] == NS && ColSet(S, q) && S.cs[q] == BS then
      Some(S.(rs := S.rs[p := stat]))
    else
      None
  }

  // ----- forcing rows

  predicate WrongSign(flag: Stat, lambda: real) {
    (flag == NL && lambda < 0.0) || (flag == NU && lambda > 0.0)
  }

  function Ratio(lambda: real, val: real): real {
    if val == 0.0 then 0.0 else Abs(lambda / val)
  }

  /** The element whose column has a dual value of the wrong sign and the largest ratio among the
      first `k` elements (the first such element on ties), or -1; with that ratio. */
  function Pick(l: seq<Lfx>, cd: seq<real>, k: nat): (int, real)
    requires k <= |l|
  {
    if k == 0 then (-1, 0.0) else
      var (that, big) := Pick(l, cd, k - 1);
      var e := l[k - 1];
      var lambda := Val(cd, e.ref);
      if WrongSign(e.flag, lambda) && big < Ratio(lambda, e.val) then (k - 1, Ratio(lambda, e.val))
      else (that, big)
  }

  /** Statuses after the first `k` columns of the list have been released. */
  function ReleaseStat(l: seq<Lfx>, that: int, cs: seq<Stat>, k: nat): (r: seq<Stat>)
    requires k <= |l|
    ensures |r| == |cs|
  {
    if k == 0 then cs else
      var r := ReleaseStat(l, that, cs, k - 1);
      var e := l[k - 1];
      if 0 <= e.ref < |cs| then r[e.ref := if k - 1 == that then BS else e.flag] else r
  }

  function Repaired(lambda: real, val: real, pi: real): real {
    lambda - val * pi
  }

  /** Dual values after the first `k` columns of the list have been released. */
  function ReleaseDual(l: seq<Lfx>, that: int, pi: real, cd: seq<real>, k: nat): (r: seq<real>)
    requires k <= |l|
    ensures |r| == |cd|
  {
    if k == 0 then cd else
      var r := ReleaseDual(l, that, pi, cd, k - 1);
      var e := l[k - 1];
      if 0 <= e.ref < |cd| then
        r[e.ref := if k - 1 == that then 0.0 else Repaired(r[e.ref], e.val, pi)]
      else r
  }

  predicate LfxReady(S: Sol, l: seq<Lfx>) {
    forall k :: 0 <= k < |l| ==>
      ColSet(S, l[k].ref) && S.cs[l[k].ref] == NS && (l[k].flag == NL || l[k].flag == NU) && l[k].val != 0.0
  }

  function PickIndex(l: seq<Lfx>, cd: seq<real>): (that: int)
    ensures -1 <= that < |l|
  {
    PickRange(l, cd, |l|);
    Pick(l, cd, |l|).0
  }

  lemma PickRange(l: seq<Lfx>, cd: seq<real>, k: nat)
    requires k <= |l|
    ensures -1 <= Pick(l, cd, k).0 < k
  {
  }

  function PickPi(l: seq<Lfx>, cd: seq<real>): real {
    var that := PickIndex(l, cd);
    if that == -1 || l[that].val == 0.0 then 0.0 else Val(cd, l[that].ref) / l[that].val
  }

  function ForceBack(S: Sol, p: int, stat: Stat, bnd: real, l: seq<Lfx>): (T: Sol)
    requires Shaped(S) && 0 <= p < |S.rs|
    ensures Shaped(T) && |T.rs| == |S.rs| && |T.cs| == |S.cs|
  {
    var that, pi := PickIndex(l, S.cd), PickPi(l, S.cd);
    SetRow(S, p, if that == -1 then BS else stat, bnd, pi).(
      cs := ReleaseStat(l, that, S.cs, |l|),
      cd := ReleaseDual(l, that, pi, S.cd, |l|))
  }

  function RecoverForcingRow(S: Sol, e: Entry): Option<Sol>
    requires Shaped(S) && e.ForcingRow?
  {
    if RowUnset(S, e.p) && LfxReady(S, e.lfx) then Some(ForceBack(S, e.p, e.stat, e.bnd, e.lfx)) else None
  }

  /** One postsolve step; `None` when one of the routine's own consistency checks fails. */
  function RecoverOne(e: Entry, S: Sol): (r: Option<Sol>)
    requires Shaped(S)
    ensures r.Some? ==> Shaped(r.value) && |r.value.rs| == |S.rs| && |r.value.cs| == |S.cs|
  {
    match e
    case EmptyRow(p) => if RowUnset(S, p) then Some(SetRow(S, p, BS, 0.0, 0.0)) else None
    case EmptyCol(q, stat, prim, dual) => if ColUnset(S, q) then Some(SetCol(S, q, stat, prim, dual)) else None
    case FreeRow(p, lf) =>
      if RowUnset(S, p) && forall k <- lf :: ColSet(S, k) then Some(SetRow(S, p, BS, Dot(lf, S.cp), 0.0)) else None
    case FixedCol(_, _, _, _) => RecoverFixedCol(S, e)
    case RowSngton1(p, q, apq) => RecoverRowSngton1(S, p, q, apq)
    case RowSngton2(p, q, apq, lbc, ubc) => RecoverRowSngton2(S, p, q, apq, lbc, ubc)
    case ColSngton1(p, q, rhs, c, apq) => RecoverColSngton1(S, p, q, rhs, c, apq)
    case ColSngton2(p, q, stat) => RecoverColSngton2(S, p, q, stat)
    case ForcingRow(_, _, _, _) => RecoverForcingRow(S, e)
  }

  /** Postsolve with the entries `es`, the most recent one first. */
  function RecoverAll(es: seq<Entry>, S: Sol): (r: Option<Sol>)
    requires Shaped(S)
    ensures r.Some? ==> Shaped(r.value) && |r.value.rs| == |S.rs| && |r.value.cs| == |S.cs|
  {
    if es == [] then Some(S) else
      match RecoverOne(es[0], S)
      case None => None
      case Some(T) => RecoverAll(es[1..], T)
  }

  lemma {:induction false} RecoverAllConcat(es: seq<Entry>, fs: seq<Entry>, S: Sol)
    requires Shaped(S)
    ensures RecoverAll(es + fs, S) ==
            match RecoverAll(es, S) { case None => None case Some(T) => RecoverAll(fs, T) }
  {
    if es == [] {
      assert es + fs == fs;
    } else {
      assert (es + fs)[0] == es[0] && (es + fs)[1..] == es[1..] + fs;
      match RecoverOne(es[0], S)
      case None =>
      case Some(T) => RecoverAllConcat(es[1..], fs, T);
    }
  }
}
