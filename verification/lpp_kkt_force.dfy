/** Postsolve steps for implied free columns and for forcing rows. */
module LpKktForce {
  import opened Sums
  import opened LpModel
  import opened LpRecover
  import opened LpReduce
  import opened LpKktRows
  import opened LpKktCols

  // ----- implied free columns

  predicate OthersHold(P: LP, q: int, x: seq<real>) {
    forall j <- P.col :: j != q ==> P.col[j].rng.Holds(Val(x, j))
  }

  /** The row and the other columns keep x[q] within its own bounds. */
  ghost predicate ImpliedFree(P: LP, p: int, q: int) {
    && p in P.row && q in P.col
    && forall x: seq<real> :: |x| == P.n && OthersHold(P, q, x) && P.row[p].Holds(RowAct(P, p, x)) ==>
         P.col[q].rng.Holds(Val(x, q))
  }

  /** Column q made free, row p made an equality at v. */
  function FreedProblem(P: LP, p: int, q: int, v: real): LP
    requires q in P.col
  {
    SetRowRange(SetColRange(P, q, FREE_RANGE), p, FixAt(v))
  }

  /** Row p is to be active at its lower (NL) or upper (NU) bound v, as the sign of pi = c[q] / a[p,q] allows. */
  predicate ActiveSide(r: Range, st: Stat, v: real, pi: real) {
    || (st == NL && r.lb == Fin(v) && pi >= 0.0)
    || (st == NU && r.ub == Fin(v) && pi <= 0.0)
  }

  lemma FreedRow(P: LP, p: int, q: int, v: real, st: Stat, S: Sol)
    requires p in P.row && q in P.col && Shape(P, S) && RowOk(FreedProblem(P, p, q, v), S, p)
    requires !P.row[p].Fixed() && P.row[p].Ordered() && ActiveSide(P.row[p], st, v, S.rd[p]) && S.rs[p] == NS
    ensures RowOk(P, S.(rs := S.rs[p := st]), p)
  {
    hide RowAct;
    RowActSameMatrix(FreedProblem(P, p, q, v), P, p, S.cp);
  }

  lemma FreedRowOther(P: LP, p: int, q: int, v: real, st: Stat, S: Sol, i: int)
    requires p in P.row && q in P.col && i in P.row && i != p && 0 <= p < P.m
    requires Shape(P, S) && RowOk(FreedProblem(P, p, q, v), S, i)
    ensures RowOk(P, S.(rs := S.rs[p := st]), i)
  {
    hide RowAct, StatusOk;
    RowActSameMatrix(FreedProblem(P, p, q, v), P, i, S.cp);
  }

  lemma FreedColOther(P: LP, p: int, q: int, v: real, st: Stat, S: Sol, j: int)
    requires p in P.row && q in P.col && j in P.col && j != q && 0 <= p < P.m
    requires Shape(P, S) && ColOk(FreedProblem(P, p, q, v), S, j)
    ensures ColOk(P, S.(rs := S.rs[p := st]), j)
  {
    hide ColAct, StatusOk;
    ColActSameMatrix(FreedProblem(P, p, q, v), P, j, S.rd);
  }

  lemma FreedColSelf(P: LP, p: int, q: int, v: real, st: Stat, S: Sol)
    requires p in P.row && q in P.col && 0 <= p < P.m
    requires Shape(P, S) && ColOk(FreedProblem(P, p, q, v), S, q) && S.cs[q] == BS
    requires P.col[q].rng.Holds(S.cp[q])
    ensures ColOk(P, S.(rs := S.rs[p := st]), q)
  {
    hide ColAct;
    ColActSameMatrix(FreedProblem(P, p, q, v), P, q, S.rd);
  }

  lemma FreedWithin(P: LP, p: int, q: int, v: real, S: Sol)
    requires ImpliedFree(P, p, q) && BasicOptimal(FreedProblem(P, p, q, v), S) && Shape(P, S)
    requires P.row[p].Holds(v) && 0 <= q < P.n
    ensures P.col[q].rng.Holds(S.cp[q])
  {
    hide RowAct, ColAct, CountBS;
    var R := FreedProblem(P, p, q, v);
    forall j | j in P.col && j != q ensures P.col[j].rng.Holds(Val(S.cp, j)) {
      assert ColOk(R, S, j);
    }
    assert RowOk(R, S, p);
    RowActSameMatrix(R, P, p, S.cp);
  }

  lemma FreedMultiplier(P: LP, p: int, q: int, v: real, S: Sol)
    requires WellFormed(P) && p in P.row && q in P.col && SingleInCol(P, p, q) && 0 <= p < P.m
    requires (p, q) in P.a && P.a[(p, q)] != 0.0
    requires Shape(P, S) && ColOk(FreedProblem(P, p, q, v), S, q) && S.cs[q] == BS
    ensures S.rd[p] == P.col[q].c / P.a[(p, q)]
  {
    hide ColAct, WellFormed, SingleInCol;
    ColActSameMatrix(FreedProblem(P, p, q, v), P, q, S.rd);
    ColActSingle(P, p, q, S.rd);
    assert P.a[(p, q)] * S.rd[p] == P.col[q].c;
  }

  lemma FreedOptimal(P: LP, p: int, q: int, v: real, st: Stat, S: Sol)
    requires p in P.row && q in P.col && 0 <= p < P.m && InBounds(P)
    requires BasicOptimal(FreedProblem(P, p, q, v), S) && Shape(P, S)
    requires S.rs[p] == NS && st != BS
    requires RowOk(P, S.(rs := S.rs[p := st]), p) && ColOk(P, S.(rs := S.rs[p := st]), q)
    ensures BasicOptimal(P, S.(rs := S.rs[p := st]))
  {
    hide RowOk, ColOk, CountBS;
    var R, T := FreedProblem(P, p, q, v), S.(rs := S.rs[p := st]);
    assert R.row.Keys == P.row.Keys && R.col.Keys == P.col.Keys;
    forall i | i in P.row ensures RowOk(P, T, i) {
      if i != p {
        FreedRowOther(P, p, q, v, st, S, i);
      }
    }
    forall j | j in P.col ensures ColOk(P, T, j) {
      if j != q {
        FreedColOther(P, p, q, v, st, S, j);
      }
    }
    CountUpdate(S.rs, p, st);
  }

  /** Recovery of the row of an implied free column. */
  lemma ColSngton2Step(P: LP, p: int, q: int, v: real, st: Stat, S: Sol)
    requires WellFormed(P) && p in P.row && q in P.col && SingleInCol(P, p, q) && 0 <= p < P.m && 0 <= q < P.n
    requires (p, q) in P.a && P.a[(p, q)] != 0.0 && !P.row[p].Fixed() && P.row[p].Ordered()
    requires ImpliedFree(P, p, q) && ActiveSide(P.row[p], st, v, P.col[q].c / P.a[(p, q)])
    requires BasicOptimal(FreedProblem(P, p, q, v), S) && Shape(P, S)
    requires S.rs[p] == NS && S.cs[q] == BS
    ensures var r := RecoverOne(ColSngton2(p, q, st), S); r.Some? && BasicOptimal(P, r.value)
  {
    hide WellFormed, SingleInCol, ImpliedFree, BasicOptimal, RowOk, ColOk, InBounds;
    BasicOptimalRow(FreedProblem(P, p, q, v), S, p);
    BasicOptimalCol(FreedProblem(P, p, q, v), S, q);
    WellFormedInBounds(P);
    FreedWithin(P, p, q, v, S);
    FreedMultiplier(P, p, q, v, S);
    FreedRow(P, p, q, v, st, S);
    FreedColSelf(P, p, q, v, st, S);
    FreedOptimal(P, p, q, v, st, S);
  }

  // ----- forcing rows: choice of the column that becomes basic

  lemma {:induction false} PickSpec(l: seq<Lfx>, cd: seq<real>, k: nat)
    requires k <= |l| && forall i :: 0 <= i < |l| ==> l[i].val != 0.0
    ensures var (that, big) := Pick(l, cd, k);
            && -1 <= that < k && big >= 0.0
            && (that == -1 ==> big == 0.0)
            && (that >= 0 ==> WrongSign(l[that].flag, Val(cd, l[that].ref)) && big == Ratio(Val(cd, l[that].ref), l[that].val))
            && (forall i :: 0 <= i < k && WrongSign(l[i].flag, Val(cd, l[i].ref)) ==>
                  that >= 0 && Ratio(Val(cd, l[i].ref), l[i].val) <= big)
            && (forall i :: 0 <= i < that && WrongSign(l[i].flag, Val(cd, l[i].ref)) ==> Ratio(Val(cd, l[i].ref), l[i].val) < big)
  {
    if k > 0 {
      PickSpec(l, cd, k - 1);
      var e := l[k - 1];
      if WrongSign(e.flag, Val(cd, e.ref)) {
        RatioPositive(Val(cd, e.ref), e.val);
      }
    }
  }

  lemma RatioPositive(lambda: real, val: real)
    requires lambda != 0.0 && val != 0.0
    ensures Ratio(lambda, val) > 0.0
  {
    DivMul(lambda, val);
  }

  /** |lambda / val| <= big, cleared of the division */
  lemma RatioBound(lambda: real, val: real, big: real)
    requires val != 0.0 && Ratio(lambda, val) <= big
    ensures Abs(lambda) <= Abs(val) * big
  {
    var t := lambda / val;
    DivMul(lambda, val);
    MulMono(Abs(val), Abs(t), big);
    assert Abs(lambda) == Abs(val) * Abs(t);
  }

  function FlagOf(val: real, at: int): Stat {
    if ForcedLow(val, at) then NL else NU
  }

  /** With the multiplier of the chosen column every dual value gets the sign its bound demands. */
  lemma RepairSign(val: real, at: int, lambda: real, pi: real, big: real)
    requires val != 0.0 && big >= 0.0 && (at == 0 || at == 1) && pi == if at == 0 then big else -big
    requires WrongSign(FlagOf(val, at), lambda) ==> Ratio(lambda, val) <= big
    ensures FlagOf(val, at) == NL ==> Repaired(lambda, val, pi) >= 0.0
    ensures FlagOf(val, at) == NU ==> Repaired(lambda, val, pi) <= 0.0
  {
    if WrongSign(FlagOf(val, at), lambda) {
      RatioBound(lambda, val, big);
    }
    MulMono(Abs(val), 0.0, big);
    assert val * pi == (if FlagOf(val, at) == NL then -(Abs(val) * big) else Abs(val) * big);
  }

  lemma PiSign(l: seq<Lfx>, at: int, cd: seq<real>)
    requires forall i :: 0 <= i < |l| ==> l[i].val != 0.0 && l[i].flag == FlagOf(l[i].val, at)
    requires at == 0 || at == 1
    ensures var big := Pick(l, cd, |l|).1; PickPi(l, cd) == if at == 0 then big else -big
  {
    PickSpec(l, cd, |l|);
    var that := PickIndex(l, cd);
    if that >= 0 {
      var lambda, val := Val(cd, l[that].ref), l[that].val;
      DivMul(lambda, val);
      DivSign(lambda, val);
    }
  }

  predicate Distinct(l: seq<Lfx>) {
    forall k, k' :: 0 <= k < k' < |l| ==> l[k].ref != l[k'].ref
  }

  predicate RefsIn(l: seq<Lfx>, n: int) {
    forall k :: 0 <= k < |l| ==> 0 <= l[k].ref < n
  }

  lemma {:induction false} ReleaseStatSpec(l: seq<Lfx>, that: int, cs: seq<Stat>, k: nat)
    requires k <= |l| && Distinct(l) && RefsIn(l, |cs|)
    ensures var r := ReleaseStat(l, that, cs, k);
            && (forall i :: 0 <= i < k ==> r[l[i].ref] == if i == that then BS else l[i].flag)
            && (forall j :: 0 <= j < |cs| && (forall i :: 0 <= i < k ==> l[i].ref != j) ==> r[j] == cs[j])
  {
    if k > 0 {
      ReleaseStatSpec(l, that, cs, k - 1);
    }
  }

  lemma {:induction false} ReleaseDualSpec(l: seq<Lfx>, that: int, pi: real, cd: seq<real>, k: nat)
    requires k <= |l| && Distinct(l) && RefsIn(l, |cd|)
    ensures var r := ReleaseDual(l, that, pi, cd, k);
            && (forall i :: 0 <= i < k ==> r[l[i].ref] == if i == that then 0.0 else Repaired(cd[l[i].ref], l[i].val, pi))
            && (forall j :: 0 <= j < |cd| && (forall i :: 0 <= i < k ==> l[i].ref != j) ==> r[j] == cd[j])
  {
    if k > 0 {
      ReleaseDualSpec(l, that, pi, cd, k - 1);
    }
  }

  lemma {:induction false} ReleaseCount(l: seq<Lfx>, that: int, cs: seq<Stat>, k: nat)
    requires k <= |l| && Distinct(l) && RefsIn(l, |cs|)
    requires forall i :: 0 <= i < |l| ==> cs[l[i].ref] == NS && l[i].flag != BS
    ensures CountBS(ReleaseStat(l, that, cs, k)) == CountBS(cs) + if 0 <= that < k then 1 else 0
  {
    if k > 0 {
      ReleaseCount(l, that, cs, k - 1);
      ReleaseStatSpec(l, that, cs, k - 1);
      var r := ReleaseStat(l, that, cs, k - 1);
      CountUpdate(r, l[k - 1].ref, if k - 1 == that then BS else l[k - 1].flag);
    }
  }

  // ----- forcing rows: the recovered solution

  /** Row p forces its columns, none of which is fixed, and l is the list saved for it. */
  ghost predicate ForceReady(P: LP, p: int, at: int, l: seq<Lfx>) {
    && Forces(P, p, at) && LfxOf(P, p, at, l)
    && forall k :: 0 <= k < |l| ==> l[k].ref in P.col && !P.col[l[k].ref].rng.Fixed()
  }

  function ForcedEntry(P: LP, p: int, at: int, l: seq<Lfx>): Entry
    requires p in P.row && RowBound(P.row[p], at).Fin?
  {
    ForcingRow(p, ForceStat(P.row[p], at), RowBound(P.row[p], at).v, l)
  }

  lemma ForcedColAt(P: LP, p: int, at: int, S: Sol, j: int)
    requires WellFormed(P) && ForcedFin(P, p, at) && (p, j) in P.a && j in P.col && Shape(P, S)
    requires ColOk(ForceProblem(P, p, at), S, j)
    ensures S.cp[j] == ForcedVal(P.col[j].rng, P.a[(p, j)], at)
    ensures var r := P.col[j].rng; if ForcedLow(P.a[(p, j)], at) then r.lb == Fin(S.cp[j]) else r.ub == Fin(S.cp[j])
  {
    hide ColAct;
    assert ForceProblem(P, p, at).col[j] == ForceCol(P, p, at, j);
  }

  /** At the forced values row p sits exactly at its bound. */
  lemma ForcedRowAct(P: LP, p: int, at: int, S: Sol)
    requires WellFormed(P) && Forces(P, p, at) && Shape(P, S)
    requires forall j :: j in P.col ==> ColOk(ForceProblem(P, p, at), S, j)
    ensures RowAct(P, p, S.cp) == RowBound(P.row[p], at).v
  {
    hide ColOk, ForcedVal;
    forall j | 0 <= j < P.n ensures RowF(P.a, p, S.cp)(j) == ForcedF(P, p, at)(j) {
      if (p, j) in P.a {
        ForcedColAt(P, p, at, S, j);
      }
    }
    SumCong(RowF(P.a, p, S.cp), ForcedF(P, p, at), P.n);
  }

  lemma ForcedRowSelf(P: LP, p: int, at: int, S: Sol, T: Sol, that: int, big: real)
    requires WellFormed(P) && Forces(P, p, at) && Shape(P, S) && Shape(P, T) && T.cp == S.cp
    requires forall j :: j in P.col ==> ColOk(ForceProblem(P, p, at), S, j)
    requires T.rs[p] == (if that == -1 then BS else ForceStat(P.row[p], at))
    requires T.rp[p] == RowBound(P.row[p], at).v && T.rd[p] == (if at == 0 then big else -big)
    requires big >= 0.0 && (that == -1 ==> big == 0.0)
    ensures RowOk(P, T, p)
  {
    hide ColOk, RowAct, ForcedSum, ForcedFin;
    ForcedRowAct(P, p, at, S);
  }

  lemma ForcedRowOther(P: LP, p: int, at: int, S: Sol, T: Sol, i: int)
    requires i in P.row && i != p && Shape(P, S) && Shape(P, T) && T.cp == S.cp
    requires RowOk(ForceProblem(P, p, at), S, i)
    requires 0 <= i < P.m && T.rs[i] == S.rs[i] && T.rp[i] == S.rp[i] && T.rd[i] == S.rd[i]
    ensures RowOk(P, T, i)
  {
    hide RowAct, StatusOk;
    RowActSameMatrix(ForceProblem(P, p, at), RemoveRow(P, p), i, S.cp);
    RowActDrop(P, p, i, S.cp);
  }

  lemma ForcedColDual(P: LP, p: int, at: int, S: Sol, T: Sol, j: int)
    requires WellFormed(P) && p in P.row && j in P.col && Shape(P, S) && Shape(P, T)
    requires ColOk(ForceProblem(P, p, at), S, j)
    requires 0 <= p < P.m && T.rd == S.rd[p := T.rd[p]] && 0 <= j < P.n
    requires T.cd[j] == S.cd[j] - At(P.a, p, j) * T.rd[p]
    ensures ColAct(P, j, T.rd) + T.cd[j] == P.col[j].c
  {
    hide ColAct, StatusOk, WellFormed, At;
    ColActSameMatrix(ForceProblem(P, p, at), RemoveRow(P, p), j, S.rd);
    ColActRestore(P, p, S.rd, T.rd[p], j);
    assert ForceProblem(P, p, at).col[j] == ForceCol(P, p, at, j);
  }

  lemma ForcedColOther(P: LP, p: int, at: int, S: Sol, T: Sol, j: int)
    requires WellFormed(P) && p in P.row && j in P.col && (p, j) !in P.a && Shape(P, S) && Shape(P, T)
    requires ColOk(ForceProblem(P, p, at), S, j)
    requires 0 <= p < P.m && T.rd == S.rd[p := T.rd[p]] && T.cp == S.cp && 0 <= j < P.n
    requires T.cs[j] == S.cs[j] && T.cd[j] == S.cd[j]
    ensures ColOk(P, T, j)
  {
    hide ColAct, StatusOk, WellFormed;
    assert At(P.a, p, j) == 0.0;
    ForcedColDual(P, p, at, S, T, j);
    assert ForceProblem(P, p, at).col[j] == ForceCol(P, p, at, j);
  }

  lemma ForcedColSelf(P: LP, p: int, at: int, S: Sol, T: Sol, j: int, basic: bool)
    requires WellFormed(P) && p in P.row && ForcedFin(P, p, at) && j in P.col && (p, j) in P.a
    requires Shape(P, S) && Shape(P, T) && ColOk(ForceProblem(P, p, at), S, j)
    requires 0 <= p < P.m && T.rd == S.rd[p := T.rd[p]] && T.cp == S.cp && 0 <= j < P.n
    requires T.cd[j] == Repaired(S.cd[j], P.a[(p, j)], T.rd[p]) && !P.col[j].rng.Fixed() && P.col[j].rng.Ordered()
    requires T.cs[j] == if basic then BS else FlagOf(P.a[(p, j)], at)
    requires basic ==> T.cd[j] == 0.0
    requires FlagOf(P.a[(p, j)], at) == NL ==> T.cd[j] >= 0.0
    requires FlagOf(P.a[(p, j)], at) == NU ==> T.cd[j] <= 0.0
    ensures ColOk(P, T, j)
  {
    hide ColAct, WellFormed, ForcedFin;
    ForcedColAt(P, p, at, S, j);
    ForcedColDual(P, p, at, S, T, j);
  }

  lemma ForcingShape(P: LP, p: int, at: int, l: seq<Lfx>, S: Sol)
    requires WellFormed(P) && ForceReady(P, p, at, l) && BasicOptimal(ForceProblem(P, p, at), S)
    ensures Shape(P, S) && RowUnset(S, p) && Distinct(l) && RefsIn(l, P.n)
    ensures forall k :: 0 <= k < |l| ==> l[k].val != 0.0 && l[k].flag == FlagOf(l[k].val, at)
    ensures forall j :: j in P.col ==> ColOk(ForceProblem(P, p, at), S, j)
    ensures forall i :: i in P.row && i != p ==> RowOk(ForceProblem(P, p, at), S, i)
  {
    hide ColOk, RowOk, ForcedSum, ForcedFin, CountBS;
  }

  /** What the recovery of a forcing row writes, element by element. */
  ghost predicate Released(P: LP, p: int, at: int, l: seq<Lfx>, S: Sol, T: Sol, that: int, big: real) {
    ReleasedRow(P, p, at, l, S, T, that, big) && ReleasedPick(P, p, l, S, T, that, big) && ReleasedCols(P, p, l, S, T, that)
  }

  ghost predicate ReleasedRow(P: LP, p: int, at: int, l: seq<Lfx>, S: Sol, T: Sol, that: int, big: real) {
    && Shape(P, S) && Shape(P, T) && 0 <= p < P.m && RefsIn(l, P.n)
    && T.cp == S.cp && -1 <= that < |l| && big >= 0.0 && (that == -1 ==> big == 0.0)
    && T.rd == S.rd[p := T.rd[p]] && T.rs == S.rs[p := T.rs[p]] && T.rp == S.rp[p := T.rp[p]]
    && T.rd[p] == (if at == 0 then big else -big)
  }

  ghost predicate ReleasedPick(P: LP, p: int, l: seq<Lfx>, S: Sol, T: Sol, that: int, big: real)
    requires Shape(P, S) && Shape(P, T) && 0 <= p < P.m && RefsIn(l, P.n) && -1 <= that < |l|
  {
    && (that >= 0 ==> Repaired(S.cd[l[that].ref], l[that].val, T.rd[p]) == 0.0)
    && (forall k :: 0 <= k < |l| && WrongSign(l[k].flag, S.cd[l[k].ref]) ==> Ratio(S.cd[l[k].ref], l[k].val) <= big)
  }

  ghost predicate ReleasedCols(P: LP, p: int, l: seq<Lfx>, S: Sol, T: Sol, that: int)
    requires Shape(P, S) && Shape(P, T) && 0 <= p < P.m && RefsIn(l, P.n)
  {
    && (forall k :: 0 <= k < |l| ==>
          && T.cs[l[k].ref] == (if k == that then BS else l[k].flag)
          && T.cd[l[k].ref] == (if k == that then 0.0 else Repaired(S.cd[l[k].ref], l[k].val, T.rd[p])))
    && (forall j :: 0 <= j < P.n && (forall k :: 0 <= k < |l| ==> l[k].ref != j) ==> T.cs[j] == S.cs[j] && T.cd[j] == S.cd[j])
  }

  lemma ForcingReleased(P: LP, p: int, at: int, l: seq<Lfx>, S: Sol, stat: Stat, bnd: real)
    requires Shape(P, S) && 0 <= p < P.m && Distinct(l) && RefsIn(l, P.n) && (at == 0 || at == 1)
    requires forall k :: 0 <= k < |l| ==> l[k].val != 0.0 && l[k].flag == FlagOf(l[k].val, at)
    ensures Released(P, p, at, l, S, ForceBack(S, p, stat, bnd, l), PickIndex(l, S.cd), Pick(l, S.cd, |l|).1)
  {
    hide ReleasedPick, ReleasedCols, CountBS, Distinct, ReleaseStat, ReleaseDual, Pick, PickPi, Repaired, Ratio, WrongSign, FlagOf;
    PickFacts(l, S.cd);
    PiSign(l, at, S.cd);
    ForcingPicked(P, p, l, S, stat, bnd);
    ForcingWritten(P, p, l, S, stat, bnd);
  }

  lemma ForcingPicked(P: LP, p: int, l: seq<Lfx>, S: Sol, stat: Stat, bnd: real)
    requires Shape(P, S) && 0 <= p < P.m && RefsIn(l, P.n)
    requires forall k :: 0 <= k < |l| ==> l[k].val != 0.0
    ensures ReleasedPick(P, p, l, S, ForceBack(S, p, stat, bnd, l), PickIndex(l, S.cd), Pick(l, S.cd, |l|).1)
  {
    hide CountBS, Distinct, ReleaseStat, ReleaseDual, Pick, PickPi, Repaired, Ratio, WrongSign;
    PickFacts(l, S.cd);
  }

  lemma ForcingWritten(P: LP, p: int, l: seq<Lfx>, S: Sol, stat: Stat, bnd: real)
    requires Shape(P, S) && 0 <= p < P.m && Distinct(l) && RefsIn(l, P.n)
    ensures ReleasedCols(P, p, l, S, ForceBack(S, p, stat, bnd, l), PickIndex(l, S.cd))
  {
    hide CountBS, Distinct, ReleaseStat, ReleaseDual, Pick, PickPi, Repaired, Ratio, WrongSign;
    var that, pi := PickIndex(l, S.cd), PickPi(l, S.cd);
    ReleaseStatSpec(l, that, S.cs, |l|);
    ReleaseDualSpec(l, that, pi, S.cd, |l|);
  }

  lemma PickFacts(l: seq<Lfx>, cd: seq<real>)
    requires RefsIn(l, |cd|) && forall i :: 0 <= i < |l| ==> l[i].val != 0.0
    ensures var that, big := PickIndex(l, cd), Pick(l, cd, |l|).1;
            && big >= 0.0 && (that == -1 ==> big == 0.0)
            && (that >= 0 ==> Repaired(cd[l[that].ref], l[that].val, PickPi(l, cd)) == 0.0)
            && (forall k :: 0 <= k < |l| && WrongSign(l[k].flag, cd[l[k].ref]) ==> Ratio(cd[l[k].ref], l[k].val) <= big)
  {
    hide Pick, Ratio, WrongSign, Repaired;
    PickSpec(l, cd, |l|);
    var that := PickIndex(l, cd);
    forall k | 0 <= k < |l| ensures Val(cd, l[k].ref) == cd[l[k].ref] {
    }
    if that >= 0 {
      RepairedExactly(cd[l[that].ref], l[that].val);
    }
  }

  lemma RepairedExactly(lambda: real, val: real)
    requires val != 0.0
    ensures Repaired(lambda, val, lambda / val) == 0.0
  {
    DivMul(lambda, val);
  }

  lemma ForcingColumn(P: LP, p: int, at: int, l: seq<Lfx>, S: Sol, T: Sol, that: int, big: real, j: int)
    requires WellFormed(P) && ForceReady(P, p, at, l) && Released(P, p, at, l, S, T, that, big)
    requires j in P.col && ColOk(ForceProblem(P, p, at), S, j)
    ensures ColOk(P, T, j)
  {
    hide ColOk, ForcedSum, StatusOk, Repaired, Ratio, WrongSign, ForcedFin;
    if (p, j) in P.a {
      var k :| 0 <= k < |l| && l[k].ref == j;
      RepairSign(l[k].val, at, S.cd[j], T.rd[p], big);
      ForcedColSelf(P, p, at, S, T, j, k == that);
    } else {
      ForcedColOther(P, p, at, S, T, j);
    }
  }

  lemma ForcingRows(P: LP, p: int, at: int, l: seq<Lfx>, S: Sol, T: Sol, that: int, big: real)
    requires WellFormed(P) && Forces(P, p, at) && Released(P, p, at, l, S, T, that, big)
    requires forall j :: j in P.col ==> ColOk(ForceProblem(P, p, at), S, j)
    requires forall i :: i in P.row && i != p ==> RowOk(ForceProblem(P, p, at), S, i)
    requires T.rs[p] == (if that == -1 then BS else ForceStat(P.row[p], at)) && T.rp[p] == RowBound(P.row[p], at).v
    ensures forall i :: i in P.row ==> RowOk(P, T, i)
  {
    hide ColOk, RowOk, ForcedSum, ForcedFin;
    forall i | i in P.row ensures RowOk(P, T, i) {
      if i == p {
        ForcedRowSelf(P, p, at, S, T, that, big);
      } else {
        ForcedRowOther(P, p, at, S, T, i);
      }
    }
  }

  lemma ForcingUnset(P: LP, p: int, at: int, l: seq<Lfx>, S: Sol, T: Sol, that: int, big: real)
    requires WellFormed(P) && ForceReady(P, p, at, l) && Released(P, p, at, l, S, T, that, big)
    requires BasicOptimal(ForceProblem(P, p, at), S)
    ensures forall i :: 0 <= i < P.m && i !in P.row ==> T.rs[i] == Unset
    ensures forall j :: 0 <= j < P.n && j !in P.col ==> T.cs[j] == Unset
  {
    hide ColOk, RowOk, ForcedSum, ForcedFin, CountBS;
  }

  lemma ForcingCount(P: LP, p: int, at: int, l: seq<Lfx>, S: Sol)
    requires WellFormed(P) && p in P.row && BasicOptimal(ForceProblem(P, p, at), S) && Shape(P, S) && 0 <= p < P.m && S.rs[p] == Unset
    requires Distinct(l) && RefsIn(l, P.n)
    requires forall k :: 0 <= k < |l| ==> S.cs[l[k].ref] == NS && l[k].flag != BS
    ensures var that := PickIndex(l, S.cd);
            var st := if that == -1 then BS else ForceStat(P.row[p], at);
            CountBS(S.rs[p := st]) + CountBS(ReleaseStat(l, that, S.cs, |l|)) == |P.row.Keys|
  {
    hide ColOk, RowOk, WellFormed, CountBS, ReleaseStat, Distinct;
    var that := PickIndex(l, S.cd);
    var R := ForceProblem(P, p, at);
    assert R.row.Keys == P.row.Keys - {p};
    CountUpdate(S.rs, p, if that == -1 then BS else ForceStat(P.row[p], at));
    ReleaseCount(l, that, S.cs, |l|);
  }

  /** Recovery of a forcing row: the dual value of the wrong sign with the largest ratio decides which column becomes
      basic, and after the repair every condition of optimality holds again. */
  lemma ForcingRowStep(P: LP, p: int, at: int, l: seq<Lfx>, S: Sol)
    requires WellFormed(P) && ForceReady(P, p, at, l) && p in P.row && RowBound(P.row[p], at).Fin?
    requires BasicOptimal(ForceProblem(P, p, at), S) && Shape(P, S)
    requires RefsIn(l, P.n) && forall k :: 0 <= k < |l| ==> S.cs[l[k].ref] == NS
    ensures var r := RecoverOne(ForcedEntry(P, p, at, l), S); r.Some? && BasicOptimal(P, r.value)
  {
    ForcingDefined(P, p, at, l, S);
    ForcingOptimal(P, p, at, l, S);
  }

  lemma ForcingDefined(P: LP, p: int, at: int, l: seq<Lfx>, S: Sol)
    requires WellFormed(P) && ForceReady(P, p, at, l) && p in P.row && RowBound(P.row[p], at).Fin?
    requires BasicOptimal(ForceProblem(P, p, at), S) && Shape(P, S) && 0 <= p < P.m
    requires RefsIn(l, P.n) && forall k :: 0 <= k < |l| ==> S.cs[l[k].ref] == NS
    ensures RecoverOne(ForcedEntry(P, p, at, l), S) ==
            Some(ForceBack(S, p, ForceStat(P.row[p], at), RowBound(P.row[p], at).v, l))
  {
    hide WellFormed, ForceReady, BasicOptimal, ForceBack, ForceStat;
    ForcingShape(P, p, at, l, S);
  }

  lemma ForcingOptimal(P: LP, p: int, at: int, l: seq<Lfx>, S: Sol)
    requires WellFormed(P) && ForceReady(P, p, at, l) && p in P.row && RowBound(P.row[p], at).Fin?
    requires BasicOptimal(ForceProblem(P, p, at), S) && Shape(P, S) && 0 <= p < P.m
    requires RefsIn(l, P.n) && forall k :: 0 <= k < |l| ==> S.cs[l[k].ref] == NS
    ensures BasicOptimal(P, ForceBack(S, p, ForceStat(P.row[p], at), RowBound(P.row[p], at).v, l))
  {
    hide WellFormed, RowOk, ColOk, CountBS, Released, LfxOf, ForcedSum, ForcedFin, ReleaseStat, ReleaseDual, PickPi,
      Distinct, ForceProblem;
    ForcingShape(P, p, at, l, S);
    var stat, bnd := ForceStat(P.row[p], at), RowBound(P.row[p], at).v;
    var T := ForceBack(S, p, stat, bnd, l);
    var that, big := PickIndex(l, S.cd), Pick(l, S.cd, |l|).1;
    ForcingReleased(P, p, at, l, S, stat, bnd);
    ForcingRows(P, p, at, l, S, T, that, big);
    forall j | j in P.col ensures ColOk(P, T, j) {
      ForcingColumn(P, p, at, l, S, T, that, big, j);
    }
    ForcingUnset(P, p, at, l, S, T, that, big);
    ForcingCount(P, p, at, l, S);
  }
}
