/** lpp_postsolve on the arrays of the recovered solution segment. */
module LpPostsolve {
  import opened Sums
  import opened Collections
  import opened LpModel
  import opened LpRecover
  import opened LpReduce
  import opened LpEquiv
  import opened LpCompose
  import opened LpWorkspace
  import opened LpPresolve

  lemma DotStep(lf: map<int, real>, xs: seq<real>, done: set<int>, k: int, t: real)
    requires k in lf && 0 <= k < |xs| && k !in done && t == lf[k] * xs[k]
    ensures SumPart(VecF(lf, xs), |xs|, done + {k}) == SumPart(VecF(lf, xs), |xs|, done) + t
  {
    hide SumPart;
    SumPartStep(VecF(lf, xs), |xs|, done, k);
  }

  lemma DotAll(lf: map<int, real>, xs: seq<real>)
    ensures SumPart(VecF(lf, xs), |xs|, lf.Keys) == Dot(lf, xs)
  {
    hide SumPart;
    SumPartAll(VecF(lf, xs), |xs|, lf.Keys);
  }

  lemma SpreadAll(before: seq<real>, lf: map<int, real>, val: real, after: seq<real>)
    requires |after| == |before|
    requires forall k :: 0 <= k < |before| ==>
               after[k] == before[k] + (if k in lf then Times(lf[k], val) else 0.0)
    ensures after == AddScaled(before, lf, val)
  {
    forall k | 0 <= k < |before| ensures after[k] == AddScaled(before, lf, val)[k] {
    }
  }

  lemma TakesOver(S: Sol, p: int, q: int, apq: real, st: Stat, v: real, w: real)
    requires Shaped(S) && 0 <= p < |S.rs| && 0 <= q < |S.cs| && apq != 0.0
    requires v == apq * S.cp[q] && w == S.cd[q] / apq
    ensures SetCol(SetRow(S, p, st, v, w), q, BS, S.cp[q], 0.0) == RowTakesOver(S, p, q, apq, st)
  {
    var L, R := SetCol(SetRow(S, p, st, v, w), q, BS, S.cp[q], 0.0), RowTakesOver(S, p, q, apq, st);
    assert L.rp[p] == R.rp[p] && L.rd[p] == R.rd[p];
    assert L.rp == R.rp && L.rd == R.rd;
  }

  lemma TakesOverAt(S: Sol, T: Sol, p: int, q: int, apq: real, st: Stat, v: real, w: real, qs: Stat)
    requires Shaped(S) && 0 <= p < |S.rs| && 0 <= q < |S.cs| && apq != 0.0
    requires v == apq * S.cp[q] && w == S.cd[q] / apq
    requires T == S.(cs := S.cs[q := qs])
    ensures SetCol(SetRow(T, p, st, v, w), q, BS, S.cp[q], 0.0) == RowTakesOver(S, p, q, apq, st)
  {
    TakesOver(S, p, q, apq, st, v, w);
    assert S.cs[q := qs][q := BS] == S.cs[q := BS];
  }

  lemma Inactive(S: Sol, p: int, q: int, apq: real, st: Stat, v: real)
    requires Shaped(S) && 0 <= p < |S.rs| && 0 <= q < |S.cs|
    requires v == apq * S.cp[q] && S.cs[q] == st
    ensures SetRow(S, p, BS, v, 0.0) == RowInactive(S, p, q, apq, st)
  {
    assert S.cs[q := st] == S.cs;
    InactiveAt(S, S, p, q, apq, st, v);
  }

  lemma InactiveAt(S: Sol, T: Sol, p: int, q: int, apq: real, st: Stat, v: real)
    requires Shaped(S) && 0 <= p < |S.rs| && 0 <= q < |S.cs|
    requires v == apq * S.cp[q] && T == S.(cs := S.cs[q := st])
    ensures SetRow(T, p, BS, v, 0.0) == RowInactive(S, p, q, apq, st)
  {
    var L, R := SetRow(T, p, BS, v, 0.0), RowInactive(S, p, q, apq, st);
    assert L.rp[p] == R.rp[p];
    assert L.rp == R.rp && L.rd == R.rd && L.cs == R.cs;
  }

  lemma SlackIs(S: Sol, p: int, q: int, rhs: real, c: real, apq: real, prim: real, dual: real, pi: real)
    requires Shaped(S) && 0 <= p < |S.rs| && 0 <= q < |S.cs| && apq != 0.0
    requires dual == -apq * S.rd[p] && prim == (rhs - S.rp[p]) / apq && pi == (c - dual) / apq
    ensures SetRow(SetCol(S, q, SlackStat(S.rs[p], apq), prim, dual), p, NS, rhs, pi) == SlackBack(S, p, q, rhs, c, apq)
  {
    var L := SetRow(SetCol(S, q, SlackStat(S.rs[p], apq), prim, dual), p, NS, rhs, pi);
    var R := SlackBack(S, p, q, rhs, c, apq);
    assert L.cd[q] == R.cd[q] && L.cp[q] == R.cp[q] && L.rd[p] == R.rd[p];
    assert L.cp == R.cp && L.cd == R.cd && L.rd == R.rd;
  }

  class Recovered {
    const rowStat: array<Stat>
    const rowPrim: array<real>
    const rowDual: array<real>
    const colStat: array<Stat>
    const colPrim: array<real>
    const colDual: array<real>

    ghost predicate Valid() {
      && rowStat.Length == rowPrim.Length == rowDual.Length
      && colStat.Length == colPrim.Length == colDual.Length
      && rowStat != colStat
      && rowPrim != rowDual && rowPrim != colPrim && rowPrim != colDual
      && rowDual != colPrim && rowDual != colDual && colPrim != colDual
    }

    ghost function Arrays(): set<object> {
      {rowStat as object, rowPrim as object, rowDual as object, colStat as object, colPrim as object, colDual as object}
    }

    ghost function Now(): (S: Sol)
      requires Valid()
      reads rowStat, rowPrim, rowDual, colStat, colPrim, colDual
      ensures Shaped(S) && |S.rs| == rowStat.Length && |S.cs| == colStat.Length
    {
      Sol(rowStat[..], rowPrim[..], rowDual[..], colStat[..], colPrim[..], colDual[..])
    }

    /** lpp_alloc_sol */
    constructor (m: nat, n: nat)
      ensures Valid() && fresh(Arrays()) && rowStat.Length == m && colStat.Length == n
      ensures forall i :: 0 <= i < m ==> rowStat[i] == Unset
      ensures forall j :: 0 <= j < n ==> colStat[j] == Unset
    {
      rowStat := new Stat[m](_ => Unset);
      rowPrim := new real[m](_ => 0.0);
      rowDual := new real[m](_ => 0.0);
      colStat := new Stat[n](_ => Unset);
      colPrim := new real[n](_ => 0.0);
      colDual := new real[n](_ => 0.0);
    }

    method WriteRow(p: int, st: Stat, prim: real, dual: real)
      requires Valid() && 0 <= p < rowStat.Length
      modifies rowStat, rowPrim, rowDual
      ensures Now() == SetRow(old(Now()), p, st, prim, dual)
    {
      rowStat[p] := st;
      rowPrim[p] := prim;
      rowDual[p] := dual;
    }

    method WriteCol(q: int, st: Stat, prim: real, dual: real)
      requires Valid() && 0 <= q < colStat.Length
      modifies colStat, colPrim, colDual
      ensures Now() == SetCol(old(Now()), q, st, prim, dual)
    {
      colStat[q] := st;
      colPrim[q] := prim;
      colDual[q] := dual;
    }

    method RecoverEmptyRow(p: int)
      requires Valid() && RecoverOne(EmptyRow(p), Now()).Some?
      modifies Arrays()
      ensures Now() == RecoverOne(EmptyRow(p), old(Now())).value
    {
      WriteRow(p, BS, 0.0, 0.0);
    }

    method RecoverEmptyCol(q: int, stat: Stat, prim: real, dual: real)
      requires Valid() && RecoverOne(EmptyCol(q, stat, prim, dual), Now()).Some?
      modifies Arrays()
      ensures Now() == RecoverOne(EmptyCol(q, stat, prim, dual), old(Now())).value
    {
      WriteCol(q, stat, prim, dual);
    }

    /** sum += lfe->val * prim[lfe->ref] over the list */
    method Accumulate(lf: map<int, real>, x: array<real>) returns (sum: real)
      requires forall k :: k in lf ==> 0 <= k < x.Length
      ensures sum == Dot(lf, x[..])
    {
      hide SumPart, Dot, VecF;
      var todo := lf.Keys;
      sum := 0.0;
      ghost var xs, n := x[..], x.Length;
      SumPartNone(VecF(lf, xs), n);
      assert lf.Keys - todo == {};
      while todo != {}
        invariant todo <= lf.Keys && sum == SumPart(VecF(lf, xs), n, lf.Keys - todo)
        decreases |todo|
      {
        Inhabited(todo);
        var k :| k in todo;
        var t := Times(lf[k], x[k]);
        DotStep(lf, xs, lf.Keys - todo, k, t);
        sum := sum + t;
        assert lf.Keys - todo + {k} == lf.Keys - (todo - {k});
        todo := todo - {k};
      }
      assert lf.Keys - {} == lf.Keys;
      DotAll(lf, xs);
    }

    method RecoverFreeRow(p: int, lf: map<int, real>)
      requires Valid() && RecoverOne(FreeRow(p, lf), Now()).Some?
      modifies Arrays()
      ensures Now() == RecoverOne(FreeRow(p, lf), old(Now())).value
    {
      hide Dot;
      var sum := Accumulate(lf, colPrim);
      WriteRow(p, BS, sum, 0.0);
    }

    /** row_prim[lfe->ref] += lfe->val * val over the list */
    method Spread(lf: map<int, real>, val: real)
      requires Valid() && forall k :: k in lf ==> 0 <= k < rowPrim.Length
      modifies rowPrim
      ensures rowPrim[..] == AddScaled(old(rowPrim[..]), lf, val)
    {
      hide AddScaled, Times;
      var todo := lf.Keys;
      while todo != {}
        invariant todo <= lf.Keys
        invariant forall k :: 0 <= k < rowPrim.Length ==>
                    rowPrim[k] == old(rowPrim[k]) + (if k in lf && k !in todo then Times(lf[k], val) else 0.0)
        decreases |todo|
      {
        Inhabited(todo);
        var k :| k in todo;
        rowPrim[k] := rowPrim[k] + Times(lf[k], val);
        todo := todo - {k};
      }
      SpreadAll(old(rowPrim[..]), lf, val, rowPrim[..]);
    }

    method RecoverFixedColumn(q: int, val: real, c: real, lf: map<int, real>)
      requires Valid() && RecoverOne(FixedCol(q, val, c, lf), Now()).Some?
      modifies Arrays()
      ensures Now() == RecoverOne(FixedCol(q, val, c, lf), old(Now())).value
    {
      hide Dot, AddScaled;
      var sum := Accumulate(lf, rowDual);
      WriteCol(q, NS, val, c - sum);
      Spread(lf, val);
    }

    method RecoverSngton1(p: int, q: int, apq: real)
      requires Valid() && RecoverOne(RowSngton1(p, q, apq), Now()).Some?
      modifies Arrays()
      ensures Now() == RecoverOne(RowSngton1(p, q, apq), old(Now())).value
    {
      var x, v, w := colPrim[q], apq * colPrim[q], colDual[q] / apq;
      WriteRow(p, NS, v, w);
      WriteCol(q, BS, x, 0.0);
      TakesOver(old(Now()), p, q, apq, NS, v, w);
    }

    method RecoverSngton2(p: int, q: int, apq: real, lbc: bool, ubc: bool)
      requires Valid() && RecoverOne(RowSngton2(p, q, apq, lbc, ubc), Now()).Some?
      modifies Arrays()
      ensures Now() == RecoverOne(RowSngton2(p, q, apq, lbc, ubc), old(Now())).value
    {
      hide RowTakesOver, RowInactive;
      var st, x, lambda := colStat[q], colPrim[q], colDual[q];
      var v, w := apq * x, lambda / apq;
      if st == BS {
        WriteRow(p, BS, v, 0.0);
        Inactive(old(Now()), p, q, apq, BS, v);
        return;
      }
      if st == NS {
        st := if lambda >= 0.0 then NL else NU;
        colStat[q] := st;
      }
      ghost var S := Now();
      assert S == old(Now()).(cs := old(Now()).cs[q := st]);
      if st == NL && lbc {
        WriteRow(p, if apq > 0.0 then NL else NU, v, w);
        WriteCol(q, BS, x, 0.0);
        TakesOverAt(old(Now()), S, p, q, apq, if apq > 0.0 then NL else NU, v, w, st);
      } else if st == NU && ubc {
        WriteRow(p, if apq > 0.0 then NU else NL, v, w);
        WriteCol(q, BS, x, 0.0);
        TakesOverAt(old(Now()), S, p, q, apq, if apq > 0.0 then NU else NL, v, w, st);
      } else {
        WriteRow(p, BS, v, 0.0);
        InactiveAt(old(Now()), S, p, q, apq, st, v);
      }
    }

    method RecoverSlack(p: int, q: int, rhs: real, c: real, apq: real)
      requires Valid() && RecoverOne(ColSngton1(p, q, rhs, c, apq), Now()).Some?
      modifies Arrays()
      ensures Now() == RecoverOne(ColSngton1(p, q, rhs, c, apq), old(Now())).value
    {
      hide SlackBack;
      var st := BS;
      if rowStat[p] == NL {
        st := if apq > 0.0 then NU else NL;
      } else if rowStat[p] == NU {
        st := if apq > 0.0 then NL else NU;
      }
      var dual, prim := -apq * rowDual[p], (rhs - rowPrim[p]) / apq;
      var pi := (c - dual) / apq;
      WriteCol(q, st, prim, dual);
      WriteRow(p, NS, rhs, pi);
      SlackIs(old(Now()), p, q, rhs, c, apq, prim, dual, pi);
    }

    method RecoverImpliedFree(p: int, q: int, stat: Stat)
      requires Valid() && RecoverOne(ColSngton2(p, q, stat), Now()).Some?
      modifies Arrays()
      ensures Now() == RecoverOne(ColSngton2(p, q, stat), old(Now())).value
    {
      rowStat[p] := stat;
    }

    /** The first loop of recover_forcing_row: the dual value of the wrong sign with the largest ratio. */
    method ChooseColumn(l: seq<Lfx>) returns (that: int)
      requires Valid() && LfxReady(Now(), l)
      ensures that == PickIndex(l, colDual[..])
    {
      that := -1;
      var big := 0.0;
      var k := 0;
      while k < |l|
        invariant 0 <= k <= |l| && (that, big) == Pick(l, colDual[..], k)
      {
        var e := l[k];
        var lambda := colDual[e.ref];
        if WrongSign(e.flag, lambda) && big < Ratio(lambda, e.val) {
          that, big := k, Ratio(lambda, e.val);
        }
        k := k + 1;
      }
    }

    /** The last loops of recover_forcing_row. */
    method Release(l: seq<Lfx>, that: int, pi: real)
      requires Valid() && LfxReady(Now(), l)
      modifies colStat, colDual
      ensures colStat[..] == ReleaseStat(l, that, old(colStat[..]), |l|)
      ensures colDual[..] == ReleaseDual(l, that, pi, old(colDual[..]), |l|)
    {
      hide Repaired;
      var k := 0;
      while k < |l|
        invariant 0 <= k <= |l|
        invariant colStat[..] == ReleaseStat(l, that, old(colStat[..]), k)
        invariant colDual[..] == ReleaseDual(l, that, pi, old(colDual[..]), k)
      {
        var e := l[k];
        if k == that {
          colStat[e.ref] := BS;
          colDual[e.ref] := 0.0;
        } else {
          colStat[e.ref] := e.flag;
          colDual[e.ref] := Repaired(colDual[e.ref], e.val, pi);
        }
        k := k + 1;
      }
    }

    method RecoverForcing(p: int, stat: Stat, bnd: real, l: seq<Lfx>)
      requires Valid() && RecoverOne(ForcingRow(p, stat, bnd, l), Now()).Some?
      modifies Arrays()
      ensures Now() == RecoverOne(ForcingRow(p, stat, bnd, l), old(Now())).value
    {
      hide Pick, ReleaseStat, ReleaseDual;
      var that := ChooseColumn(l);
      var pi := if that == -1 then 0.0 else colDual[l[that].ref] / l[that].val;
      WriteRow(p, if that == -1 then BS else stat, bnd, pi);
      Release(l, that, pi);
      assert Now() == ForceBack(old(Now()), p, stat, bnd, l);
    }

    method Recover(e: Entry)
      requires Valid() && RecoverOne(e, Now()).Some?
      modifies Arrays()
      ensures Now() == RecoverOne(e, old(Now())).value
    {
      hide RecoverOne;
      match e
      case EmptyRow(p) => RecoverEmptyRow(p);
      case EmptyCol(q, stat, prim, dual) => RecoverEmptyCol(q, stat, prim, dual);
      case FreeRow(p, lf) => RecoverFreeRow(p, lf);
      case FixedCol(q, val, c, lf) => RecoverFixedColumn(q, val, c, lf);
      case RowSngton1(p, q, apq) => RecoverSngton1(p, q, apq);
      case RowSngton2(p, q, apq, lbc, ubc) => RecoverSngton2(p, q, apq, lbc, ubc);
      case ColSngton1(p, q, rhs, c, apq) => RecoverSlack(p, q, rhs, c, apq);
      case ColSngton2(p, q, stat) => RecoverImpliedFree(p, q, stat);
      case ForcingRow(p, stat, bnd, l) => RecoverForcing(p, stat, bnd, l);
    }

    /** lpp_postsolve; entries are visited from the most recent one on. */
    method Replay(tqe: seq<Entry>)
      requires Valid() && RecoverAll(tqe, Now()).Some?
      modifies Arrays()
      ensures Now() == RecoverAll(tqe, old(Now())).value
    {
      hide RecoverOne;
      var k := 0;
      assert tqe[0..] == tqe;
      while k < |tqe|
        invariant 0 <= k <= |tqe|
        invariant RecoverAll(tqe[k..], Now()) == RecoverAll(tqe, old(Now()))
      {
        assert tqe[k..][0] == tqe[k] && tqe[k..][1..] == tqe[k + 1..];
        Recover(tqe[k]);
        k := k + 1;
      }
    }
  }
}
