/** Reductions that push several queue entries, and the composition of reductions. */
module LpCompose {
  import opened Sums
  import opened LpModel
  import opened LpRecover
  import opened LpReduce
  import opened LpKktRows
  import opened LpKktCols
  import opened LpKktForce
  import opened LpBasis
  import opened LpEquiv
  import opened LpEquivCols
  import opened LpDual

  /** All checks were passed, the recovered solution is basic and optimal for P, and its basis is non-singular if that of S was. */
  ghost predicate Restored(P: LP, R: LP, S: Sol, r: Option<Sol>) {
    r.Some? && BasicOptimal(P, r.value) && (Nonsingular(R, S) ==> Nonsingular(P, r.value))
  }

  /** Postsolving with the entries es turns every basic optimal solution of R into one of P. */
  ghost predicate Restores(P: LP, R: LP, es: seq<Entry>) {
    && P.m == R.m && P.n == R.n
    && forall S :: BasicOptimal(R, S) ==> Shaped(S) && Restored(P, R, S, RecoverAll(es, S))
  }

  /** R was obtained from P by sound reductions that pushed the entries of T' in front of those of T: optima correspond, multipliers with
      the right signs are kept, and solutions can be restored. */
  ghost predicate Reduces(P: LP, T: seq<Entry>, R: LP, T': seq<Entry>) {
    && Equivalent(P, R) && KeepsDual(P, R)
    && |T| <= |T'| && T'[|T'| - |T|..] == T
    && Restores(P, R, T'[..|T'| - |T|])
  }

  lemma BasicOptimalShaped(P: LP, S: Sol)
    requires BasicOptimal(P, S)
    ensures Shape(P, S) && Shaped(S)
  {
  }

  lemma RestoresNone(P: LP, R: LP)
    requires P.m == R.m && P.n == R.n && forall S :: BasicOptimal(R, S) ==> BasicOptimal(P, S) && (Nonsingular(R, S) ==> Nonsingular(P, S))
    ensures Restores(P, R, [])
  {
    hide BasicOptimal, Nonsingular;
    forall S | BasicOptimal(R, S)
      ensures Shaped(S) && Restored(P, R, S, RecoverAll([], S))
    {
      BasicOptimalShaped(R, S);
    }
  }

  lemma RecoverAllOne(e: Entry, S: Sol)
    requires Shaped(S)
    ensures RecoverAll([e], S) == RecoverOne(e, S)
  {
  }

  lemma RestoresTrans(P: LP, Q: LP, R: LP, es: seq<Entry>, fs: seq<Entry>)
    requires Restores(P, Q, es) && Restores(Q, R, fs)
    ensures Restores(P, R, fs + es)
  {
    hide BasicOptimal, Nonsingular, RecoverAll;
    forall S | BasicOptimal(R, S)
      ensures Shaped(S) && Restored(P, R, S, RecoverAll(fs + es, S))
    {
      BasicOptimalShaped(R, S);
      RecoverAllConcat(fs, es, S);
    }
  }

  lemma ReducesRefl(P: LP, T: seq<Entry>)
    ensures Reduces(P, T, P, T)
  {
    hide BasicOptimal, Nonsingular, Feasible;
    SimulatesRefl(P);
    RestoresNone(P, P);
    assert T[..0] == [];
  }

  lemma ReducesIntro(P: LP, T: seq<Entry>, R: LP, es: seq<Entry>)
    requires Equivalent(P, R) && KeepsDual(P, R) && Restores(P, R, es)
    ensures Reduces(P, T, R, es + T)
  {
    hide Equivalent, Restores, KeepsDual;
    var T' := es + T;
    assert T'[..|T'| - |T|] == es && T'[|T'| - |T|..] == T;
  }

  lemma ReducesTrans(P: LP, T: seq<Entry>, Q: LP, U: seq<Entry>, R: LP, V: seq<Entry>)
    requires Reduces(P, T, Q, U) && Reduces(Q, U, R, V)
    ensures Reduces(P, T, R, V)
  {
    hide Restores, Simulates, KeepsDual;
    SimulatesTrans(P, Q, R);
    SimulatesTrans(R, Q, P);
    KeepsDualTrans(P, Q, R);
    var es, fs := U[..|U| - |T|], V[..|V| - |U|];
    RestoresTrans(P, Q, R, es, fs);
    assert U == es + T && V == fs + U;
    assert V[..|V| - |T|] == fs + es && V[|V| - |T|..] == T;
  }

  // ----- single entries

  lemma EmptyRowRestores(P: LP, p: int)
    requires WellFormed(P) && p in P.row && EmptyRowAt(P, p) && P.row[p].Holds(0.0)
    ensures Restores(P, RemoveRow(P, p), [EmptyRow(p)])
  {
    hide BasicOptimal, Nonsingular, RecoverAll, RecoverOne, WellFormed, EmptyRowAt;
    forall S | BasicOptimal(RemoveRow(P, p), S)
      ensures Shaped(S) && Restored(P, RemoveRow(P, p), S, RecoverAll([EmptyRow(p)], S))
    {
      BasicOptimalShaped(RemoveRow(P, p), S);
      RecoverAllOne(EmptyRow(p), S);
      EmptyRowStep(P, p, S);
      if Nonsingular(RemoveRow(P, p), S) {
        EmptyRowBasis(P, p, S);
      }
    }
  }

  lemma FreeRowRestores(P: LP, p: int)
    requires WellFormed(P) && p in P.row && P.row[p].Free()
    ensures Restores(P, RemoveRow(P, p), [FreeRow(p, RowVec(P, p))])
  {
    hide BasicOptimal, Nonsingular, RecoverAll, RecoverOne, WellFormed, RowVec;
    var e := FreeRow(p, RowVec(P, p));
    forall S | BasicOptimal(RemoveRow(P, p), S)
      ensures Shaped(S) && Restored(P, RemoveRow(P, p), S, RecoverAll([e], S))
    {
      BasicOptimalShaped(RemoveRow(P, p), S);
      RecoverAllOne(e, S);
      FreeRowStep(P, p, S);
      if Nonsingular(RemoveRow(P, p), S) {
        FreeRowBasis(P, p, RowVec(P, p), S);
      }
    }
  }

  lemma EmptyColRestores(P: LP, q: int, v: real, st: Stat)
    requires WellFormed(P) && q in P.col && 0 <= q < P.n && EmptyColAt(P, q)
    requires StatusOk(P.col[q].rng, st, v, P.col[q].c) && st != BS
    ensures Restores(P, SubstCol(P, q, v), [EmptyCol(q, st, v, P.col[q].c)])
  {
    hide BasicOptimal, Nonsingular, RecoverAll, RecoverOne, WellFormed, EmptyColAt, StatusOk;
    var e, R := EmptyCol(q, st, v, P.col[q].c), SubstCol(P, q, v);
    forall S | BasicOptimal(R, S)
      ensures Shaped(S) && Restored(P, R, S, RecoverAll([e], S))
    {
      BasicOptimalShaped(R, S);
      RecoverAllOne(e, S);
      EmptyColStep(P, q, v, st, S);
      if Nonsingular(R, S) {
        EmptyColBasis(P, q, v, st, P.col[q].c, S);
      }
    }
  }

  lemma FixedColRestores(P: LP, q: int)
    requires WellFormed(P) && q in P.col && 0 <= q < P.n && P.col[q].rng.Fixed()
    ensures var v := P.col[q].rng.lb.v; Restores(P, SubstCol(P, q, v), [FixedColEntry(P, q, v)])
  {
    hide BasicOptimal, Nonsingular, RecoverAll, RecoverOne, WellFormed, FixedColEntry;
    var v := P.col[q].rng.lb.v;
    var e, R := FixedColEntry(P, q, v), SubstCol(P, q, v);
    forall S | BasicOptimal(R, S)
      ensures Shaped(S) && Restored(P, R, S, RecoverAll([e], S))
    {
      BasicOptimalShaped(R, S);
      RecoverAllOne(e, S);
      FixedColStep(P, q, S);
      if Nonsingular(R, S) {
        FixedColBasis(P, q, v, S);
      }
    }
  }

  lemma RowSngton2Restores(P: LP, p: int, q: int)
    requires WellFormed(P) && p in P.row && SingleInRow(P, p, q) && (p, q) in P.a && !P.row[p].Fixed() && !P.row[p].Free()
    requires q in P.col && !P.col[q].rng.Fixed() && P.a[(p, q)] != 0.0
    requires P.row[p].Ordered() && P.col[q].rng.Ordered()
    requires Consistent(P.col[q].rng, ImpliedRange(P.row[p], P.a[(p, q)]))
    ensures var own, imp := P.col[q].rng, ImpliedRange(P.row[p], P.a[(p, q)]);
            Restores(P, SngtonProblem(P, p, q, Tighten(own, imp)),
                     [RowSngton2(p, q, P.a[(p, q)], LbTightens(own, imp), UbTightens(own, imp))])
  {
    hide BasicOptimal, Nonsingular, RecoverAll, RecoverOne, WellFormed, SingleInRow, Consistent, ImpliedRange, Tighten, LbTightens,
      UbTightens;
    var own, imp := P.col[q].rng, ImpliedRange(P.row[p], P.a[(p, q)]);
    var e := RowSngton2(p, q, P.a[(p, q)], LbTightens(own, imp), UbTightens(own, imp));
    var R := SngtonProblem(P, p, q, Tighten(own, imp));
    forall S | BasicOptimal(R, S)
      ensures Shaped(S) && Restored(P, R, S, RecoverAll([e], S))
    {
      BasicOptimalShaped(R, S);
      RecoverAllOne(e, S);
      RowSngton2Step(P, p, q, S);
      if Nonsingular(R, S) {
        RowSngton2Basis(P, p, q, Tighten(own, imp), S, LbTightens(own, imp), UbTightens(own, imp));
      }
    }
  }

  lemma ColSngton1Restores(P: LP, p: int, q: int)
    requires WellFormed(P) && p in P.row && q in P.col && P.row[p].Fixed() && SingleInCol(P, p, q)
    requires (p, q) in P.a && P.a[(p, q)] != 0.0 && 0 <= p < P.m && 0 <= q < P.n && !P.col[q].rng.Fixed()
    ensures Restores(P, SlackProblem(P, p, q), [ColSngton1(p, q, P.row[p].lb.v, P.col[q].c, P.a[(p, q)])])
  {
    hide BasicOptimal, Nonsingular, RecoverAll, RecoverOne, WellFormed, SingleInCol;
    var e, R := ColSngton1(p, q, P.row[p].lb.v, P.col[q].c, P.a[(p, q)]), SlackProblem(P, p, q);
    forall S | BasicOptimal(R, S)
      ensures Shaped(S) && Restored(P, R, S, RecoverAll([e], S))
    {
      BasicOptimalShaped(R, S);
      RecoverAllOne(e, S);
      ColSngton1Step(P, p, q, S);
      if Nonsingular(R, S) {
        ColSngton1Basis(P, p, q, P.row[p].lb.v, P.col[q].c, S);
      }
    }
  }

  // ----- entries that rely on the entry pushed after them

  lemma RecoverAllTwo(e: Entry, f: Entry, S: Sol)
    requires Shaped(S)
    ensures RecoverAll([e, f], S) ==
            match RecoverOne(e, S) { case None => None case Some(T) => RecoverOne(f, T) }
  {
    match RecoverOne(e, S)
    case None =>
    case Some(T) =>
      assert [e, f][1..] == [f];
      RecoverAllOne(f, T);
  }

  /** An equality row singleton: the column it fixes is recovered first, non-basic and fixed. */
  lemma RowSngton1Restores(P: LP, p: int, q: int, v: real)
    requires WellFormed(P) && p in P.row && SingleInRow(P, p, q) && (p, q) in P.a && P.row[p].Fixed()
    requires q in P.col && 0 <= q < P.n && P.a[(p, q)] != 0.0 && v == P.row[p].lb.v / P.a[(p, q)]
    requires P.col[q].rng.Holds(v)
    ensures var Q := SngtonProblem(P, p, q, FixAt(v));
            Restores(P, SubstCol(Q, q, v), [FixedColEntry(Q, q, v), RowSngton1(p, q, P.a[(p, q)])])
  {
    hide BasicOptimal, Nonsingular, RecoverAll, RecoverOne, WellFormed, SingleInRow, FixedColEntry;
    var Q := SngtonProblem(P, p, q, FixAt(v));
    var R, e, f := SubstCol(Q, q, v), FixedColEntry(Q, q, v), RowSngton1(p, q, P.a[(p, q)]);
    SngtonFacts(P, p, q, FixAt(v));
    forall S | BasicOptimal(R, S)
      ensures Shaped(S) && Restored(P, R, S, RecoverAll([e, f], S))
    {
      BasicOptimalShaped(R, S);
      RecoverAllTwo(e, f, S);
      FixedColStep(Q, q, S);
      var T := RecoverOne(e, S).value;
      BasicOptimalShaped(Q, T);
      assert T.cs[q] == NS;
      RowSngton1Step(P, p, q, T);
      if Nonsingular(R, S) {
        FixedColBasis(Q, q, v, S);
        RowSngton1Basis(P, p, q, FixAt(v), T);
      }
    }
  }

  /** An implied free column: once it is dropped as a slack it is recovered as basic, and its row as active. */
  lemma ColSngton2Restores(P: LP, p: int, q: int, v: real, st: Stat)
    requires WellFormed(P) && p in P.row && q in P.col && SingleInCol(P, p, q) && 0 <= p < P.m && 0 <= q < P.n
    requires (p, q) in P.a && P.a[(p, q)] != 0.0 && !P.row[p].Fixed() && P.row[p].Ordered()
    requires ImpliedFree(P, p, q) && ActiveSide(P.row[p], st, v, P.col[q].c / P.a[(p, q)])
    ensures var F := FreedProblem(P, p, q, v);
            && WellFormed(F) && SingleInCol(F, p, q) && F.row[p] == FixAt(v) && F.col[q] == Column(FREE_RANGE, P.col[q].c)
            && Restores(P, SlackProblem(F, p, q), [ColSngton1(p, q, v, P.col[q].c, P.a[(p, q)]), ColSngton2(p, q, st)])
  {
    FreedFacts(P, p, q, v);
    hide BasicOptimal, Nonsingular, RecoverAll, RecoverOne, WellFormed, SingleInCol, ImpliedFree, ActiveSide, SlackProblem;
    var F := FreedProblem(P, p, q, v);
    var e, f := ColSngton1(p, q, v, P.col[q].c, P.a[(p, q)]), ColSngton2(p, q, st);
    var R := SlackProblem(F, p, q);
    SlackSizes(F, p, q);
    forall S | BasicOptimal(R, S)
      ensures Shaped(S) && Restored(P, R, S, RecoverAll([e, f], S))
    {
      BasicOptimalShaped(R, S);
      RecoverAllTwo(e, f, S);
      ColSngton1Step(F, p, q, S);
      var T := RecoverOne(e, S).value;
      BasicOptimalShaped(F, T);
      ColSngton2Step(P, p, q, v, st, T);
      if Nonsingular(R, S) {
        ColSngton1Basis(F, p, q, v, P.col[q].c, S);
        ColSngton2Basis(P, p, q, v, st, T);
      }
    }
  }

  lemma SlackSizes(P: LP, p: int, q: int)
    requires p in P.row && q in P.col && P.row[p].Fixed() && (p, q) in P.a && P.a[(p, q)] != 0.0
    ensures var R := SlackProblem(P, p, q); R.m == P.m && R.n == P.n
  {
  }

  lemma FreedFacts(P: LP, p: int, q: int, v: real)
    requires WellFormed(P) && p in P.row && q in P.col && SingleInCol(P, p, q)
    ensures var F := FreedProblem(P, p, q, v);
            && WellFormed(F) && SingleInCol(F, p, q) && F.row[p] == FixAt(v) && F.col[q] == Column(FREE_RANGE, P.col[q].c)
            && F.m == P.m && F.n == P.n && F.a == P.a
  {
  }

  // ----- forcing rows followed by the removal of the columns they fix

  predicate AllFixedCols(es: seq<Entry>) {
    forall k :: 0 <= k < |es| ==> es[k].FixedCol?
  }

  lemma {:induction false} FixedKeepsNS(es: seq<Entry>, S: Sol, q: int)
    requires Shaped(S) && AllFixedCols(es) && RecoverAll(es, S).Some?
    requires 0 <= q < |S.cs| && S.cs[q] == NS
    ensures RecoverAll(es, S).value.cs[q] == NS
  {
    if es != [] {
      FixedKeepsNS(es[1..], RecoverOne(es[0], S).value, q);
    }
  }

  /** As `Restores`, and the columns J come back non-basic and fixed. */
  ghost predicate RestoresFixed(P: LP, R: LP, es: seq<Entry>, J: set<int>) {
    && Restores(P, R, es) && AllFixedCols(es)
    && forall S :: BasicOptimal(R, S) ==>
         Shaped(S) && RecoverAll(es, S).Some? &&
         forall j <- J :: 0 <= j < |S.cs| && RecoverAll(es, S).value.cs[j] == NS
  }

  lemma RestoresFixedStart(P: LP)
    ensures RestoresFixed(P, P, [], {})
  {
    hide BasicOptimal, Nonsingular;
    RestoresNone(P, P);
  }

  lemma RestoresFixedStep(P: LP, Q: LP, es: seq<Entry>, J: set<int>, q: int)
    requires RestoresFixed(P, Q, es, J)
    requires WellFormed(Q) && q in Q.col && 0 <= q < Q.n && Q.col[q].rng.Fixed()
    ensures var v := Q.col[q].rng.lb.v;
            RestoresFixed(P, SubstCol(Q, q, v), [FixedColEntry(Q, q, v)] + es, J + {q})
  {
    hide BasicOptimal, Nonsingular, RecoverAll, RecoverOne, WellFormed;
    var v := Q.col[q].rng.lb.v;
    var R, e := SubstCol(Q, q, v), FixedColEntry(Q, q, v);
    FixedColRestores(Q, q);
    RestoresTrans(P, Q, R, es, [e]);
    forall S | BasicOptimal(R, S)
      ensures Shaped(S) && RecoverAll([e] + es, S).Some?
      ensures forall j <- J + {q} :: 0 <= j < |S.cs| && RecoverAll([e] + es, S).value.cs[j] == NS
    {
      BasicOptimalShaped(R, S);
      RecoverAllConcat([e], es, S);
      RecoverAllOne(e, S);
      FixedColStep(Q, q, S);
      var T := RecoverOne(e, S).value;
      assert T.cs[q] == NS;
      FixedKeepsNS(es, T, q);
    }
  }

  lemma ForcingRestores(P: LP, p: int, at: int, l: seq<Lfx>, R: LP, es: seq<Entry>, J: set<int>)
    requires WellFormed(P) && ForceReady(P, p, at, l) && p in P.row && RowBound(P.row[p], at).Fin? && RefsIn(l, P.n)
    requires RestoresFixed(ForceProblem(P, p, at), R, es, J)
    requires forall k :: 0 <= k < |l| ==> l[k].ref in J
    ensures Restores(P, R, es + [ForcedEntry(P, p, at, l)])
  {
    hide BasicOptimal, Nonsingular, RecoverAll, RecoverOne, WellFormed, ForceReady, ForcedEntry, AllFixedCols;
    var Q, f := ForceProblem(P, p, at), ForcedEntry(P, p, at, l);
    forall S | BasicOptimal(R, S)
      ensures Shaped(S) && Restored(P, R, S, RecoverAll(es + [f], S))
    {
      BasicOptimalShaped(R, S);
      RecoverAllConcat(es, [f], S);
      var T := RecoverAll(es, S).value;
      BasicOptimalShaped(Q, T);
      RecoverAllOne(f, T);
      ForcingRowStep(P, p, at, l, T);
      if Nonsingular(R, S) {
        ForcingRowBasis(P, p, at, l, T);
      }
    }
  }

  lemma StripRestores(P: LP, p: int, r: Range)
    requires WellFormed(P) && StripOk(P, p, r) && !P.row[p].Fixed()
    ensures Restores(P, SetRowRange(P, p, r), [])
  {
    hide BasicOptimal, Nonsingular, WellFormed, ForcedFin, ForcedSum;
    forall S | BasicOptimal(SetRowRange(P, p, r), S)
      ensures BasicOptimal(P, S) && (Nonsingular(SetRowRange(P, p, r), S) ==> Nonsingular(P, S))
    {
      StripKkt(P, p, r, S);
      if Nonsingular(SetRowRange(P, p, r), S) {
        StripBasis(P, p, r, S);
      }
    }
    RestoresNone(P, SetRowRange(P, p, r));
  }
}
