/** What a single row says over the ranges of its columns. */
module LpLocal {
  import opened Sums
  import opened LpModel
  import opened LpReduce
  import opened LpEquivCols
  import opened LpBox

  /** Values of the columns within their ranges. */
  ghost predicate BoxPoint(P: LP, x: seq<real>) {
    |x| == P.n && InBox(P, x)
  }

  /** Some values of the columns within their ranges satisfy row p. */
  ghost predicate RowMeets(P: LP, p: int)
    requires p in P.row
  {
    exists x :: BoxPoint(P, x) && P.row[p].Holds(RowAct(P, p, x))
  }

  /** The activity of row p can be less than t. */
  ghost predicate RowBelow(P: LP, p: int, t: real) {
    exists x :: BoxPoint(P, x) && RowAct(P, p, x) < t
  }

  ghost predicate RowAbove(P: LP, p: int, t: real) {
    exists x :: BoxPoint(P, x) && RowAct(P, p, x) > t
  }

  /** The row can at best reach one of its bounds. */
  ghost predicate Stuck(P: LP, p: int)
    requires p in P.row
  {
    var r := P.row[p];
    (r.lb.Fin? && !RowAbove(P, p, r.lb.v)) || (r.ub.Fin? && !RowBelow(P, p, r.ub.v))
  }

  /** The bounds of row p that values of the columns within their ranges can violate. */
  ghost function NeededRange(P: LP, p: int): Range
    requires p in P.row
  {
    var r := P.row[p];
    Range(if r.lb.Fin? && RowBelow(P, p, r.lb.v) then r.lb else Inf, if r.ub.Fin? && RowAbove(P, p, r.ub.v) then r.ub else Inf)
  }

  // ----- the row as a linear function over the box

  function RowCoefs(P: LP, p: int): Coefs {
    (j: int) => At(P.a, p, j)
  }

  function ColRanges(P: LP): Ranges {
    (j: int) => if j in P.col then P.col[j].rng else FREE_RANGE
  }

  lemma BoxInside(P: LP, x: seq<real>)
    requires WellFormed(P)
    ensures Inside(ColRanges(P), P.n, x) <==> BoxPoint(P, x)
    ensures Proper(ColRanges(P), P.n)
  {
  }

  lemma RowLinear(P: LP, p: int, x: seq<real>)
    ensures RowAct(P, p, x) == Linear(RowCoefs(P, p), x, P.n)
  {
    forall j ensures RowF(P.a, p, x)(j) == TermF(RowCoefs(P, p), x)(j) {
      assert TermF(RowCoefs(P, p), x)(j) == Times(At(P.a, p, j), Val(x, j));
    }
    SumCong(RowF(P.a, p, x), TermF(RowCoefs(P, p), x), P.n);
  }

  lemma ForcedEnd(r: Range, k: real, up: bool)
    requires k != 0.0
    ensures ForcedBound(r, k, if up then 0 else 1) == BestEnd(k, r, up)
    ensures k * ForcedVal(r, k, if up then 0 else 1) == EndTerm(k, r, up)
  {
  }

  lemma RowExtreme(P: LP, p: int, up: bool)
    requires WellFormed(P)
    ensures ForcedFin(P, p, if up then 0 else 1) <==> Bounded(RowCoefs(P, p), ColRanges(P), P.n, up)
    ensures ForcedSum(P, p, if up then 0 else 1) == Sum(EndTermF(RowCoefs(P, p), ColRanges(P), up), P.n)
  {
    hide ForcedBound, ForcedVal, BestEnd, EndTerm;
    var at := if up then 0 else 1;
    forall j | (p, j) in P.a
      ensures j in P.col && 0 <= j < P.n && ForcedBound(P.col[j].rng, P.a[(p, j)], at) == BestEnd(P.a[(p, j)], P.col[j].rng, up)
      ensures ForcedF(P, p, at)(j) == EndTerm(P.a[(p, j)], P.col[j].rng, up)
    {
      ForcedEnd(P.col[j].rng, P.a[(p, j)], up);
    }
    if ForcedFin(P, p, at) {
      forall j | 0 <= j < P.n && At(P.a, p, j) != 0.0 ensures BestEnd(At(P.a, p, j), ColRanges(P)(j), up).Fin? {
        assert (p, j) in P.a && (p, j).0 == p;
      }
    }
    if Bounded(RowCoefs(P, p), ColRanges(P), P.n, up) {
      forall k | k in P.a && k.0 == p ensures k.1 in P.col && ForcedBound(P.col[k.1].rng, P.a[k], at).Fin? {
        var j := k.1;
        assert k == (p, j);
        assert RowCoefs(P, p)(j) != 0.0;
      }
    }
    forall j | 0 <= j < P.n ensures ForcedF(P, p, at)(j) == EndTermF(RowCoefs(P, p), ColRanges(P), up)(j) {
      if (p, j) !in P.a {
        NoTerm(ColRanges(P)(j), up);
      }
    }
    SumCong(ForcedF(P, p, at), EndTermF(RowCoefs(P, p), ColRanges(P), up), P.n);
  }

  lemma NoTerm(r: Range, up: bool)
    ensures EndTerm(0.0, r, up) == 0.0
  {
  }

  /** The implied upper (at = 0) or lower (at = 1) bound of row p. */
  function ExtremeValue(P: LP, p: int, at: int): Bound {
    if ForcedFin(P, p, at) then Fin(ForcedSum(P, p, at)) else Inf
  }

  /** A point at which row p is on the given side of t, if its implied bound does not exclude it. */
  lemma RowReaches(P: LP, p: int, up: bool, t: real) returns (x: seq<real>)
    requires WellFormed(P)
    requires var e := ExtremeValue(P, p, if up then 0 else 1); e.Fin? ==> if up then e.v >= t else e.v <= t
    ensures BoxPoint(P, x) && if up then RowAct(P, p, x) >= t else RowAct(P, p, x) <= t
  {
    hide ForcedFin, ForcedSum, Bounded, Linear, EndTermF, Inside, Proper, RowAct;
    RowExtreme(P, p, up);
    BoxInside(P, []);
    x := Reaches(RowCoefs(P, p), ColRanges(P), P.n, up, t);
    BoxInside(P, x);
    RowLinear(P, p, x);
  }

  lemma RowLimit(P: LP, p: int, up: bool, x: seq<real>)
    requires WellFormed(P) && BoxPoint(P, x)
    ensures var e := ExtremeValue(P, p, if up then 0 else 1);
            e.Fin? ==> if up then RowAct(P, p, x) <= e.v else RowAct(P, p, x) >= e.v
  {
    hide ForcedFin, ForcedSum, RowAct;
    if ForcedFin(P, p, if up then 0 else 1) {
      BoxRow(P, p, if up then 0 else 1, x);
    }
  }

  lemma BelowIff(P: LP, p: int, t: real)
    requires WellFormed(P)
    ensures var lo := ExtremeValue(P, p, 1); RowBelow(P, p, t) <==> lo.Inf? || lo.v < t
  {
    hide ExtremeValue, RowAct;
    var lo := ExtremeValue(P, p, 1);
    if lo.Inf? || lo.v < t {
      var x := RowReaches(P, p, false, if lo.Inf? then t - 1.0 else lo.v);
    }
    if x :| BoxPoint(P, x) && RowAct(P, p, x) < t {
      RowLimit(P, p, false, x);
    }
  }

  lemma AboveIff(P: LP, p: int, t: real)
    requires WellFormed(P)
    ensures var hi := ExtremeValue(P, p, 0); RowAbove(P, p, t) <==> hi.Inf? || hi.v > t
  {
    hide ExtremeValue, RowAct;
    var hi := ExtremeValue(P, p, 0);
    if hi.Inf? || hi.v > t {
      var x := RowReaches(P, p, true, if hi.Inf? then t + 1.0 else hi.v);
    }
    if x :| BoxPoint(P, x) && RowAct(P, p, x) > t {
      RowLimit(P, p, true, x);
    }
  }

  // ----- when a row can be satisfied

  /** The activity of a row, between lo and hi, cannot meet its bounds. */
  predicate Misses(r: Range, lo: Bound, hi: Bound) {
    (r.lb.Fin? && hi.Fin? && hi.v < r.lb.v) || (r.ub.Fin? && lo.Fin? && lo.v > r.ub.v)
  }

  /** A value that is in both ranges. */
  function Common(r: Range, lo: Bound, hi: Bound): real {
    var t := SomeValue(r);
    if lo.Fin? && t < lo.v then lo.v else if hi.Fin? && t > hi.v then hi.v else t
  }

  lemma CommonFits(r: Range, lo: Bound, hi: Bound)
    requires r.Ordered() && !Misses(r, lo, hi) && (lo.Fin? && hi.Fin? ==> lo.v <= hi.v)
    ensures var t := Common(r, lo, hi); r.Holds(t) && (lo.Fin? ==> lo.v <= t) && (hi.Fin? ==> t <= hi.v)
  {
  }

  /** Row p can be satisfied within the column ranges exactly if its implied bounds do not miss its own. */
  lemma MeetsIff(P: LP, p: int)
    requires WellFormed(P) && p in P.row
    ensures RowMeets(P, p) <==> !Misses(P.row[p], ExtremeValue(P, p, 1), ExtremeValue(P, p, 0))
  {
    hide ExtremeValue, RowAct, Linear, Inside, SomeValue;
    var lo, hi := ExtremeValue(P, p, 1), ExtremeValue(P, p, 0);
    if x :| BoxPoint(P, x) && P.row[p].Holds(RowAct(P, p, x)) {
      RowLimit(P, p, false, x);
      RowLimit(P, p, true, x);
    }
    if !Misses(P.row[p], lo, hi) {
      ExtremesOrdered(P, p);
      var t := Common(P.row[p], lo, hi);
      CommonFits(P.row[p], lo, hi);
      var x := RowReaches(P, p, false, t);
      var y := RowReaches(P, p, true, t);
      BoxInside(P, x);
      BoxInside(P, y);
      RowLinear(P, p, x);
      RowLinear(P, p, y);
      var z := Intermediate(RowCoefs(P, p), ColRanges(P), P.n, x, y, t);
      BoxInside(P, z);
      RowLinear(P, p, z);
      assert BoxPoint(P, z) && P.row[p].Holds(RowAct(P, p, z));
    }
  }

  lemma ExtremesOrdered(P: LP, p: int)
    requires WellFormed(P)
    ensures var lo, hi := ExtremeValue(P, p, 1), ExtremeValue(P, p, 0); lo.Fin? && hi.Fin? ==> lo.v <= hi.v
  {
    hide ExtremeValue, RowAct;
    var hi := ExtremeValue(P, p, 0);
    if hi.Fin? {
      var x := RowReaches(P, p, true, hi.v);
      RowLimit(P, p, false, x);
      RowLimit(P, p, true, x);
    }
  }

  /** An empty row is satisfied exactly if zero is in its range. */
  lemma EmptyMeets(P: LP, p: int)
    requires WellFormed(P) && p in P.row && EmptyRowAt(P, p)
    ensures RowMeets(P, p) <==> P.row[p].Holds(0.0)
  {
    hide RowAct;
    var x := AnyPoint(P);
    forall z ensures RowAct(P, p, z) == 0.0 {
      RowActEmpty(P, p, z);
    }
  }

  lemma AnyPoint(P: LP) returns (x: seq<real>)
    requires WellFormed(P)
    ensures BoxPoint(P, x)
  {
    x := seq(P.n, (j: int) => SomeValue(ColRanges(P)(j)));
    BoxInside(P, x);
  }

  lemma FreeMeets(P: LP, p: int)
    requires WellFormed(P) && p in P.row && P.row[p].Free()
    ensures RowMeets(P, p)
  {
    hide RowAct;
    var x := AnyPoint(P);
  }

  /** Value v of a column with range `own` is good for a row of that column alone. */
  predicate Admits(own: Range, row: Range, apq: real, v: real) {
    own.Holds(v) && row.Holds(apq * v)
  }

  lemma MeetsAdmit(P: LP, p: int, q: int, x: seq<real>)
    requires WellFormed(P) && p in P.row && SingleInRow(P, p, q) && (p, q) in P.a && q in P.col
    requires BoxPoint(P, x) && P.row[p].Holds(RowAct(P, p, x))
    ensures Admits(P.col[q].rng, P.row[p], P.a[(p, q)], Val(x, q))
  {
    hide RowAct, SingleInRow, WellFormed;
    RowActSingle(P, p, q, x);
  }

  lemma AdmitMeets(P: LP, p: int, q: int, v: real)
    requires WellFormed(P) && p in P.row && SingleInRow(P, p, q) && (p, q) in P.a && q in P.col
    requires Admits(P.col[q].rng, P.row[p], P.a[(p, q)], v)
    ensures RowMeets(P, p)
  {
    hide RowAct, SingleInRow;
    var y := AnyPoint(P);
    ColInside(P, q);
    var x := y[q := v];
    forall j | j in P.col ensures P.col[j].rng.Holds(Val(x, j)) {
      assert Val(x, j) == if j == q then v else Val(y, j);
    }
    RowActSingle(P, p, q, x);
    assert BoxPoint(P, x);
  }

  lemma ColInside(P: LP, q: int)
    requires WellFormed(P) && q in P.col
    ensures 0 <= q < P.n
  {
  }

  /** A singleton row is satisfied exactly if some value of its column is good for both. */
  lemma SngtonMeets(P: LP, p: int, q: int)
    requires WellFormed(P) && p in P.row && SingleInRow(P, p, q) && (p, q) in P.a && q in P.col
    ensures RowMeets(P, p) <==> exists v :: Admits(P.col[q].rng, P.row[p], P.a[(p, q)], v)
  {
    hide RowAct, SingleInRow, WellFormed, Admits, BoxPoint;
    if x :| BoxPoint(P, x) && P.row[p].Holds(RowAct(P, p, x)) {
      MeetsAdmit(P, p, q, x);
    }
    if v :| Admits(P.col[q].rng, P.row[p], P.a[(p, q)], v) {
      AdmitMeets(P, p, q, v);
    }
  }
}
