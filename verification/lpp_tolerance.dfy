/** analyze_row with the tolerances of the source: its check that an equality row never loses a bound can fail, because a row
    is forcing within 1e-7 but loses a bound within 1.001e-7. */
module LpTolerance {
  import opened Sums
  import opened LpModel
  import opened LpReduce
  import opened LpForcing
  import opened LpLocal

  function Eps(tol: real, b: real): real {
    tol * (1.0 + Abs(b))
  }

  /** The decisions of the routine in their order, for a row with bounds r whose activity lies between lo and hi. */
  predicate CutOff(r: Range, lo: Bound, hi: Bound) {
    || (r.lb.Fin? && hi.Fin? && hi.v < r.lb.v - Eps(0.00001, r.lb.v))
    || (r.ub.Fin? && lo.Fin? && lo.v > r.ub.v + Eps(0.00001, r.ub.v))
  }

  predicate Forcing(r: Range, lo: Bound, hi: Bound) {
    || (r.lb.Fin? && hi.Fin? && hi.v <= r.lb.v + Eps(0.0000001, r.lb.v))
    || (r.ub.Fin? && lo.Fin? && lo.v >= r.ub.v - Eps(0.0000001, r.ub.v))
  }

  predicate LosesLower(r: Range, lo: Bound) {
    r.lb.Fin? && lo.Fin? && lo.v >= r.lb.v - Eps(0.0000001001, r.lb.v)
  }

  predicate LosesUpper(r: Range, hi: Bound) {
    r.ub.Fin? && hi.Fin? && hi.v <= r.ub.v + Eps(0.0000001001, r.ub.v)
  }

  /** A bound is about to be dropped although the bounds are equal. */
  predicate CheckFails(r: Range, lo: Bound, hi: Bound) {
    !CutOff(r, lo, hi) && !Forcing(r, lo, hi) && r.Fixed() && (LosesLower(r, lo) || LosesUpper(r, hi))
  }

  /** The activity ends between the two tolerances, outside of b by t. */
  predicate Sliver(b: real, t: real) {
    Eps(0.0000001, b) < t <= Eps(0.0000001001, b)
  }

  /** The check fails exactly for equality rows whose activity range sticks out on both sides, on at least one of them by an
      amount between the two tolerances. */
  lemma FailsExactly(r: Range, lo: Bound, hi: Bound)
    requires r.Fixed()
    requires lo.Fin? && hi.Fin? ==> lo.v <= hi.v
    ensures var b := r.lb.v;
            CheckFails(r, lo, hi) <==>
              || (lo.Fin? && Sliver(b, b - lo.v) && (hi.Inf? || hi.v - b > Eps(0.0000001, b)))
              || (hi.Fin? && Sliver(b, hi.v - b) && (lo.Inf? || b - lo.v > Eps(0.0000001, b)))
  {
    hide Eps;
    EpsOrder(r.lb.v);
  }

  lemma EpsOrder(b: real)
    ensures 0.0 < Eps(0.0000001, b) < Eps(0.0000001001, b) < Eps(0.00001, b)
  {
    assert 1.0 + Abs(b) > 0.0;
  }

  /** x0 + x1 = 0 with x0 in [-1.0005e-7, 1] and x1 in [0, 1]. */
  function Example(): LP {
    LP(1, 2, map[0 := Range(Fin(0.0), Fin(0.0))],
       map[0 := Column(Range(Fin(-0.00000010005), Fin(1.0)), 0.0), 1 := Column(Range(Fin(0.0), Fin(1.0)), 0.0)],
       map[(0, 0) := 1.0, (0, 1) := 1.0], 0.0)
  }

  lemma ExampleFails()
    ensures WellFormed(Example())
    ensures CheckFails(Example().row[0], ExtremeValue(Example(), 0, 1), ExtremeValue(Example(), 0, 0))
  {
    var P := Example();
    assert Sum(ForcedF(P, 0, 1), 2) == Sum(ForcedF(P, 0, 1), 1) + ForcedF(P, 0, 1)(1);
    assert Sum(ForcedF(P, 0, 0), 2) == Sum(ForcedF(P, 0, 0), 1) + ForcedF(P, 0, 0)(1);
    assert ForcedSum(P, 0, 1) == -0.00000010005 && ForcedSum(P, 0, 0) == 2.0;
  }
}
