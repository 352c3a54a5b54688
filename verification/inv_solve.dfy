/** Solving with V by substitution in the order of its pivots. */
module InvSolve {
  import opened Collections
  import opened Sums
  import opened InvEta
  import opened InvLists

  /** Equation r of a square system: the sum of its elements times the unknowns. */
  function EquationF(e: (int, int) -> real, r: int, x: seq<real>): int -> real {
    (c: int) => Times(e(r, c), Val(x, c))
  }

  function Equation(e: (int, int) -> real, r: int, x: seq<real>): real {
    Sum(EquationF(e, r, x), |x|)
  }

  /** Element (r, c) from a pivot and the list of unknown c. */
  function ListEnt(lists: seq<Sparse>, piv: seq<real>, epos: seq<int>, upos: seq<int>, r: int, c: int): real {
    if !(0 <= r < |epos| && 0 <= c < |upos| && 0 <= c < |lists| && r < |piv|) then 0.0
    else if epos[r] == upos[c] then piv[r]
    else At(lists[c], r)
  }

  function ListMatrix(lists: seq<Sparse>, piv: seq<real>, epos: seq<int>, upos: seq<int>): (int, int) -> real {
    (r: int, c: int) => ListEnt(lists, piv, epos, upos, r, c)
  }

  /** A system in solving order: equation r is solved for the unknown at the same position, and unknown c occurs besides
      only in equations that come later. `piv` holds the pivot of each equation. */
  ghost predicate Triangular(lists: seq<Sparse>, piv: seq<real>, epos: seq<int>, upos: seq<int>) {
    && |lists| == |piv| == |epos| == |upos|
    && (forall c, r :: 0 <= c < |lists| && r in lists[c] ==> 0 <= r < |epos|)
    && (forall c, r :: 0 <= c < |lists| && 0 <= r < |epos| && r in lists[c] ==> epos[r] > upos[c])
    && (forall r :: 0 <= r < |piv| ==> piv[r] != 0.0)
  }

  /** Equations at positions below k hold; what is left of the right-hand side is right for the others. */
  ghost predicate Partial(e: (int, int) -> real, epos: seq<int>, upos: seq<int>, k: int, b0: seq<real>, b: seq<real>, x: seq<real>) {
    && |b0| == |b| == |x| == |epos| == |upos|
    && (forall r :: 0 <= r < |b0| ==> b0[r] == Equation(e, r, x) + if epos[r] < k then 0.0 else b[r])
    && (forall c :: 0 <= c < |x| && upos[c] >= k ==> x[c] == 0.0)
  }

  lemma PartialStart(e: (int, int) -> real, epos: seq<int>, upos: seq<int>, b: seq<real>, x: seq<real>)
    requires |b| == |x| == |epos| == |upos| && (forall c :: 0 <= c < |x| ==> x[c] == 0.0)
    requires forall r :: 0 <= r < |b| ==> 0 <= epos[r]
    ensures Partial(e, epos, upos, 0, b, b, x)
  {
    forall r | 0 <= r < |b| ensures Equation(e, r, x) == 0.0 {
      EquationZero(e, r, x);
    }
  }

  lemma EquationZero(e: (int, int) -> real, r: int, x: seq<real>)
    requires forall c :: 0 <= c < |x| ==> x[c] == 0.0
    ensures Equation(e, r, x) == 0.0
  {
    forall c | 0 <= c < |x| ensures EquationF(e, r, x)(c) == 0.0 {
      ZeroTimes(e(r, c));
    }
    SumZero(EquationF(e, r, x), |x|);
  }

  lemma EquationSet(e: (int, int) -> real, r: int, x: seq<real>, c: int, t: real)
    requires 0 <= c < |x| && x[c] == 0.0
    ensures Equation(e, r, x[c := t]) == Equation(e, r, x) + Times(e(r, c), t)
  {
    hide Times;
    ZeroTimes(e(r, c));
    var f, g := EquationF(e, r, x[c := t]), EquationF(e, r, x);
    forall k | 0 <= k < |x| && k != c ensures f(k) == g(k) {
      assert Val(x[c := t], k) == Val(x, k);
    }
    SumOne(f, g, |x|, c);
  }

  lemma StepEquation(lists: seq<Sparse>, piv: seq<real>, epos: seq<int>, upos: seq<int>, k: int,
                     b0: seq<real>, b: seq<real>, x: seq<real>, i: int, j: int, t: real, r: int)
    requires Triangular(lists, piv, epos, upos)
    requires Partial(ListMatrix(lists, piv, epos, upos), epos, upos, k, b0, b, x)
    requires 0 <= i < |b| && 0 <= j < |b| && epos[i] == k == upos[j] && t == b[i] / piv[i] && 0 <= r < |b|
    requires epos[r] == k ==> r == i
    ensures b0[r] == Equation(ListMatrix(lists, piv, epos, upos), r, x[j := t]) +
                     if epos[r] < k + 1 then 0.0 else AddedAt(lists[j], b, -t, r)
  {
    hide Equation, Times;
    var e := ListMatrix(lists, piv, epos, upos);
    EquationSet(e, r, x, j, t);
    assert e(r, j) == ListEnt(lists, piv, epos, upos, r, j);
    if r == i {
      QuotientTimes(b[i], piv[i], t);
    } else if epos[r] < k {
      assert r !in lists[j];
      ZeroTimes(t);
    } else {
      TimesNeg(At(lists[j], r), t);
    }
  }

  lemma QuotientTimes(w: real, piv: real, t: real)
    requires piv != 0.0 && t == w / piv
    ensures Times(piv, t) == w
  {
  }

  lemma TimesNeg(x: real, t: real)
    ensures Times(x, -t) == -Times(x, t)
  {
  }

  lemma PartialStep(lists: seq<Sparse>, piv: seq<real>, epos: seq<int>, upos: seq<int>, k: int,
                    b0: seq<real>, b: seq<real>, x: seq<real>, i: int, j: int, t: real, b': seq<real>)
    requires Triangular(lists, piv, epos, upos)
    requires Partial(ListMatrix(lists, piv, epos, upos), epos, upos, k, b0, b, x)
    requires 0 <= i < |b| && 0 <= j < |b| && epos[i] == k == upos[j] && t == b[i] / piv[i]
    requires b' == Added(b, lists[j], -t)
    requires forall r :: 0 <= r < |b| && epos[r] == k ==> r == i
    ensures Partial(ListMatrix(lists, piv, epos, upos), epos, upos, k + 1, b0, b', x[j := t])
  {
    hide Equation, ListMatrix, AddedAt, Triangular;
    var e := ListMatrix(lists, piv, epos, upos);
    forall r | 0 <= r < |b|
      ensures b0[r] == Equation(e, r, x[j := t]) + if epos[r] < k + 1 then 0.0 else b'[r]
    {
      StepEquation(lists, piv, epos, upos, k, b0, b, x, i, j, t, r);
    }
  }

  lemma PartialSkip(lists: seq<Sparse>, piv: seq<real>, epos: seq<int>, upos: seq<int>, k: int,
                    b0: seq<real>, b: seq<real>, x: seq<real>, i: int, j: int)
    requires Triangular(lists, piv, epos, upos)
    requires Partial(ListMatrix(lists, piv, epos, upos), epos, upos, k, b0, b, x)
    requires 0 <= i < |b| && 0 <= j < |b| && epos[i] == k == upos[j] && b[i] == 0.0
    requires forall r :: 0 <= r < |b| && epos[r] == k ==> r == i
    ensures Partial(ListMatrix(lists, piv, epos, upos), epos, upos, k + 1, b0, b, x)
  {
    hide Equation, ListMatrix, Triangular;
  }

  lemma PartialDone(e: (int, int) -> real, epos: seq<int>, upos: seq<int>, k: int, b0: seq<real>, b: seq<real>, x: seq<real>)
    requires Partial(e, epos, upos, k, b0, b, x) && forall r :: 0 <= r < |epos| ==> epos[r] < k
    ensures |x| == |b0| && forall r :: 0 <= r < |b0| ==> Equation(e, r, x) == b0[r]
  {
    hide Equation;
  }

  /** One equation: solve it for its unknown and take the unknown out of the later equations. */
  method SolveEquation(ghost lists: seq<Sparse>, ghost pivs: seq<real>, ghost epos: seq<int>, ghost upos: seq<int>,
                       ghost k: int, ghost b0: seq<real>, list: Sparse, pivot: real, i: int, j: int, b: array<real>, x: array<real>)
    requires b != x && b.Length == x.Length && 0 <= i < b.Length && 0 <= j < b.Length
    requires Triangular(lists, pivs, epos, upos) && Partial(ListMatrix(lists, pivs, epos, upos), epos, upos, k, b0, b[..], x[..])
    requires |epos| == |upos| == |lists| == |pivs| == b.Length
    requires epos[i] == k == upos[j] && list == lists[j] && pivot == pivs[i]
    requires forall r :: 0 <= r < |epos| && epos[r] == k ==> r == i
    requires pivot != 0.0 && forall r :: r in list ==> 0 <= r < b.Length
    modifies b, x
    ensures Partial(ListMatrix(lists, pivs, epos, upos), epos, upos, k + 1, b0, b[..], x[..])
  {
    hide Partial, Triangular, ListMatrix, Added;
    ghost var bs, xs := b[..], x[..];
    if b[i] == 0.0 {
      PartialSkip(lists, pivs, epos, upos, k, b0, bs, xs, i, j);
      return;
    }
    var t := b[i] / pivot;
    x[j] := t;
    SubtractFrom(b, list, t);
    PartialStep(lists, pivs, epos, upos, k, b0, bs, xs, i, j, t, b[..]);
  }

  /** b := x, x := 0 */
  method MoveToWork(x: array<real>) returns (b: array<real>)
    modifies x
    ensures fresh(b) && b.Length == x.Length && b[..] == old(x[..])
    ensures forall c :: 0 <= c < x.Length ==> x[c] == 0.0
  {
    b := new real[x.Length](_ => 0.0);
    var k := 0;
    while k < x.Length
      invariant 0 <= k <= x.Length
      invariant forall c :: 0 <= c < k ==> b[c] == old(x[c]) && x[c] == 0.0
      invariant forall c :: k <= c < x.Length ==> x[c] == old(x[c])
    {
      b[k] := x[k];
      x[k] := 0.0;
      k := k + 1;
    }
  }

  // ----- V*x = b and V'*x = b

  /** Component i of V*x. */
  ghost function VRow(v: Vmat, i: int, x: seq<real>): real
    requires VShape(v)
  {
    Equation(ListMatrix(v.cols, v.piv, v.pcol, v.qrow), i, x)
  }

  /** The pivots by column. */
  function ColPivots(v: Vmat): (s: seq<real>)
    requires VShape(v)
    ensures |s| == |v.rows|
  {
    seq(|v.rows|, (c: int) => PivotOf(v, c))
  }

  function PivotOf(v: Vmat, c: int): real {
    if 0 <= c < |v.qrow| && 0 <= v.qrow[c] < |v.prow| && 0 <= v.prow[v.qrow[c]] < |v.piv| then v.piv[v.prow[v.qrow[c]]] else 0.0
  }

  /** Component c of V'*x. */
  ghost function VCol2(v: Vmat, c: int, x: seq<real>): real
    requires VShape(v)
  {
    Equation(ListMatrix(v.rows, ColPivots(v), v.qrow, v.pcol), c, x)
  }

  /** Both systems have the elements of V. */
  lemma SystemElements(v: Vmat, i: int, c: int)
    requires VOk(v) && 0 <= i < |v.rows| && 0 <= c < |v.rows|
    ensures ListMatrix(v.cols, v.piv, v.pcol, v.qrow)(i, c) == VEnt(v, i, c)
    ensures ListMatrix(v.rows, ColPivots(v), v.qrow, v.pcol)(c, i) == VEnt(v, i, c)
  {
    hide Upper;
    assert 0 <= v.qrow[c] < |v.qcol| && 0 <= v.pcol[i] < |v.prow| && v.prow[v.pcol[i]] == i;
  }

  /** Solving positions for V*x = b run from the last pivot back. */
  ghost function Reversed(pos: seq<int>): (r: seq<int>)
    ensures |r| == |pos| && forall k :: 0 <= k < |pos| ==> r[k] == |pos| - 1 - pos[k]
  {
    seq(|pos|, k requires 0 <= k < |pos| => |pos| - 1 - pos[k])
  }

  lemma ReversedTriangular(v: Vmat)
    requires VOk(v)
    ensures Triangular(v.cols, v.piv, Reversed(v.pcol), Reversed(v.qrow))
  {
  }

  lemma ForwardTriangular(v: Vmat)
    requires VOk(v)
    ensures Triangular(v.rows, ColPivots(v), v.qrow, v.pcol)
  {
    forall c | 0 <= c < |v.rows| ensures ColPivots(v)[c] != 0.0 {
      assert 0 <= v.qrow[c] < |v.prow|;
      assert 0 <= v.prow[v.qrow[c]] < |v.piv|;
    }
  }

  lemma SameEquation(e: (int, int) -> real, g: (int, int) -> real, r: int, x: seq<real>)
    requires forall c :: 0 <= c < |x| ==> e(r, c) == g(r, c)
    ensures Equation(e, r, x) == Equation(g, r, x)
  {
    SumCong(EquationF(e, r, x), EquationF(g, r, x), |x|);
  }

  lemma ReversedEquation(v: Vmat, i: int, x: seq<real>)
    requires VShape(v) && 0 <= i < |v.rows| == |x|
    ensures Equation(ListMatrix(v.cols, v.piv, Reversed(v.pcol), Reversed(v.qrow)), i, x) == VRow(v, i, x)
  {
    hide Equation;
    SameEquation(ListMatrix(v.cols, v.piv, Reversed(v.pcol), Reversed(v.qrow)), ListMatrix(v.cols, v.piv, v.pcol, v.qrow), i, x);
  }
}
