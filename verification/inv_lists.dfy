/** The matrix V of the factorization: row lists, column lists, separate pivots, and the permutations that make it
    upper triangular. */
module InvLists {
  import opened Collections
  import opened Sums
  import opened InvEta

  /** Row lists and column lists describe the same elements. */
  ghost predicate Agree(rows: seq<Sparse>, cols: seq<Sparse>) {
    && |rows| == |cols|
    && (forall i, c :: 0 <= i < |rows| && c in rows[i] ==> 0 <= c < |cols|)
    && (forall i, c :: 0 <= c < |cols| && i in cols[c] ==> 0 <= i < |rows|)
    && (forall i, c :: 0 <= i < |rows| && 0 <= c < |cols| ==> (c in rows[i] <==> i in cols[c]))
    && (forall i, c :: 0 <= i < |rows| && 0 <= c < |cols| && c in rows[i] ==> rows[i][c] == cols[c][i])
  }

  /** `at` lists the items by position, `pos` the positions by item. */
  ghost predicate Perm(at: seq<int>, pos: seq<int>) {
    && |at| == |pos|
    && (forall k :: 0 <= k < |at| ==> 0 <= at[k] < |pos| && pos[at[k]] == k)
    && (forall x :: 0 <= x < |pos| ==> 0 <= pos[x] < |at| && at[pos[x]] == x)
  }

  /** The listed elements lie strictly above the diagonal of U = P*V*Q. */
  ghost predicate Upper(rows: seq<Sparse>, rpos: seq<int>, cpos: seq<int>) {
    && |rows| == |rpos| == |cpos|
    && forall i, c :: 0 <= i < |rows| && 0 <= c < |cpos| && c in rows[i] ==> rpos[i] < cpos[c]
  }

  /** Element (i, c) of V. */
  function Ent(rows: seq<Sparse>, piv: seq<real>, rpos: seq<int>, cpos: seq<int>, i: int, c: int): real
    requires 0 <= i < |rows| == |piv| == |rpos| && 0 <= c < |cpos|
  {
    if rpos[i] == cpos[c] then piv[i] else At(rows[i], c)
  }

  datatype Vmat = Vmat(rows: seq<Sparse>, cols: seq<Sparse>, piv: seq<real>,
                       prow: seq<int>, pcol: seq<int>, qrow: seq<int>, qcol: seq<int>)

  /** prow/pcol and qcol/qrow are inverse permutations, the lists agree and are upper triangular, no pivot is zero. */
  ghost predicate VOk(v: Vmat) {
    && |v.rows| == |v.piv| == |v.pcol| == |v.qrow|
    && Perm(v.prow, v.pcol) && Perm(v.qcol, v.qrow)
    && Agree(v.rows, v.cols) && Upper(v.rows, v.pcol, v.qrow)
    && forall i :: 0 <= i < |v.piv| ==> v.piv[i] != 0.0
  }

  ghost predicate VShape(v: Vmat) {
    |v.rows| == |v.piv| == |v.pcol| == |v.qrow| == |v.prow| == |v.qcol| == |v.cols|
  }

  function VEnt(v: Vmat, i: int, c: int): real
    requires |v.rows| == |v.piv| == |v.pcol| && 0 <= i < |v.rows| && 0 <= c < |v.qrow|
  {
    Ent(v.rows, v.piv, v.pcol, v.qrow, i, c)
  }

  /** Column c of V. */
  ghost function VCol(v: Vmat, c: int): (x: seq<real>)
    requires |v.rows| == |v.piv| == |v.pcol| && 0 <= c < |v.qrow|
    ensures |x| == |v.rows| && forall i :: 0 <= i < |x| ==> x[i] == VEnt(v, i, c)
  {
    seq(|v.rows|, i requires 0 <= i < |v.rows| => VEnt(v, i, c))
  }

  function Dense(cc: Sparse, m: nat): (x: seq<real>)
    ensures |x| == m && forall i :: 0 <= i < m ==> x[i] == At(cc, i)
  {
    seq(m, (i: int) => At(cc, i))
  }

  // ----- replacing a column

  /** The lists after column j has been replaced by cc. */
  ghost predicate Replaced(rows: seq<Sparse>, cols: seq<Sparse>, j: int, cc: Sparse, rows': seq<Sparse>, cols': seq<Sparse>) {
    && |rows'| == |rows| && |cols'| == |cols| && 0 <= j < |cols|
    && cols' == cols[j := cc]
    && forall i :: 0 <= i < |rows| ==> rows'[i] == if i in cc then (rows[i] - {j})[j := cc[i]] else rows[i] - {j}
  }

  lemma ReplacedAgree(rows: seq<Sparse>, cols: seq<Sparse>, j: int, cc: Sparse, rows': seq<Sparse>, cols': seq<Sparse>)
    requires Agree(rows, cols) && Replaced(rows, cols, j, cc, rows', cols') && forall i :: i in cc ==> 0 <= i < |rows|
    ensures Agree(rows', cols')
  {
  }

  // ----- the cyclic shift of positions k1..k2

  function ShiftPos(k1: int, k2: int, k: int): int {
    if k == k1 then k2 else if k1 < k <= k2 then k - 1 else k
  }

  ghost predicate ShiftedPos(k1: int, k2: int, pos: seq<int>, pos': seq<int>) {
    |pos'| == |pos| && forall x :: 0 <= x < |pos| ==> pos'[x] == ShiftPos(k1, k2, pos[x])
  }

  /** Positions of the items while the loop runs: items at positions k1+1..k have moved up by one. */
  ghost predicate MovedPos(pos: seq<int>, k1: int, k: int, pos': seq<int>) {
    && |pos'| == |pos|
    && forall x :: 0 <= x < |pos| ==> pos'[x] == if k1 < pos[x] <= k then pos[x] - 1 else pos[x]
  }

  lemma MovedStep(at: seq<int>, pos: seq<int>, k1: int, k: int, pos': seq<int>, x: int)
    requires Perm(at, pos) && MovedPos(pos, k1, k, pos') && 0 <= k1 <= k < |at| - 1 && x == at[k + 1]
    ensures 0 <= x < |pos'| && MovedPos(pos, k1, k + 1, pos'[x := k])
  {
    assert pos[x] == k + 1;
    forall y | 0 <= y < |pos| && pos[y] == k + 1 ensures y == x {
      assert at[pos[y]] == y;
    }
  }

  lemma PermAt(at: seq<int>, pos: seq<int>, k: int)
    requires Perm(at, pos) && 0 <= k < |at|
    ensures 0 <= at[k] < |pos| && pos[at[k]] == k
  {
  }

  method ShiftPositions(at: array<int>, pos: array<int>, k1: int, k2: int)
    requires at != pos && at.Length == pos.Length && 0 <= k1 <= k2 < at.Length && Perm(at[..], pos[..])
    modifies at, pos
    ensures Perm(at[..], pos[..]) && ShiftedPos(k1, k2, old(pos[..]), pos[..]) && at[k2] == old(at[k1])
  {
    hide Perm, MovedPos;
    ghost var at0, pos0 := at[..], pos[..];
    MovedNone(pos0, k1);
    PermAt(at0, pos0, k1);
    var i := at[k1];
    var k := k1;
    while k < k2
      invariant k1 <= k <= k2 && i == at0[k1]
      invariant forall t :: k1 <= t < k ==> at[t] == at0[t + 1]
      invariant forall t :: 0 <= t < k1 || k <= t < at.Length ==> at[t] == at0[t]
      invariant MovedPos(pos0, k1, k, pos[..])
    {
      var x := at[k + 1];
      assert x == at0[k + 1];
      MovedStep(at0, pos0, k1, k, pos[..], x);
      at[k] := x;
      pos[x] := k;
      k := k + 1;
    }
    MovedDone(at0, pos0, k1, k2, pos[..], i);
    at[k2] := i;
    pos[i] := k2;
    ShiftIsPerm(at0, pos0, k1, k2, at[..], pos[..]);
  }

  lemma MovedNone(pos: seq<int>, k1: int)
    ensures MovedPos(pos, k1, k1, pos)
  {
  }

  lemma MovedDone(at: seq<int>, pos: seq<int>, k1: int, k2: int, pos': seq<int>, i: int)
    requires Perm(at, pos) && 0 <= k1 <= k2 < |at| && MovedPos(pos, k1, k2, pos') && i == at[k1]
    ensures 0 <= i < |pos'| && ShiftedPos(k1, k2, pos, pos'[i := k2])
  {
    forall y | 0 <= y < |pos| && pos[y] == k1 ensures y == i {
      assert at[pos[y]] == y;
    }
  }

  lemma ShiftIsPerm(at: seq<int>, pos: seq<int>, k1: int, k2: int, at': seq<int>, pos': seq<int>)
    requires Perm(at, pos) && 0 <= k1 <= k2 < |at| == |at'| && ShiftedPos(k1, k2, pos, pos')
    requires at'[k2] == at[k1] && forall t :: k1 <= t < k2 ==> at'[t] == at[t + 1]
    requires forall t :: 0 <= t < k1 || k2 < t < |at| ==> at'[t] == at[t]
    ensures Perm(at', pos')
  {
    forall t | 0 <= t < |at| ensures 0 <= at'[t] < |pos'| && pos'[at'[t]] == t {
      if k1 <= t < k2 {
        assert at'[t] == at[t + 1] && pos[at[t + 1]] == t + 1;
      } else if t == k2 {
        assert at'[t] == at[k1] && pos[at[k1]] == k1;
      } else {
        assert at'[t] == at[t] && pos[at[t]] == t;
      }
    }
    forall x | 0 <= x < |pos| ensures 0 <= pos'[x] < |at'| && at'[pos'[x]] == x {
      assert at[pos[x]] == x;
    }
  }

  /** After the shift every listed element outside row i is above the diagonal again: the elements that stayed because the
      shift keeps the order of all positions but k1, those of the new column because none is below row k2. */
  lemma ShiftedUpper(rows: seq<Sparse>, rows': seq<Sparse>, pcol: seq<int>, qrow: seq<int>, pcol': seq<int>, qrow': seq<int>,
                     j: int, cc: Sparse, k1: int, k2: int, p: int, c: int)
    requires Upper(rows, pcol, qrow) && |rows'| == |rows| && 0 <= p < |rows| && 0 <= c < |qrow| && 0 <= j < |qrow|
    requires rows'[p] == if p in cc then (rows[p] - {j})[j := cc[p]] else rows[p] - {j}
    requires ShiftedPos(k1, k2, pcol, pcol') && ShiftedPos(k1, k2, qrow, qrow')
    requires qrow[j] == k1 <= k2 && pcol[p] != k1 && c in rows'[p]
    requires c != j ==> qrow[c] != k1
    requires p in cc ==> pcol[p] <= k2
    ensures pcol'[p] < qrow'[c]
  {
  }
}
