/** The constraint matrix of the problem instance, kept up to date while rows and columns come, go and are renumbered. */
module IesMatrix {
  import opened Collections

  /** Constraint coefficients of the master set by row item and column item. */
  type Elems = map<(int, int), real>

  /** The matrix of the problem object by row and column position. */
  type Matrix = map<(int, int), real>

  /** Position of a row or column whose master item has been deleted. */
  const UNBOUND := -1

  predicate BoundOnce(s: seq<int>) {
    forall i, j :: 0 <= i < j < |s| && s[i] != UNBOUND ==> s[i] != s[j]
  }

  /** What load_matrix builds: the element at a position is the master element of the items bound there. */
  ghost predicate Loaded(e: Elems, rows: seq<int>, cols: seq<int>, mat: Matrix) {
    && (forall i, j :: (i, j) in mat ==> 0 <= i < |rows| && 0 <= j < |cols|)
    && forall i, j :: 0 <= i < |rows| && 0 <= j < |cols| ==> Cell(e, rows, cols, mat, i, j)
  }

  /** One position of the matrix is as in the master set; nothing is claimed where an item is gone. */
  ghost predicate Cell(e: Elems, rows: seq<int>, cols: seq<int>, mat: Matrix, i: int, j: int)
    requires 0 <= i < |rows| && 0 <= j < |cols|
  {
    rows[i] == UNBOUND || cols[j] == UNBOUND ||
    (&& ((i, j) in mat <==> (rows[i], cols[j]) in e)
     && ((i, j) in mat && (rows[i], cols[j]) in e ==> mat[(i, j)] == e[(rows[i], cols[j])]))
  }

  /** With all positions bound there is only one such matrix. */
  lemma LoadedOnce(e: Elems, rows: seq<int>, cols: seq<int>, mat: Matrix, other: Matrix)
    requires Loaded(e, rows, cols, mat) && Loaded(e, rows, cols, other) && UNBOUND !in rows && UNBOUND !in cols
    ensures mat == other
  {
    SameMatrix(e, rows, cols, mat, other);
    SameMatrix(e, rows, cols, other, mat);
    assert mat.Keys == other.Keys;
  }

  lemma SameMatrix(e: Elems, rows: seq<int>, cols: seq<int>, mat: Matrix, other: Matrix)
    requires Loaded(e, rows, cols, mat) && Loaded(e, rows, cols, other) && UNBOUND !in rows && UNBOUND !in cols
    ensures forall k :: k in mat ==> k in other && other[k] == mat[k]
  {
    forall k | k in mat ensures k in other && other[k] == mat[k] {
      var (i, j) := k;
      assert rows[i] in rows && cols[j] in cols;
      assert Cell(e, rows, cols, mat, i, j) && Cell(e, rows, cols, other, i, j);
    }
  }

  // ----- deleting rows and columns

  /** The positions whose items stay, in order. */
  function Kept(s: seq<int>, keep: set<int>, k: nat): (r: seq<int>)
    requires k <= |s|
  {
    if k == 0 then [] else
      var r := Kept(s, keep, k - 1);
      if s[k - 1] in keep then r + [k - 1] else r
  }

  lemma {:induction false} KeptFacts(s: seq<int>, keep: set<int>, k: nat)
    requires k <= |s|
    ensures forall t :: 0 <= t < |Kept(s, keep, k)| ==> 0 <= Kept(s, keep, k)[t] < k && s[Kept(s, keep, k)[t]] in keep
    ensures forall t, u :: 0 <= t < u < |Kept(s, keep, k)| ==> Kept(s, keep, k)[t] < Kept(s, keep, k)[u]
    ensures forall i :: 0 <= i < k && s[i] in keep ==> i in Kept(s, keep, k)
  {
    if k > 0 {
      KeptFacts(s, keep, k - 1);
    }
  }

  /** What stays is listed once, and nothing else is listed. */
  lemma KeptList(s: seq<int>, keep: set<int>)
    requires BoundOnce(s) && UNBOUND !in keep
    ensures var r := Pick(s, Kept(s, keep, |s|)); BoundOnce(r) && forall x :: x in r <==> x in s && x in keep
  {
    var at := Kept(s, keep, |s|);
    var r := Pick(s, at);
    KeptFacts(s, keep, |s|);
    forall x | x in r ensures x in s && x in keep {
      var t :| 0 <= t < |r| && r[t] == x;
      assert s[at[t]] in s;
    }
    forall x | x in s && x in keep ensures x in r {
      var i :| 0 <= i < |s| && s[i] == x;
      var t :| 0 <= t < |at| && at[t] == i;
      assert r[t] == x;
    }
  }

  method KeptPositions(s: seq<int>, keep: set<int>) returns (r: seq<int>)
    ensures r == Kept(s, keep, |s|)
  {
    r := [];
    var k := 0;
    while k < |s|
      invariant 0 <= k <= |s| && r == Kept(s, keep, k)
    {
      if s[k] in keep {
        r := r + [k];
      }
      k := k + 1;
    }
  }

  function Pick(s: seq<int>, at: seq<int>): (r: seq<int>)
    ensures |r| == |at|
  {
    seq(|at|, (t: int) => if 0 <= t < |at| && 0 <= at[t] < |s| then s[at[t]] else UNBOUND)
  }

  /** lpx_del_items: rows and columns at the listed positions stay and are renumbered. */
  function Cut(mat: Matrix, ri: seq<int>, ci: seq<int>): Matrix {
    map i, j | 0 <= i < |ri| && 0 <= j < |ci| && (ri[i], ci[j]) in mat :: (i, j) := mat[(ri[i], ci[j])]
  }

  lemma CutAt(mat: Matrix, ri: seq<int>, ci: seq<int>, i: int, j: int)
    ensures (i, j) in Cut(mat, ri, ci) <==> 0 <= i < |ri| && 0 <= j < |ci| && (ri[i], ci[j]) in mat
    ensures (i, j) in Cut(mat, ri, ci) ==> Cut(mat, ri, ci)[(i, j)] == mat[(ri[i], ci[j])]
  {
  }

  lemma CutLoaded(e: Elems, rows: seq<int>, cols: seq<int>, mat: Matrix, ri: seq<int>, ci: seq<int>)
    requires Loaded(e, rows, cols, mat)
    requires (forall t :: 0 <= t < |ri| ==> 0 <= ri[t] < |rows|) && forall t :: 0 <= t < |ci| ==> 0 <= ci[t] < |cols|
    ensures Loaded(e, Pick(rows, ri), Pick(cols, ci), Cut(mat, ri, ci))
  {
    hide Cut;
    var R, C, M := Pick(rows, ri), Pick(cols, ci), Cut(mat, ri, ci);
    forall i, j | (i, j) in M ensures 0 <= i < |R| && 0 <= j < |C| {
      CutAt(mat, ri, ci, i, j);
    }
    forall i, j | 0 <= i < |R| && 0 <= j < |C| ensures Cell(e, R, C, M, i, j) {
      CutAt(mat, ri, ci, i, j);
      assert Cell(e, rows, cols, mat, ri[i], ci[j]);
    }
  }

  // ----- filling new rows and columns

  /** lpx_set_mat_row with the elements of row item x in the first n columns. */
  function SetRow(mat: Matrix, e: Elems, i: int, x: int, cols: seq<int>, n: nat): Matrix
    requires n <= |cols|
  {
    (map k | k in mat && k.0 != i :: mat[k]) + (map j | 0 <= j < n && (x, cols[j]) in e :: (i, j) := e[(x, cols[j])])
  }

  /** lpx_set_mat_col with the elements of column item x in all rows. */
  function SetCol(mat: Matrix, e: Elems, j: int, x: int, rows: seq<int>): Matrix {
    (map k | k in mat && k.1 != j :: mat[k]) + (map i | 0 <= i < |rows| && (rows[i], x) in e :: (i, j) := e[(rows[i], x)])
  }

  lemma SetRowAt(mat: Matrix, e: Elems, i: int, x: int, cols: seq<int>, n: nat, h: int, j: int)
    requires n <= |cols|
    ensures h != i ==> ((h, j) in SetRow(mat, e, i, x, cols, n) <==> (h, j) in mat)
    ensures h != i && (h, j) in mat ==> SetRow(mat, e, i, x, cols, n)[(h, j)] == mat[(h, j)]
    ensures h == i ==> ((h, j) in SetRow(mat, e, i, x, cols, n) <==> 0 <= j < n && (x, cols[j]) in e)
    ensures h == i && 0 <= j < n && (x, cols[j]) in e ==> SetRow(mat, e, i, x, cols, n)[(h, j)] == e[(x, cols[j])]
  {
    assert (h, j).0 == h;
  }

  lemma SetColAt(mat: Matrix, e: Elems, j: int, x: int, rows: seq<int>, i: int, h: int)
    ensures h != j ==> ((i, h) in SetCol(mat, e, j, x, rows) <==> (i, h) in mat)
    ensures h != j && (i, h) in mat ==> SetCol(mat, e, j, x, rows)[(i, h)] == mat[(i, h)]
    ensures h == j ==> ((i, h) in SetCol(mat, e, j, x, rows) <==> 0 <= i < |rows| && (rows[i], x) in e)
    ensures h == j && 0 <= i < |rows| && (rows[i], x) in e ==> SetCol(mat, e, j, x, rows)[(i, h)] == e[(rows[i], x)]
  {
    assert (i, h).1 == h;
  }

  /** Everything in the first m rows and n columns is loaded, nothing else is there yet. */
  ghost predicate LoadedPart(e: Elems, rows: seq<int>, cols: seq<int>, mat: Matrix, m: nat, n: nat) {
    && m <= |rows| && n <= |cols|
    && (forall i, j :: (i, j) in mat ==> 0 <= i < m && 0 <= j < n)
    && forall i, j :: 0 <= i < m && 0 <= j < n ==> Cell(e, rows, cols, mat, i, j)
  }

  lemma RowFilled(e: Elems, rows: seq<int>, cols: seq<int>, mat: Matrix, m: nat, n: nat)
    requires LoadedPart(e, rows, cols, mat, m, n) && m < |rows|
    ensures LoadedPart(e, rows, cols, SetRow(mat, e, m, rows[m], cols, n), m + 1, n)
  {
    hide SetRow;
    var M := SetRow(mat, e, m, rows[m], cols, n);
    forall i, j | (i, j) in M ensures 0 <= i < m + 1 && 0 <= j < n {
      SetRowAt(mat, e, m, rows[m], cols, n, i, j);
    }
    forall i, j | 0 <= i < m + 1 && 0 <= j < n ensures Cell(e, rows, cols, M, i, j) {
      SetRowAt(mat, e, m, rows[m], cols, n, i, j);
      if i < m {
        assert Cell(e, rows, cols, mat, i, j);
      }
    }
  }

  lemma ColFilled(e: Elems, rows: seq<int>, cols: seq<int>, mat: Matrix, n: nat)
    requires LoadedPart(e, rows, cols, mat, |rows|, n) && n < |cols|
    ensures LoadedPart(e, rows, cols, SetCol(mat, e, n, cols[n], rows), |rows|, n + 1)
  {
    hide SetCol;
    var M := SetCol(mat, e, n, cols[n], rows);
    forall i, j | (i, j) in M ensures 0 <= i < |rows| && 0 <= j < n + 1 {
      SetColAt(mat, e, n, cols[n], rows, i, j);
    }
    forall i, j | 0 <= i < |rows| && 0 <= j < n + 1 ensures Cell(e, rows, cols, M, i, j) {
      SetColAt(mat, e, n, cols[n], rows, i, j);
      if j < n {
        assert Cell(e, rows, cols, mat, i, j);
      }
    }
  }

  lemma PartStart(e: Elems, rows: seq<int>, cols: seq<int>, mat: Matrix, nr: seq<int>, nc: seq<int>)
    requires Loaded(e, rows, cols, mat)
    ensures LoadedPart(e, rows + nr, cols + nc, mat, |rows|, |cols|)
  {
    forall i, j | 0 <= i < |rows| && 0 <= j < |cols| ensures Cell(e, rows + nr, cols + nc, mat, i, j) {
      assert Cell(e, rows, cols, mat, i, j);
    }
  }

  lemma PartAll(e: Elems, rows: seq<int>, cols: seq<int>, mat: Matrix)
    requires LoadedPart(e, rows, cols, mat, |rows|, |cols|)
    ensures Loaded(e, rows, cols, mat)
  {
    hide Cell;
  }

  function Remaining(e: Elems, live: set<int>): Elems {
    map k | k in e && k.0 in live && k.1 in live :: e[k]
  }

  function Unbound(s: seq<int>, live: set<int>): (r: seq<int>)
    ensures |r| == |s|
  {
    seq(|s|, (i: int) => if 0 <= i < |s| && s[i] in live then s[i] else UNBOUND)
  }

  /** Deleting master items takes their coefficients away and unbinds their positions. */
  lemma UnboundLoaded(e: Elems, rows: seq<int>, cols: seq<int>, mat: Matrix, live: set<int>)
    requires Loaded(e, rows, cols, mat)
    ensures Loaded(Remaining(e, live), Unbound(rows, live), Unbound(cols, live), mat)
  {
    var f, R, C := Remaining(e, live), Unbound(rows, live), Unbound(cols, live);
    forall i, j | 0 <= i < |R| && 0 <= j < |C| ensures Cell(f, R, C, mat, i, j) {
      assert Cell(e, rows, cols, mat, i, j);
      assert (rows[i], cols[j]).0 == rows[i] && (rows[i], cols[j]).1 == cols[j];
    }
  }

  lemma UnboundFacts(s: seq<int>, live: set<int>)
    ensures BoundOnce(s) ==> BoundOnce(Unbound(s, live))
    ensures forall x :: x in Unbound(s, live) ==> x == UNBOUND || (x in s && x in live)
    ensures (forall x :: x in s ==> x in live) ==> Unbound(s, live) == s
  {
    var r := Unbound(s, live);
    forall x | x in r ensures x == UNBOUND || (x in s && x in live) {
      var i :| 0 <= i < |r| && r[i] == x;
      assert s[i] in s;
    }
    if forall x :: x in s ==> x in live {
      forall i | 0 <= i < |s| ensures r[i] == s[i] {
        assert s[i] in s;
      }
    }
  }

  /** A new master row or column that is bound nowhere does not matter. */
  lemma NewItemLoaded(e: Elems, f: Elems, rows: seq<int>, cols: seq<int>, mat: Matrix, x: int)
    requires Loaded(e, rows, cols, mat) && x !in rows && x !in cols
    requires forall i, j :: i != x && j != x ==> ((i, j) in f <==> (i, j) in e)
    requires forall i, j :: i != x && j != x && (i, j) in f && (i, j) in e ==> f[(i, j)] == e[(i, j)]
    ensures Loaded(f, rows, cols, mat)
  {
    forall i, j | 0 <= i < |rows| && 0 <= j < |cols| ensures Cell(f, rows, cols, mat, i, j) {
      assert Cell(e, rows, cols, mat, i, j);
      assert rows[i] in rows && cols[j] in cols;
    }
  }

  // ----- the instance

  const NRS_MAX := 200
  const NCS_MAX := 200

  class Instance {
    var rows: seq<int>
    var cols: seq<int>
    var mat: Matrix

    ghost predicate Valid(e: Elems)
      reads this
    {
      Loaded(e, rows, cols, mat)
    }

    /** An empty problem object. */
    constructor ()
      ensures Valid(map[]) && rows == [] && cols == [] && mat == map[]
    {
      rows, cols, mat := [], [], map[];
    }

    /** load_matrix */
    method LoadMatrix(e: Elems)
      modifies this`mat
      ensures Valid(e)
    {
      mat := map[];
      EmptyPart(e, rows, cols);
      FillRows(e, 0, |cols|);
      PartAll(e, rows, cols, mat);
    }

    /** Fill the rows from position m on, in the first n columns. */
    method FillRows(e: Elems, m: nat, n: nat)
      requires m <= |rows| && n <= |cols| && LoadedPart(e, rows, cols, mat, m, n)
      modifies this`mat
      ensures LoadedPart(e, rows, cols, mat, |rows|, n)
    {
      hide LoadedPart, SetRow;
      var i := m;
      while i < |rows|
        invariant m <= i <= |rows| && LoadedPart(e, rows, cols, mat, i, n)
      {
        RowFilled(e, rows, cols, mat, i, n);
        mat := SetRow(mat, e, i, rows[i], cols, n);
        i := i + 1;
      }
    }

    /** Fill the columns from position n on, in all rows. */
    method FillCols(e: Elems, n: nat)
      requires n <= |cols| && LoadedPart(e, rows, cols, mat, |rows|, n)
      modifies this`mat
      ensures LoadedPart(e, rows, cols, mat, |rows|, |cols|)
    {
      hide LoadedPart, SetCol;
      var j := n;
      while j < |cols|
        invariant n <= j <= |cols| && LoadedPart(e, rows, cols, mat, |rows|, j)
      {
        ColFilled(e, rows, cols, mat, j);
        mat := SetCol(mat, e, j, cols[j], rows);
        j := j + 1;
      }
    }

    /** The loops of ies_revive_node and ies_del_items that renumber what stays, together with lpx_del_items. */
    method Keep(e: Elems, keepRows: set<int>, keepCols: set<int>)
      requires Valid(e)
      modifies this
      ensures Valid(e)
      ensures rows == Pick(old(rows), Kept(old(rows), keepRows, |old(rows)|))
      ensures cols == Pick(old(cols), Kept(old(cols), keepCols, |old(cols)|))
    {
      hide Loaded, Cut, Pick;
      var ri := KeptPositions(rows, keepRows);
      var ci := KeptPositions(cols, keepCols);
      KeptFacts(rows, keepRows, |rows|);
      KeptFacts(cols, keepCols, |cols|);
      CutLoaded(e, rows, cols, mat, ri, ci);
      mat := Cut(mat, ri, ci);
      rows, cols := Pick(rows, ri), Pick(cols, ci);
    }

    /** Append rows and columns: new rows are filled without the new columns, then the new columns are filled, or the
        whole matrix is loaded from scratch when there are many of them. With one list empty this is ies_add_rows or
        ies_add_cols. */
    method Extend(e: Elems, nr: seq<int>, nc: seq<int>)
      requires Valid(e)
      modifies this
      ensures Valid(e) && rows == old(rows) + nr && cols == old(cols) + nc
    {
      hide Loaded, LoadedPart;
      var m, n := |rows|, |cols|;
      PartStart(e, rows, cols, mat, nr, nc);
      rows, cols := rows + nr, cols + nc;
      if |nr| <= NRS_MAX && |nc| <= NCS_MAX {
        FillRows(e, m, n);
        FillCols(e, n);
        PartAll(e, rows, cols, mat);
      } else {
        LoadMatrix(e);
      }
    }
  }

  lemma EmptyPart(e: Elems, rows: seq<int>, cols: seq<int>)
    ensures LoadedPart(e, rows, cols, map[], 0, |cols|)
  {
  }
}
