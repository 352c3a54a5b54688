/** The numeric phase of the Cholesky decomposition A = U'*U on a known pattern of U. */
module CholNumb {
  import opened Collections
  import opened Sums
  import opened CholSymb

  type Row = map<int, real>

  function At(r: Row, j: int): real {
    if j in r then r[j] else 0.0
  }

  predicate Sorted(s: seq<int>) {
    forall t, u :: 0 <= t < u < |s| ==> s[t] < s[u]
  }

  /** The pattern holds A and the diagonal and is closed under elimination: if row i has non-zeros in columns k and j,
      i < k < j, then row k has one in column j. Its row lists are sorted by column. */
  ghost predicate GoodPattern(a: seq<Row>, pat: seq<seq<int>>) {
    && |a| == |pat|
    && (forall i :: 0 <= i < |pat| ==> Sorted(pat[i]) && i in pat[i])
    && (forall i, j :: 0 <= i < |pat| && j in pat[i] ==> i <= j < |pat|)
    && (forall i, j :: 0 <= i < |pat| && j in a[i] ==> j in pat[i])
    && (forall i, k, j :: 0 <= i < k < j < |pat| && k in pat[i] && j in pat[i] ==> j in pat[k])
  }

  /** Term i of element (k, j) of the product U'*U. */
  function ProdF(u: seq<Row>, k: int, j: int): int -> real {
    (i: int) => if 0 <= i < |u| then Times(At(u[i], k), At(u[i], j)) else 0.0
  }

  /** Element (k, j) of U'*U from the rows 0..r-1 of U. */
  function Product(u: seq<Row>, k: int, j: int, r: nat): real {
    Sum(ProdF(u, k, j), r)
  }

  ghost predicate HasRow(u: Row, p: seq<int>) {
    forall j :: j in u <==> j in p
  }

  /** Row k of U'*U equals row k of A to the right of the diagonal, and on the diagonal unless the pivot was replaced. */
  ghost predicate RowDone(a: seq<Row>, u: seq<Row>, k: int, replaced: bool)
    requires 0 <= k < |a| == |u|
  {
    && (forall j :: k < j < |a| ==> Product(u, k, j, k + 1) == At(a[k], j))
    && (!replaced ==> Product(u, k, k, k + 1) == At(a[k], k))
  }

  /** The pivot is what elimination leaves on the diagonal, or a huge number exactly if that is below the threshold. */
  ghost predicate PivotOk(a: seq<Row>, u: seq<Row>, k: int, replaced: bool, threshold: real, huge: real)
    requires 0 <= k < |a| == |u|
  {
    var rest := At(a[k], k) - Product(u, k, k, k);
    (replaced <==> rest < threshold) && Product(u, k, k, k + 1) == Product(u, k, k, k) + if replaced then huge else rest
  }

  /** head[i]: the elements of row i in columns below k come before it, the others from it on. */
  predicate HeadOk(p: seq<int>, h: int, k: int) {
    && 0 <= h <= |p|
    && (forall t :: 0 <= t < h ==> p[t] < k)
    && (forall t :: h <= t < |p| ==> p[t] >= k)
  }

  /** The first element of the sublist of row i is u[i,k] whenever u[i,k] is a non-zero. */
  lemma HeadAt(p: seq<int>, h: int, k: int)
    requires Sorted(p) && HeadOk(p, h, k) && k in p
    ensures h < |p| && p[h] == k && HeadOk(p, h + 1, k + 1)
  {
    var t :| 0 <= t < |p| && p[t] == k;
  }

  lemma HeadSkip(p: seq<int>, h: int, k: int)
    requires HeadOk(p, h, k) && k !in p
    ensures HeadOk(p, h, k + 1)
  {
    forall t | h <= t < |p| ensures p[t] >= k + 1 {
      assert p[t] in p;
    }
  }

  // ----- the loops

  method LoadRow(r: Row, work: array<real>)
    requires (forall j :: j in r ==> 0 <= j < work.Length) && forall j :: 0 <= j < work.Length ==> work[j] == 0.0
    modifies work
    ensures forall j :: 0 <= j < work.Length ==> work[j] == At(r, j)
  {
    var todo := r.Keys;
    while todo != {}
      invariant todo <= r.Keys
      invariant forall j :: 0 <= j < work.Length ==> work[j] == if j in todo then 0.0 else At(r, j)
      decreases |todo|
    {
      Inhabited(todo);
      var j :| j in todo;
      work[j] := r[j];
      todo := todo - {j};
    }
  }

  /** Subtract f times the sublist of row u that starts at position h of its list p. */
  method SubtractTail(u: Row, p: seq<int>, h: nat, f: real, work: array<real>)
    requires h <= |p| && Sorted(p) && HasRow(u, p) && forall j :: j in p ==> 0 <= j < work.Length
    modifies work
    ensures forall j :: 0 <= j < work.Length ==>
              work[j] == old(work[j]) - if j in p[h..] then Times(f, At(u, j)) else 0.0
  {
    hide Times;
    var t := h;
    while t < |p|
      invariant h <= t <= |p|
      invariant forall j :: 0 <= j < work.Length ==>
                  work[j] == old(work[j]) - if j in p[h..t] then Times(f, At(u, j)) else 0.0
    {
      var j := p[t];
      assert j in p && p[h..t + 1] == p[h..t] + [j] && j !in p[h..t];
      work[j] := work[j] - Times(f, u[j]);
      t := t + 1;
    }
    assert p[h..t] == p[h..];
  }

  // ----- one row

  /** What is left of element (k, j) of A after the rows in `done` have been subtracted from row k. */
  function Rest(ak: Row, u: seq<Row>, k: nat, j: int, done: set<int>): real {
    At(ak, j) - SumPart(ProdF(u, k, j), k, done)
  }

  ghost predicate WorkIs(ak: Row, u: seq<Row>, k: nat, done: set<int>, work: seq<real>) {
    forall j :: 0 <= j < |work| ==> work[j] == if j < k then 0.0 else Rest(ak, u, k, j, done)
  }

  ghost predicate RowsHave(u: seq<Row>, pat: seq<seq<int>>, k: int) {
    |u| == |pat| && forall i :: 0 <= i < k && i < |pat| ==> HasRow(u[i], pat[i])
  }

  lemma ZeroTimes(x: real)
    ensures Times(x, 0.0) == 0.0 && Times(0.0, x) == 0.0
  {
  }

  lemma RestStart(ak: Row, u: seq<Row>, k: nat, j: int)
    ensures Rest(ak, u, k, j, {}) == At(ak, j)
  {
    hide ProdF;
    SumPartNone(ProdF(u, k, j), k);
  }

  lemma WorkStart(ak: Row, u: seq<Row>, k: nat, work: seq<real>)
    requires forall j :: 0 <= j < |work| ==> work[j] == At(ak, j)
    requires forall j :: j in ak ==> k <= j
    ensures WorkIs(ak, u, k, {}, work)
  {
    hide Rest;
    forall j | 0 <= j < |work| ensures work[j] == if j < k then 0.0 else Rest(ak, u, k, j, {}) {
      RestStart(ak, u, k, j);
    }
  }

  /** Subtracting the sublist of row i is subtracting term i of the product, in the columns from k on. */
  lemma RestStep(ak: Row, u: seq<Row>, p: seq<int>, k: nat, j: int, done: set<int>, i: int, h: nat)
    requires 0 <= i < k && i < |u| && i !in done && HasRow(u[i], p) && h <= |p| && HeadOk(p, h, k)
    requires k in u[i] && j >= k
    ensures Rest(ak, u, k, j, done + {i}) ==
            Rest(ak, u, k, j, done) - if j in p[h..] then Times(u[i][k], At(u[i], j)) else 0.0
  {
    SumPartStep(ProdF(u, k, j), k, done, i);
    if j !in p[h..] {
      TailHolds(p, h, k, j);
      ZeroTimes(u[i][k]);
    }
  }

  lemma TailHolds(p: seq<int>, h: nat, k: int, j: int)
    requires h <= |p| && HeadOk(p, h, k)
    ensures j in p[h..] <==> j in p && j >= k
  {
    if j in p && j >= k {
      var t :| 0 <= t < |p| && p[t] == j;
      assert p[h..][t - h] == j;
    }
    if j in p[h..] {
      var t :| 0 <= t < |p| - h && p[h..][t] == j;
      assert p[h + t] == j;
    }
  }

  lemma WorkStep(ak: Row, u: seq<Row>, p: seq<int>, k: nat, done: set<int>, i: int, h: nat, work: seq<real>, work': seq<real>)
    requires 0 <= i < k && i < |u| && i !in done && HasRow(u[i], p) && h <= |p| && HeadOk(p, h, k) && k in u[i]
    requires WorkIs(ak, u, k, done, work) && |work'| == |work|
    requires forall j :: 0 <= j < |work| ==> work'[j] == work[j] - if j in p[h..] then Times(u[i][k], At(u[i], j)) else 0.0
    ensures WorkIs(ak, u, k, done + {i}, work')
  {
    hide Rest, Times, At, HasRow;
    forall j | 0 <= j < |work| ensures work'[j] == if j < k then 0.0 else Rest(ak, u, k, j, done + {i}) {
      if j < k {
        TailHolds(p, h, k, j);
      } else {
        RestStep(ak, u, p, k, j, done, i, h);
      }
    }
  }

  /** Once every row with a non-zero in column k is subtracted, the rest is A minus the product so far. */
  lemma RestAll(ak: Row, u: seq<Row>, pat: seq<seq<int>>, k: nat, j: int, done: set<int>)
    requires RowsHave(u, pat, k) && k < |pat| && forall i :: 0 <= i < k && k in pat[i] ==> i in done
    ensures Rest(ak, u, k, j, done) == At(ak, j) - Product(u, k, j, k)
  {
    var f := ProdF(u, k, j);
    forall i | 0 <= i < k && i !in done ensures f(i) == 0.0 {
      ZeroTimes(At(u[i], j));
    }
    SumPartAll(f, k, done);
  }

  lemma Closed(a: seq<Row>, pat: seq<seq<int>>, i: int, k: int, j: int)
    requires GoodPattern(a, pat) && 0 <= i < k < j < |pat| && j !in pat[k]
    ensures k !in pat[i] || j !in pat[i]
  {
  }

  /** Outside the pattern of row k nothing is left: this is where the pattern must be closed. */
  lemma RestOutside(a: seq<Row>, u: seq<Row>, pat: seq<seq<int>>, k: nat, j: int)
    requires GoodPattern(a, pat) && RowsHave(u, pat, k) && k < j < |pat| && j !in pat[k]
    ensures At(a[k], j) - Product(u, k, j, k) == 0.0
  {
    var f := ProdF(u, k, j);
    forall i | 0 <= i < k ensures f(i) == 0.0 {
      Closed(a, pat, i, k, j);
      ZeroTimes(At(u[i], j));
      ZeroTimes(At(u[i], k));
    }
    SumZero(f, k);
  }

  /** The loop over the non-zeros of column k above the diagonal. */
  method EliminateColumn(ghost ak: Row, pat: seq<seq<int>>, U: array<Row>, k: nat, column: set<int>, head: array<int>,
                         work: array<real>)
    requires k < |pat| == U.Length == head.Length == work.Length && RowsHave(U[..], pat, k)
    requires forall i :: 0 <= i < k ==> Sorted(pat[i]) && forall j :: j in pat[i] ==> 0 <= j < |pat|
    requires forall i :: i in column ==> 0 <= i < k && k in pat[i]
    requires forall i :: 0 <= i < k ==> HeadOk(pat[i], head[i], k)
    requires WorkIs(ak, U[..], k, {}, work[..])
    modifies head, work
    ensures WorkIs(ak, U[..], k, column, work[..])
    ensures forall i :: 0 <= i < k ==> HeadOk(pat[i], head[i], if i in column then k + 1 else k)
  {
    hide HeadOk, WorkIs, Sorted, RowsHave, HasRow;
    ghost var u := U[..];
    var todo := column;
    assert column - todo == {};
    while todo != {}
      invariant todo <= column && WorkIs(ak, u, k, column - todo, work[..])
      invariant forall i :: 0 <= i < k ==> HeadOk(pat[i], head[i], if i in column - todo then k + 1 else k)
      decreases |todo|
    {
      Inhabited(todo);
      var i :| i in todo;
      HasAt(u, pat, k, i, k);
      head[i] := SubtractRow(ak, u, U[i], pat[i], k, i, column - todo, head[i], work);
      assert column - todo + {i} == column - (todo - {i});
      todo := todo - {i};
    }
    assert column - {} == column;
  }

  /** Row k of the rest: work holds row k of A minus the product of the rows above. */
  method EliminateRow(a: seq<Row>, pat: seq<seq<int>>, U: array<Row>, k: nat, head: array<int>, work: array<real>)
    requires k < |a| == |pat| == U.Length == head.Length == work.Length && GoodPattern(a, pat) && RowsHave(U[..], pat, k)
    requires forall i :: 0 <= i < k ==> HeadOk(pat[i], head[i], k)
    requires forall j :: 0 <= j < work.Length ==> work[j] == 0.0
    modifies head, work
    ensures forall i :: 0 <= i < k ==> HeadOk(pat[i], head[i], k + 1)
    ensures forall j :: 0 <= j < work.Length ==>
              work[j] == if j < k then 0.0 else At(a[k], j) - Product(U[..], k, j, k)
  {
    hide HeadOk, WorkIs, Product, Sorted, GoodPattern, RowsHave, At;
    RowOfA(a, pat, k);
    LoadRow(a[k], work);
    WorkStart(a[k], U[..], k, work[..]);
    forall i | 0 <= i < k ensures Sorted(pat[i]) && forall j :: j in pat[i] ==> 0 <= j < |pat| {
      RowInRange(a, pat, i);
    }
    var column := set i | 0 <= i < k && k in pat[i];
    EliminateColumn(a[k], pat, U, k, column, head, work);
    HeadsNext(pat, head[..], k, column);
    WorkAll(a[k], U[..], pat, k, column, work[..]);
  }

  lemma HeadsNext(pat: seq<seq<int>>, head: seq<int>, k: nat, column: set<int>)
    requires k <= |pat| == |head| && forall i :: 0 <= i < k ==> HeadOk(pat[i], head[i], if i in column then k + 1 else k)
    requires forall i :: 0 <= i < k && k in pat[i] ==> i in column
    ensures forall i :: 0 <= i < k ==> HeadOk(pat[i], head[i], k + 1)
  {
    hide HeadOk;
    forall i | 0 <= i < k ensures HeadOk(pat[i], head[i], k + 1) {
      if i !in column {
        HeadSkip(pat[i], head[i], k);
      }
    }
  }

  /** work := work - f * (i-th row of U), and u[i,k] leaves the sublist of row i. */
  method SubtractRow(ghost ak: Row, ghost u: seq<Row>, ui: Row, p: seq<int>, k: nat, i: int, ghost done: set<int>, h: int,
                     work: array<real>) returns (h': int)
    requires 0 <= i < k && i < |u| && ui == u[i] && i !in done && HasRow(ui, p) && Sorted(p) && k in p && HeadOk(p, h, k)
    requires WorkIs(ak, u, k, done, work[..]) && forall j :: j in p ==> 0 <= j < work.Length
    modifies work
    ensures WorkIs(ak, u, k, done + {i}, work[..]) && HeadOk(p, h', k + 1)
  {
    hide HeadOk, WorkIs, Times, Sorted, At;
    HeadIn(p, h, k);
    HeadAt(p, h, k);
    ghost var before := work[..];
    SubtractTail(ui, p, h, ui[k], work);
    WorkStep(ak, u, p, k, done, i, h, before, work[..]);
    h' := h + 1;
  }

  lemma WorkAll(ak: Row, u: seq<Row>, pat: seq<seq<int>>, k: nat, done: set<int>, work: seq<real>)
    requires RowsHave(u, pat, k) && k < |pat| && (forall i :: 0 <= i < k && k in pat[i] ==> i in done)
    requires WorkIs(ak, u, k, done, work)
    ensures forall j :: 0 <= j < |work| ==> work[j] == if j < k then 0.0 else At(ak, j) - Product(u, k, j, k)
  {
    hide Rest, Product;
    forall j | 0 <= j < |work| ensures work[j] == if j < k then 0.0 else At(ak, j) - Product(u, k, j, k) {
      RestAll(ak, u, pat, k, j, done);
    }
  }

  lemma RowOfA(a: seq<Row>, pat: seq<seq<int>>, k: nat)
    requires GoodPattern(a, pat) && k < |pat|
    ensures forall j :: j in a[k] ==> k <= j < |pat|
  {
  }

  lemma RowInRange(a: seq<Row>, pat: seq<seq<int>>, i: int)
    requires GoodPattern(a, pat) && 0 <= i < |pat|
    ensures Sorted(pat[i]) && forall j :: j in pat[i] ==> 0 <= j < |pat|
  {
  }

  lemma HasAt(u: seq<Row>, pat: seq<seq<int>>, k: nat, i: int, j: int)
    requires RowsHave(u, pat, k) && 0 <= i < k <= |pat|
    ensures HasRow(u[i], pat[i]) && (j in pat[i] ==> j in u[i])
  {
  }

  lemma HeadIn(p: seq<int>, h: int, k: int)
    requires HeadOk(p, h, k)
    ensures 0 <= h <= |p|
  {
  }

  // ----- normalization of row k

  function Quotient(x: real, y: real): real
    requires y != 0.0
  {
    x / y
  }

  /** Row k of U: the rest divided by the square root of the pivot. */
  predicate Normalized(row: Row, p: seq<int>, w: seq<real>, s: real)
    requires s != 0.0 && forall j :: j in p ==> 0 <= j < |w|
  {
    row == Divided(p, w, s)
  }

  function Divided(p: seq<int>, w: seq<real>, s: real): Row
    requires s != 0.0 && forall j :: j in p ==> 0 <= j < |w|
  {
    map j | j in p :: Quotient(w[j], s)
  }

  lemma DividedStep(p: seq<int>, j: int, w: seq<real>, s: real)
    requires s != 0.0 && 0 <= j < |w| && forall i :: i in p ==> 0 <= i < |w|
    ensures Divided(p + [j], w, s) == Divided(p, w, s)[j := Quotient(w[j], s)]
  {
    hide Quotient;
  }

  lemma DividedNone(p: seq<int>, w: seq<real>, s: real)
    requires s != 0.0 && p == []
    ensures Divided(p, w, s) == map[]
  {
  }

  method Normalize(p: seq<int>, s: real, work: array<real>) returns (row: Row)
    requires s != 0.0 && Sorted(p) && forall j :: j in p ==> 0 <= j < work.Length
    modifies work
    ensures Normalized(row, p, old(work[..]), s)
    ensures forall j :: 0 <= j < work.Length ==> work[j] == if j in p then 0.0 else old(work[j])
  {
    hide Quotient, Divided;
    row := map[];
    ghost var w := work[..];
    assert Divided(p[..0], w, s) == map[] by {
      DividedNone(p[..0], w, s);
    }
    var t := 0;
    while t < |p|
      invariant 0 <= t <= |p|
      invariant (forall j :: j in p[..t] ==> j in p) && row == Divided(p[..t], w, s)
      invariant forall j :: 0 <= j < work.Length ==> work[j] == if j in p[..t] then 0.0 else old(work[j])
    {
      var j := p[t];
      assert j in p && p[..t + 1] == p[..t] + [j] && j !in p[..t];
      DividedStep(p[..t], j, w, s);
      row := row[j := Quotient(work[j], s)];
      work[j] := 0.0;
      t := t + 1;
    }
    assert p[..t] == p;
  }

  /** u[k,k] * u[k,j] is what was left of a[k,j]. */
  lemma PivotTimes(w: real, x: real, s: real)
    requires s * s == w && s != 0.0
    ensures Times(Quotient(w, s), Quotient(x, s)) == x
  {
    RootOver(w, s);
    assert s * (x / s) == x;
  }

  lemma RootOver(w: real, s: real)
    requires s * s == w && s != 0.0
    ensures w / s == s
  {
    assert s * (w / s) == w;
    assert s * (w / s - s) == 0.0;
  }

  lemma ProductLast(u: seq<Row>, k: nat, j: int)
    requires k < |u|
    ensures Product(u, k, j, k + 1) == Product(u, k, j, k) + Times(At(u[k], k), At(u[k], j))
  {
  }

  /** The product over rows 0..r-1 does not depend on the other rows. */
  lemma ProductFrame(u: seq<Row>, v: seq<Row>, k: int, j: int, r: nat)
    requires |u| == |v| && r <= |u| && forall i :: 0 <= i < r ==> u[i] == v[i]
    ensures Product(u, k, j, r) == Product(v, k, j, r)
  {
    SumCong(ProdF(u, k, j), ProdF(v, k, j), r);
  }

  lemma RowDoneFrame(a: seq<Row>, u: seq<Row>, v: seq<Row>, k: nat, replaced: bool)
    requires k < |a| == |u| == |v| && (forall i :: 0 <= i <= k ==> u[i] == v[i]) && RowDone(a, u, k, replaced)
    ensures RowDone(a, v, k, replaced)
  {
    hide Product;
    var r := k + 1;
    forall j | k <= j < |a| ensures Product(u, k, j, r) == Product(v, k, j, r) {
      ProductFrame(u, v, k, j, r);
    }
  }

  lemma NormalizedAt(row: Row, p: seq<int>, w: seq<real>, s: real, j: int)
    requires s != 0.0 && (forall j :: j in p ==> 0 <= j < |w|) && Normalized(row, p, w, s)
    ensures j in p ==> j in row && At(row, j) == Quotient(w[j], s)
    ensures j !in p ==> At(row, j) == 0.0
  {
  }

  /** One element of row k of U'*U. */
  lemma RowElement(a: seq<Row>, pat: seq<seq<int>>, u: seq<Row>, k: nat, row: Row, w: seq<real>, s: real, j: int)
    requires GoodPattern(a, pat) && RowsHave(u, pat, k) && k < |pat| == |a| == |w| == |u| && k in pat[k]
    requires forall j :: j in pat[k] ==> 0 <= j < |w|
    requires s != 0.0 && s * s == w[k] && Normalized(row, pat[k], w, s) && k <= j < |pat|
    requires j > k ==> w[j] == At(a[k], j) - Product(u, k, j, k)
    ensures Product(u[k := row], k, j, k + 1) == Product(u, k, j, k) + w[j]
    ensures j > k ==> Product(u[k := row], k, j, k + 1) == At(a[k], j)
  {
    hide Product, Times, Quotient, At, Normalized, GoodPattern;
    var v := u[k := row];
    ProductLast(v, k, j);
    ProductFrame(u, v, k, j, k);
    NormalizedAt(row, pat[k], w, s, k);
    NormalizedAt(row, pat[k], w, s, j);
    PivotTimes(w[k], w[j], s);
    ZeroTimes(At(row, k));
    if j !in pat[k] {
      RestOutside(a, u, pat, k, j);
    }
  }

  lemma RowIsDone(a: seq<Row>, pat: seq<seq<int>>, u: seq<Row>, k: nat, row: Row, w: seq<real>, s: real, replaced: bool)
    requires GoodPattern(a, pat) && RowsHave(u, pat, k) && k < |pat| == |a| == |w| == |u| && k in pat[k]
    requires forall j :: j in pat[k] ==> 0 <= j < |w|
    requires s != 0.0 && s * s == w[k] && Normalized(row, pat[k], w, s)
    requires forall j :: k < j < |pat| ==> w[j] == At(a[k], j) - Product(u, k, j, k)
    requires !replaced ==> w[k] == At(a[k], k) - Product(u, k, k, k)
    ensures RowDone(a, u[k := row], k, replaced)
  {
    hide Product, At, Normalized, GoodPattern, RowsHave;
    forall j | k < j < |a| ensures Product(u[k := row], k, j, k + 1) == At(a[k], j) {
      RowElement(a, pat, u, k, row, w, s, j);
    }
    RowElement(a, pat, u, k, row, w, s, k);
  }

  lemma PivotIs(a: seq<Row>, pat: seq<seq<int>>, u: seq<Row>, k: nat, row: Row, w: seq<real>, s: real, replaced: bool, threshold: real, huge: real)
    requires GoodPattern(a, pat) && RowsHave(u, pat, k) && k < |pat| == |a| == |w| == |u| && k in pat[k]
    requires forall j :: j in pat[k] ==> 0 <= j < |w|
    requires s != 0.0 && s * s == w[k] && Normalized(row, pat[k], w, s)
    requires replaced <==> At(a[k], k) - Product(u, k, k, k) < threshold
    requires w[k] == if replaced then huge else At(a[k], k) - Product(u, k, k, k)
    ensures PivotOk(a, u[k := row], k, replaced, threshold, huge)
  {
    hide Product, At, Normalized, GoodPattern, RowsHave;
    RowElement(a, pat, u, k, row, w, s, k);
    ProductFrame(u, u[k := row], k, k, k);
  }

  lemma PivotFrame(a: seq<Row>, u: seq<Row>, v: seq<Row>, k: nat, replaced: bool, threshold: real, huge: real)
    requires k < |a| == |u| == |v| && (forall i :: 0 <= i <= k ==> u[i] == v[i]) && PivotOk(a, u, k, replaced, threshold, huge)
    ensures PivotOk(a, v, k, replaced, threshold, huge)
  {
    hide Product;
    ProductFrame(u, v, k, k, k);
    ProductFrame(u, v, k, k, k + 1);
  }

  // ----- the routine

  /** The largest absolute value of the first k diagonal elements, or eps if that is larger. */
  function Largest(a: seq<Row>, eps: real, k: nat): real
    requires k <= |a|
  {
    if k == 0 then eps else
      var big, d := Largest(a, eps, k - 1), At(a[k - 1], k - 1);
      var v := if d < 0.0 then -d else d;
      if big < v then v else big
  }

  /** Pivots below this are replaced. */
  function Threshold(a: seq<Row>, eps: real): real {
    Lowest(eps, Largest(a, eps, |a|))
  }

  function Lowest(eps: real, big: real): real {
    eps * eps * big
  }

  method LargestDiagonal(a: seq<Row>, eps: real) returns (big: real)
    requires eps > 0.0
    ensures big == Largest(a, eps, |a|)
    ensures big >= eps && forall i :: 0 <= i < |a| && i in a[i] ==> -big <= a[i][i] <= big
    ensures big == eps || exists i :: 0 <= i < |a| && i in a[i] && (a[i][i] == big || a[i][i] == -big)
  {
    big := eps;
    var i := 0;
    while i < |a|
      invariant 0 <= i <= |a| && big >= eps && big == Largest(a, eps, i)
      invariant forall h :: 0 <= h < i && h in a[h] ==> -big <= a[h][h] <= big
      invariant big == eps || exists h :: 0 <= h < |a| && h in a[h] && (a[h][h] == big || a[h][h] == -big)
    {
      if i in a[i] {
        var d := if a[i][i] < 0.0 then -a[i][i] else a[i][i];
        if big < d {
          big := d;
        }
      }
      i := i + 1;
    }
  }

  ghost predicate SquareRoot(root: real -> real) {
    forall v :: v > 0.0 ==> root(v) * root(v) == v
  }

  lemma RootAt(root: real -> real, v: real)
    requires SquareRoot(root) && v > 0.0
    ensures root(v) * root(v) == v && root(v) != 0.0
  {
  }

  lemma LowestPositive(eps: real, big: real)
    requires 0.0 < eps <= big
    ensures Lowest(eps, big) > 0.0
  {
    assert eps * eps > 0.0;
  }

  /** The greatest absolute value on the diagonal, or eps if that is greater. */
  ghost predicate GreatestDiagonal(a: seq<Row>, eps: real, big: real) {
    && big >= eps && (forall i :: 0 <= i < |a| ==> -big <= At(a[i], i) <= big)
    && (big == eps || exists i :: 0 <= i < |a| && (At(a[i], i) == big || At(a[i], i) == -big))
  }

  /** Pivots are too small below eps * eps times that. */
  ghost predicate IsThreshold(a: seq<Row>, eps: real, t: real) {
    exists big :: GreatestDiagonal(a, eps, big) && t == eps * eps * big
  }

  lemma {:induction false} LargestIs(a: seq<Row>, eps: real, k: nat)
    requires k <= |a| && eps > 0.0
    ensures GreatestDiagonal(a[..k], eps, Largest(a, eps, k))
  {
    if k != 0 {
      LargestIs(a, eps, k - 1);
      var big, c := Largest(a, eps, k - 1), Largest(a, eps, k);
      assert forall i :: 0 <= i < k - 1 ==> a[..k][i] == a[..k - 1][i];
      assert a[..k][k - 1] == a[k - 1];
      if c == big && big != eps {
        var i :| 0 <= i < k - 1 && (At(a[..k - 1][i], i) == big || At(a[..k - 1][i], i) == -big);
        assert At(a[..k][i], i) == c || At(a[..k][i], i) == -c;
      } else if c != big {
        assert At(a[..k][k - 1], k - 1) == c || At(a[..k][k - 1], k - 1) == -c;
      }
    }
  }

  lemma ThresholdIs(a: seq<Row>, eps: real)
    requires eps > 0.0
    ensures IsThreshold(a, eps, Threshold(a, eps))
  {
    hide Largest, GreatestDiagonal;
    LargestIs(a, eps, |a|);
    assert a[..|a|] == a;
  }

  lemma ThresholdPositive(a: seq<Row>, eps: real)
    requires eps > 0.0
    ensures Threshold(a, eps) > 0.0
  {
    LargestAtLeast(a, eps, |a|);
    LowestPositive(eps, Largest(a, eps, |a|));
  }

  lemma {:induction false} LargestAtLeast(a: seq<Row>, eps: real, k: nat)
    requires k <= |a|
    ensures Largest(a, eps, k) >= eps
  {
    if k != 0 {
      LargestAtLeast(a, eps, k - 1);
    }
  }

  lemma RowsExtend(u: seq<Row>, pat: seq<seq<int>>, k: nat, row: Row, w: seq<real>, s: real)
    requires k < |pat| && RowsHave(u, pat, k) && s != 0.0 && (forall j :: j in pat[k] ==> 0 <= j < |w|)
    requires Normalized(row, pat[k], w, s)
    ensures RowsHave(u[k := row], pat, k + 1)
  {
  }

  /** The row list starts with the diagonal element; the sublist of row k starts behind it. */
  lemma StartsAtDiagonal(a: seq<Row>, pat: seq<seq<int>>, k: nat)
    requires GoodPattern(a, pat) && k < |pat|
    ensures k in pat[k] && pat[k] != [] && pat[k][0] == k && HeadOk(pat[k], 1, k + 1)
  {
    var p := pat[k];
    assert k in p;
    var t :| 0 <= t < |p| && p[t] == k;
    assert p[0] in p;
  }

  lemma NothingLeft(a: seq<Row>, pat: seq<seq<int>>, u: seq<Row>, k: nat, w: seq<real>)
    requires GoodPattern(a, pat) && RowsHave(u, pat, k) && k < |pat| == |w| && |a| == |pat| && k in pat[k]
    requires forall j :: 0 <= j < |w| && j != k ==> w[j] == if j < k then 0.0 else At(a[k], j) - Product(u, k, j, k)
    ensures forall j :: 0 <= j < |w| && j !in pat[k] ==> w[j] == 0.0
  {
    hide Product, At, GoodPattern, RowsHave;
    forall j | 0 <= j < |w| && j !in pat[k] ensures w[j] == 0.0 {
      if j > k {
        RestOutside(a, u, pat, k, j);
      }
    }
  }

  /** One pass of the main loop; work is zero again afterwards. */
  method FactorRow(a: seq<Row>, pat: seq<seq<int>>, U: array<Row>, k: nat, head: array<int>, work: array<real>,
                   root: real -> real, threshold: real, huge: real) returns (replaced: bool)
    requires k < |a| == |pat| == U.Length == head.Length == work.Length && GoodPattern(a, pat) && RowsHave(U[..], pat, k)
    requires forall i :: 0 <= i < k ==> HeadOk(pat[i], head[i], k)
    requires forall j :: 0 <= j < work.Length ==> work[j] == 0.0
    requires SquareRoot(root) && threshold > 0.0 && huge > 0.0
    modifies U, head, work
    ensures RowsHave(U[..], pat, k + 1) && RowDone(a, U[..], k, replaced)
    ensures forall i :: 0 <= i < U.Length && i != k ==> U[i] == old(U[i])
    ensures forall i :: 0 <= i <= k ==> HeadOk(pat[i], head[i], k + 1)
    ensures forall j :: 0 <= j < work.Length ==> work[j] == 0.0
    ensures PivotOk(a, U[..], k, replaced, threshold, huge)
  {
    hide GoodPattern, RowsHave, HeadOk, Product, At, Normalized, RowDone, PivotOk, SquareRoot;
    ghost var u := U[..];
    EliminateRow(a, pat, U, k, head, work);
    replaced := work[k] < threshold;
    if replaced {
      work[k] := huge;
    }
    var s := root(work[k]);
    RootAt(root, work[k]);
    ghost var w := work[..];
    StartsAtDiagonal(a, pat, k);
    RowInRange(a, pat, k);
    NothingLeft(a, pat, u, k, w);
    var row := Normalize(pat[k], s, work);
    RowIsDone(a, pat, u, k, row, w, s, replaced);
    PivotIs(a, pat, u, k, row, w, s, replaced, threshold, huge);
    RowsExtend(u, pat, k, row, w, s);
    U[k] := row;
    assert U[..] == u[k := row];
    head[k] := 1;
  }

  /** chol_numb. Off the diagonal U'*U equals A in any case; on the diagonal it does wherever the pivot was not replaced,
      and the returned number counts the replaced pivots. */
  method Numb(a: seq<Row>, pat: seq<seq<int>>, root: real -> real, eps: real, huge: real)
    returns (ret: nat, bad: set<int>, U: array<Row>)
    requires GoodPattern(a, pat) && SquareRoot(root) && eps > 0.0 && huge > 0.0
    ensures U.Length == |a| == |pat| && RowsHave(U[..], pat, |pat|)
    ensures forall k :: 0 <= k < |a| ==> RowDone(a, U[..], k, k in bad)
    ensures ret == |bad| && forall k :: k in bad ==> 0 <= k < |a|
    ensures forall k :: 0 <= k < |a| ==> PivotOk(a, U[..], k, k in bad, Threshold(a, eps), huge)
    ensures IsThreshold(a, eps, Threshold(a, eps))
  {
    hide GoodPattern, RowsHave, HeadOk, Product, At, Normalized, RowDone, PivotOk, SquareRoot, Lowest, Largest, IsThreshold;
    ThresholdIs(a, eps);
    var n := |pat|;
    SameOrder(a, pat);
    U := new Row[n](_ => map[]);
    var head, work := new int[n](_ => 0), new real[n](_ => 0.0);
    var big := LargestDiagonal(a, eps);
    LowestPositive(eps, big);
    var least := Lowest(eps, big);
    ghost var threshold := Threshold(a, eps);
    ret, bad := 0, {};
    NoRows(U[..], pat);
    var k := 0;
    while k < n
      invariant 0 <= k <= n && RowsHave(U[..], pat, k)
      invariant forall i :: 0 <= i < k ==> RowDone(a, U[..], i, i in bad)
      invariant forall i :: 0 <= i < k ==> PivotOk(a, U[..], i, i in bad, threshold, huge)
      invariant forall i :: 0 <= i < k ==> HeadOk(pat[i], head[i], k)
      invariant forall j :: 0 <= j < n ==> work[j] == 0.0
      invariant ret == |bad| && forall i :: i in bad ==> 0 <= i < k
    {
      ghost var u := U[..];
      var replaced := FactorRow(a, pat, U, k, head, work, root, least, huge);
      forall i | 0 <= i < k ensures RowDone(a, U[..], i, i in bad) {
        RowDoneFrame(a, u, U[..], i, i in bad);
      }
      forall i | 0 <= i < k ensures PivotOk(a, U[..], i, i in bad, threshold, huge) {
        PivotFrame(a, u, U[..], i, i in bad, threshold, huge);
      }
      if replaced {
        ret, bad := ret + 1, bad + {k};
      }
      k := k + 1;
    }
  }

  lemma SameOrder(a: seq<Row>, pat: seq<seq<int>>)
    requires GoodPattern(a, pat)
    ensures |a| == |pat|
  {
  }

  lemma NoRows(u: seq<Row>, pat: seq<seq<int>>)
    requires |u| == |pat|
    ensures RowsHave(u, pat, 0)
  {
  }

  // ----- what the two phases give together

  /** The pattern of full symbolic elimination, sorted, is a good pattern for every matrix with non-zeros inside the
      pattern that was eliminated. */
  lemma FilledIsGood(a: seq<Row>, p: seq<seq<int>>, pat: seq<seq<int>>)
    requires |a| == |p| == |pat| && forall i, j :: 0 <= i < |a| && j in a[i] ==> i <= j < |a| && j in p[i]
    requires forall k :: 0 <= k < |pat| ==> Sorted(pat[k])
    requires forall k, j :: 0 <= k < |pat| ==> (j in pat[k] <==> Filled(p, k, j))
    ensures GoodPattern(a, pat)
  {
    forall i, k, j | 0 <= i < k < j < |pat| && k in pat[i] && j in pat[i] ensures j in pat[k] {
      FilledStep(p, i, k, j);
    }
    hide Filled;
    forall i | 0 <= i < |pat| ensures i in pat[i] {
      FilledOrigin(p, i, i);
    }
    forall i, j | 0 <= i < |pat| && j in pat[i] ensures i <= j < |pat| {
      FilledBounds(p);
    }
    forall i, j | 0 <= i < |pat| && j in a[i] ensures j in pat[i] {
      FilledOrigin(p, i, j);
    }
  }

  lemma FilledStep(p: seq<seq<int>>, i: int, k: int, j: int)
    requires 0 <= i < k < j && Filled(p, i, k) && Filled(p, i, j)
    ensures Filled(p, k, j)
  {
  }

  lemma FilledOrigin(p: seq<seq<int>>, k: int, j: int)
    requires 0 <= k < |p| && k <= j < |p| && (j in p[k] || j == k)
    ensures Filled(p, k, j)
  {
  }

  /** Element (k, j) of the symmetric matrix whose upper triangle is a. */
  function Symmetric(a: seq<Row>, k: int, j: int): real
    requires 0 <= k < |a| && 0 <= j < |a|
  {
    if k <= j then At(a[k], j) else At(a[j], k)
  }

  lemma ProductSwap(u: seq<Row>, k: int, j: int, r: nat)
    ensures Product(u, k, j, r) == Product(u, j, k, r)
  {
    forall i | 0 <= i < r ensures ProdF(u, k, j)(i) == ProdF(u, j, k)(i) {
    }
    SumCong(ProdF(u, k, j), ProdF(u, j, k), r);
  }

  /** Rows below k have no element in column k. */
  lemma {:induction false} ProductTail(u: seq<Row>, pat: seq<seq<int>>, k: nat, j: int, r: nat)
    requires RowsHave(u, pat, |pat|) && k < r <= |pat| && forall i, c :: 0 <= i < |pat| && c in pat[i] ==> i <= c
    ensures Product(u, k, j, r) == Product(u, k, j, k + 1)
  {
    if r > k + 1 {
      ProductTail(u, pat, k, j, r - 1);
      assert HasRow(u[r - 1], pat[r - 1]);
      assert k !in pat[r - 1];
      ZeroTimes(At(u[r - 1], j));
    }
  }

  /** With no pivot replaced, U'*U is the symmetric matrix A, element by element. */
  lemma Factors(a: seq<Row>, pat: seq<seq<int>>, u: seq<Row>, k: int, j: int)
    requires GoodPattern(a, pat) && RowsHave(u, pat, |pat|) && |u| == |a|
    requires forall i :: 0 <= i < |a| ==> RowDone(a, u, i, false)
    requires 0 <= k < |a| && 0 <= j < |a|
    ensures Product(u, k, j, |u|) == Symmetric(a, k, j)
  {
    hide RowsHave, Product, At;
    var lo, hi := if k <= j then k else j, if k <= j then j else k;
    ProductTail(u, pat, lo, hi, |u|);
    ProductSwap(u, k, j, |u|);
    assert RowDone(a, u, lo, false);
  }
}
