/** The symbolic phase of the Cholesky decomposition A = U'*U: the pattern of U from the pattern of A. */
module CholSymb {
  import opened Collections

  /** Row lists of a square matrix of order |a|. */
  predicate Pattern(a: seq<seq<int>>) {
    forall i :: 0 <= i < |a| ==> NoDup(a[i]) && forall j :: j in a[i] ==> 0 <= j < |a|
  }

  predicate UpperTriangular(a: seq<seq<int>>) {
    forall i :: 0 <= i < |a| ==> forall j :: j in a[i] ==> i <= j
  }

  /** Full symbolic elimination: u[k,j] is a non-zero if a[k,j] is, on the diagonal, or if an earlier row i has
      non-zeros in both columns k and j. */
  ghost predicate Filled(a: seq<seq<int>>, k: int, j: int)
    decreases k
  {
    && 0 <= k < |a| && k <= j < |a|
    && (j in a[k] || j == k || exists i :: 0 <= i < k && k < j && Filled(a, i, k) && Filled(a, i, j))
  }

  /** The leftmost off-diagonal non-zero of row i of U is in column c. */
  ghost predicate Leftmost(a: seq<seq<int>>, i: int, c: int) {
    i < c && Filled(a, i, c) && forall j :: i < j < c ==> !Filled(a, i, j)
  }

  /** What the routine merges into row k: only rows whose leftmost off-diagonal is in column k. */
  ghost predicate Merged(a: seq<seq<int>>, k: int, j: int) {
    && 0 <= k < |a| && k <= j < |a|
    && (j in a[k] || j == k || exists i :: 0 <= i < k && Leftmost(a, i, k) && i != j && Filled(a, i, j))
  }

  lemma {:induction false} LeftmostExists(a: seq<seq<int>>, i: int, k: int, lo: int) returns (f: int)
    requires 0 <= i < lo <= k && Filled(a, i, k)
    requires forall j :: i < j < lo ==> !Filled(a, i, j)
    ensures i < f <= k && Leftmost(a, i, f)
    decreases k - lo
  {
    if Filled(a, i, lo) {
      f := lo;
    } else {
      f := LeftmostExists(a, i, k, lo + 1);
    }
  }

  /** If row i has non-zeros in columns k and j, then so has some row whose leftmost off-diagonal is in column k:
      follow the leftmost off-diagonals from row i towards k. */
  lemma {:induction false} ClimbToLeftmost(a: seq<seq<int>>, i: int, k: int, j: int) returns (r: int)
    requires 0 <= i < k < j && Filled(a, i, k) && Filled(a, i, j)
    ensures 0 <= r < k && Leftmost(a, r, k) && Filled(a, r, j)
    decreases k - i
  {
    var f := LeftmostExists(a, i, k, i + 1);
    if f == k {
      r := i;
    } else {
      assert Filled(a, f, k) && Filled(a, f, j);
      r := ClimbToLeftmost(a, f, k, j);
    }
  }

  lemma NotFilled(a: seq<seq<int>>, k: int, j: int)
    requires 0 <= k < |a| && j !in a[k] && j != k
    requires forall i :: 0 <= i < k ==> !(Filled(a, i, k) && Filled(a, i, j))
    ensures !Filled(a, k, j)
  {
  }

  lemma FilledBy(a: seq<seq<int>>, k: int, j: int) returns (i: int)
    requires Filled(a, k, j) && j !in a[k] && j != k
    ensures 0 <= i < k < j && Filled(a, i, k) && Filled(a, i, j)
  {
    if forall i :: 0 <= i < k ==> !(Filled(a, i, k) && Filled(a, i, j)) {
      NotFilled(a, k, j);
      assert false;
    }
    i :| 0 <= i < k && Filled(a, i, k) && Filled(a, i, j);
  }

  /** Merging only the rows whose leftmost off-diagonal is in column k gives the row of full elimination. */
  lemma MergedIsFilled(a: seq<seq<int>>, k: int, j: int)
    ensures Merged(a, k, j) <==> Filled(a, k, j)
  {
    if Merged(a, k, j) && j !in a[k] && j != k {
      var i :| 0 <= i < k && Leftmost(a, i, k) && i != j && Filled(a, i, j);
      assert Filled(a, i, k);
    }
    if Filled(a, k, j) && j !in a[k] && j != k {
      var i := FilledBy(a, k, j);
      var r := ClimbToLeftmost(a, i, k, j);
    }
  }

  lemma LeftmostUnique(a: seq<seq<int>>, i: int, c: int, d: int)
    requires Leftmost(a, i, c) && Leftmost(a, i, d)
    ensures c == d
  {
  }

  // ----- linked lists of rows with the same leftmost column

  predicate Links(next: seq<int>) {
    forall i :: 0 <= i < |next| ==> -1 <= next[i] < i
  }

  /** The rows on the list that starts with row h; -1 ends the list. */
  function Chain(next: seq<int>, h: int): set<int>
    requires Links(next) && -1 <= h < |next|
    decreases h
  {
    if h == -1 then {} else {h} + Chain(next, next[h])
  }

  lemma {:induction false} ChainFrame(next: seq<int>, next': seq<int>, h: int)
    requires Links(next) && Links(next') && |next| == |next'| && -1 <= h < |next|
    requires forall i :: 0 <= i <= h ==> next[i] == next'[i]
    ensures Chain(next, h) == Chain(next', h)
    decreases h
  {
    if h != -1 {
      ChainFrame(next, next', next[h]);
    }
  }

  /** The lists before row k is computed: for every column c the rows above k whose leftmost off-diagonal is in c. */
  ghost predicate ListsOk(a: seq<seq<int>>, head: seq<int>, next: seq<int>, k: int) {
    && |head| == |next| == |a| && Links(next)
    && (forall c :: 0 <= c < |a| ==> -1 <= head[c] < k && head[c] < |a|)
    && (forall c :: 0 <= c < |a| ==> forall i :: i in Chain(next, head[c]) <==> 0 <= i < k && Leftmost(a, i, c))
  }

  lemma ListsPush(a: seq<seq<int>>, head: seq<int>, next: seq<int>, k: int, c: int)
    requires ListsOk(a, head, next, k) && 0 <= k < c < |a| && Leftmost(a, k, c)
    ensures ListsOk(a, head[c := k], next[k := head[c]], k + 1)
  {
    hide Leftmost;
    var head', next' := head[c := k], next[k := head[c]];
    forall d | 0 <= d < |a|
      ensures -1 <= head'[d] < k + 1 && forall i :: i in Chain(next', head'[d]) <==> 0 <= i < k + 1 && Leftmost(a, i, d)
    {
      ChainFrame(next, next', head[d]);
      if d == c {
        assert Chain(next', k) == {k} + Chain(next', head[c]);
      } else if Leftmost(a, k, d) {
        LeftmostUnique(a, k, c, d);
      }
    }
  }

  lemma ListsSkip(a: seq<seq<int>>, head: seq<int>, next: seq<int>, k: int)
    requires ListsOk(a, head, next, k) && 0 <= k < |a| && forall j :: k < j < |a| ==> !Filled(a, k, j)
    ensures ListsOk(a, head, next, k + 1)
  {
    forall d | 0 <= d < |a|
      ensures forall i :: i in Chain(next, head[d]) <==> 0 <= i < k + 1 && Leftmost(a, i, d)
    {
      assert !Leftmost(a, k, d);
    }
  }

  // ----- the routine

  ghost predicate Marks(row: seq<int>, work: seq<bool>) {
    forall j :: 0 <= j < |work| ==> (work[j] <==> j in row)
  }

  method MarkRow(row: seq<int>, work: array<bool>)
    requires (forall j :: j in row ==> 0 <= j < work.Length) && forall j :: 0 <= j < work.Length ==> !work[j]
    modifies work
    ensures Marks(row, work[..])
  {
    var t := 0;
    while t < |row|
      invariant 0 <= t <= |row| && forall j :: 0 <= j < work.Length ==> (work[j] <==> j in row[..t])
    {
      assert row[..t + 1] == row[..t] + [row[t]] && row[t] in row;
      work[row[t]] := true;
      t := t + 1;
    }
    assert row[..|row|] == row;
  }

  /** Merge row i of U, the list src, into the row being computed. */
  method MergeRow(src: seq<int>, i: int, row: seq<int>, work: array<bool>) returns (row': seq<int>)
    requires (forall j :: j in src ==> 0 <= j < work.Length) && (forall j :: j in row ==> 0 <= j < work.Length)
    requires Marks(row, work[..]) && NoDup(row)
    modifies work
    ensures Marks(row', work[..]) && NoDup(row')
    ensures forall j :: j in row' <==> j in row || (j in src && j != i)
  {
    row' := row;
    var t := 0;
    while t < |src|
      invariant 0 <= t <= |src| && Marks(row', work[..]) && NoDup(row')
      invariant forall j :: j in row' <==> j in row || (j in src[..t] && j != i)
    {
      assert src[..t + 1] == src[..t] + [src[t]] && src[t] in src;
      var j := src[t];
      if j != i && !work[j] {
        row' := [j] + row';
        work[j] := true;
      }
      t := t + 1;
    }
    assert src[..|src|] == src;
  }

  /** Clear the marks of the finished row k and find its leftmost off-diagonal column, or n. */
  method ClearRow(row: seq<int>, k: int, work: array<bool>) returns (left: int)
    requires Marks(row, work[..]) && 0 <= k < work.Length && forall j :: j in row ==> k <= j < work.Length
    modifies work
    ensures forall j :: 0 <= j < work.Length ==> !work[j]
    ensures k < left <= work.Length && (left < work.Length ==> left in row)
    ensures forall j :: k < j < left ==> j !in row
  {
    left := work.Length;
    var t := 0;
    while t < |row|
      invariant 0 <= t <= |row|
      invariant forall j :: 0 <= j < work.Length ==> (work[j] ==> j in row && j !in row[..t])
      invariant k < left <= work.Length && (left < work.Length ==> left in row)
      invariant forall j :: k < j < left ==> j !in row[..t]
    {
      assert row[..t + 1] == row[..t] + [row[t]] && row[t] in row;
      if row[t] != k && row[t] < left {
        left := row[t];
      }
      work[row[t]] := false;
      t := t + 1;
    }
    assert row[..|row|] == row;
  }

  /** a[k,j] or the diagonal, or a non-zero of one of the rows in `done`. */
  ghost predicate MergedFrom(a: seq<seq<int>>, k: int, done: set<int>, j: int) {
    0 <= k < |a| && (j in a[k] || j == k || exists i :: i in done && i != j && Filled(a, i, j))
  }

  lemma MergedAll(a: seq<seq<int>>, k: int, done: set<int>, j: int)
    requires 0 <= k < |a| && Pattern(a) && UpperTriangular(a)
    requires forall i :: i in done <==> 0 <= i < k && Leftmost(a, i, k)
    ensures MergedFrom(a, k, done, j) <==> Filled(a, k, j)
  {
    MergedIsFilled(a, k, j);
    if MergedFrom(a, k, done, j) && j !in a[k] && j != k {
      var i :| i in done && i != j && Filled(a, i, j);
      assert Leftmost(a, i, k);
      assert Merged(a, k, j);
    }
  }

  /** Compute row k of U from row k of A and the list of rows that starts at head[k]. */
  method EliminateRow(a: seq<seq<int>>, U: array<seq<int>>, k: int, start: seq<int>, h: int, next: array<int>, work: array<bool>)
    returns (row: seq<int>)
    requires Pattern(a) && UpperTriangular(a) && 0 <= k < |a| == U.Length == work.Length == next.Length
    requires forall i, j :: 0 <= i < k ==> (j in U[i] <==> Filled(a, i, j))
    requires Links(next[..]) && -1 <= h < k
    requires forall i :: i in Chain(next[..], h) <==> 0 <= i < k && Leftmost(a, i, k)
    requires NoDup(start) && forall j :: j in start <==> j in a[k] || j == k
    requires forall j :: 0 <= j < work.Length ==> !work[j]
    modifies work
    ensures NoDup(row) && Marks(row, work[..]) && forall j :: j in row <==> Filled(a, k, j)
  {
    hide Leftmost, Marks, NoDup, Filled, UpperTriangular;
    row := start;
    MarkRow(row, work);
    var i := h;
    ghost var all, done := Chain(next[..], h), {};
    while i != -1
      invariant -1 <= i < k && NoDup(row) && Marks(row, work[..]) && next[..] == old(next[..])
      invariant all == done + Chain(next[..], i)
      invariant forall j :: j in row <==> MergedFrom(a, k, done, j)
      invariant forall j :: j in row ==> 0 <= j < work.Length
      decreases i
    {
      FilledBounds(a);
      row := MergeRow(U[i], i, row, work);
      done := done + {i};
      i := next[i];
    }
    forall j ensures j in row <==> Filled(a, k, j) {
      MergedAll(a, k, done, j);
    }
  }

  lemma FilledBounds(a: seq<seq<int>>)
    ensures forall i, j :: Filled(a, i, j) ==> 0 <= i < |a| && i <= j < |a|
  {
  }

  method CheckUpper(a: seq<seq<int>>) returns (ok: bool)
    ensures ok <==> UpperTriangular(a)
  {
    ok := forall i | 0 <= i < |a| :: forall j <- a[i] :: i <= j;
  }

  /** Include row k into the list of its leftmost off-diagonal column, if it has one. */
  method LinkRow(ghost a: seq<seq<int>>, head: array<int>, next: array<int>, k: int, left: int)
    requires head != next && head.Length == next.Length == |a| && ListsOk(a, head[..], next[..], k)
    requires 0 <= k < left <= |a| && (left < |a| ==> Filled(a, k, left)) && forall j :: k < j < left ==> !Filled(a, k, j)
    modifies head, next
    ensures ListsOk(a, head[..], next[..], k + 1)
  {
    hide ListsOk, Leftmost, Filled;
    if left < head.Length {
      LeftmostIntro(a, k, left);
      ListsPush(a, head[..], next[..], k, left);
      next[k] := head[left];
      head[left] := k;
    } else {
      ListsSkip(a, head[..], next[..], k);
    }
  }

  /** chol_symb. It faults exactly on input that is not upper triangular; otherwise row k of U holds exactly the
      non-zeros of full symbolic elimination, each once. */
  method Symb(a: seq<seq<int>>) returns (ok: bool, U: array<seq<int>>)
    requires Pattern(a)
    ensures ok <==> UpperTriangular(a)
    ensures ok ==> U.Length == |a| && forall k :: 0 <= k < |a| ==> NoDup(U[k])
    ensures ok ==> U.Length == |a| && forall k, j :: 0 <= k < |a| ==> (j in U[k] <==> Filled(a, k, j))
  {
    hide Leftmost, Marks, NoDup, Filled, UpperTriangular, ListsOk;
    var n := |a|;
    U := new seq<int>[n](_ => []);
    ok := CheckUpper(a);
    if !ok {
      return;
    }
    var head, next, work := new int[n](_ => -1), new int[n](_ => -1), new bool[n](_ => false);
    ListsStart(a, head[..], next[..]);
    var k := 0;
    while k < n
      invariant 0 <= k <= n && ListsOk(a, head[..], next[..], k)
      invariant forall i :: 0 <= i < k ==> NoDup(U[i])
      invariant forall i, j :: 0 <= i < k ==> (j in U[i] <==> Filled(a, i, j))
      invariant forall j :: 0 <= j < n ==> !work[j]
    {
      var start := WithDiagonal(a[k], k);
      ListsAt(a, head[..], next[..], k, k);
      var row := EliminateRow(a, U, k, start, head[k], next, work);
      FilledBounds(a);
      var left := ClearRow(row, k, work);
      U[k] := row;
      LinkRow(a, head, next, k, left);
      k := k + 1;
    }
  }

  lemma LeftmostIntro(a: seq<seq<int>>, i: int, c: int)
    requires i < c && Filled(a, i, c) && forall j :: i < j < c ==> !Filled(a, i, j)
    ensures Leftmost(a, i, c)
  {
  }

  lemma ListsStart(a: seq<seq<int>>, head: seq<int>, next: seq<int>)
    requires |head| == |next| == |a| && forall i :: 0 <= i < |a| ==> head[i] == next[i] == -1
    ensures ListsOk(a, head, next, 0)
  {
  }

  lemma ListsAt(a: seq<seq<int>>, head: seq<int>, next: seq<int>, k: int, c: int)
    requires ListsOk(a, head, next, k) && 0 <= c < |a|
    ensures |head| == |next| == |a| && Links(next) && -1 <= head[c] < k && head[c] < |a|
    ensures forall i :: i in Chain(next, head[c]) <==> 0 <= i < k && Leftmost(a, i, c)
  {
  }

  /** Add the diagonal element if it is missing. */
  method WithDiagonal(row: seq<int>, k: int) returns (r: seq<int>)
    requires NoDup(row)
    ensures NoDup(r) && forall j :: j in r <==> j in row || j == k
  {
    r := if k in row then row else [k] + row;
  }
}
