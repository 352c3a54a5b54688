/** Real vectors, and finite sums of real-valued functions over the index range 0..n. */
module Sums {

  /** A product under a name, so that proofs can treat it as a term. */
  function Times(x: real, y: real): real {
    x * y
  }

  function Abs(x: real): real {
    if x < 0.0 then -x else x
  }

  /** Component j of a vector, zero outside of it. */
  function Val(x: seq<real>, j: int): real {
    if 0 <= j < |x| then x[j] else 0.0
  }

  method Assign(a: array<real>, s: seq<real>)
    requires a.Length == |s|
    modifies a
    ensures a[..] == s
  {
    var k := 0;
    while k < |s|
      invariant 0 <= k <= |s| && forall i :: 0 <= i < k ==> a[i] == s[i]
    {
      a[k] := s[k];
      k := k + 1;
    }
  }

  function Sum(f: int -> real, n: nat): real {
    if n == 0 then 0.0 else Sum(f, n - 1) + f(n - 1)
  }

  /** Pointwise equal summands give equal sums. */
  lemma {:induction false} SumCong(f: int -> real, g: int -> real, n: nat)
    requires forall k :: 0 <= k < n ==> f(k) == g(k)
    ensures Sum(f, n) == Sum(g, n)
  {
    if n != 0 {
      SumCong(f, g, n - 1);
    }
  }

  lemma {:induction false} SumZero(f: int -> real, n: nat)
    requires forall k :: 0 <= k < n ==> f(k) == 0.0
    ensures Sum(f, n) == 0.0
  {
    if n != 0 {
      SumZero(f, n - 1);
    }
  }

  /** Summands that agree everywhere but at `q` give sums that differ by the difference at `q`. */
  lemma {:induction false} SumOne(f: int -> real, g: int -> real, n: nat, q: int)
    requires 0 <= q < n
    requires forall k :: 0 <= k < n && k != q ==> f(k) == g(k)
    ensures Sum(f, n) == Sum(g, n) + f(q) - g(q)
  {
    if q == n - 1 {
      SumCong(f, g, n - 1);
    } else {
      SumOne(f, g, n - 1, q);
    }
  }

  /** A sum with at most one non-zero summand. */
  lemma {:induction false} SumSingle(f: int -> real, n: nat, q: int)
    requires 0 <= q < n
    requires forall k :: 0 <= k < n && k != q ==> f(k) == 0.0
    ensures Sum(f, n) == f(q)
  {
    if q == n - 1 {
      SumZero(f, n - 1);
    } else {
      SumSingle(f, n - 1, q);
    }
  }

  lemma {:induction false} SumLe(f: int -> real, g: int -> real, n: nat)
    requires forall k :: 0 <= k < n ==> f(k) <= g(k)
    ensures Sum(f, n) <= Sum(g, n)
  {
    if n != 0 {
      SumLe(f, g, n - 1);
    }
  }

  /** `f` is a pointwise linear combination of `g` and `h`. */
  lemma {:induction false} SumLinear(f: int -> real, g: int -> real, h: int -> real, c: real, n: nat)
    requires forall k :: 0 <= k < n ==> f(k) == g(k) + c * h(k)
    ensures Sum(f, n) == Sum(g, n) + c * Sum(h, n)
  {
    if n != 0 {
      SumLinear(f, g, h, c, n - 1);
      assert c * Sum(h, n) == c * Sum(h, n - 1) + c * h(n - 1);
    }
  }

  lemma SumScaled(f: int -> real, h: int -> real, c: real, n: nat)
    requires forall k :: 0 <= k < n ==> f(k) == Times(c, h(k))
    ensures Sum(f, n) == Times(c, Sum(h, n))
  {
    var zero := (_: int) => 0.0;
    SumZero(zero, n);
    SumLinear(f, zero, h, c, n);
  }

  /** Non-negative summands, one of them positive. */
  lemma SumSome(f: int -> real, n: nat, q: int)
    requires 0 <= q < n && f(q) > 0.0 && forall k :: 0 <= k < n ==> f(k) >= 0.0
    ensures Sum(f, n) > 0.0
  {
    var only := (k: int) => if k == q then f(q) else 0.0;
    SumSingle(only, n, q);
    SumLe(only, f, n);
  }

  /** Equal sums with ordered summands have equal summands. */
  lemma {:induction false} SumTight(f: int -> real, g: int -> real, n: nat)
    requires forall k :: 0 <= k < n ==> f(k) <= g(k)
    requires Sum(f, n) == Sum(g, n)
    ensures forall k :: 0 <= k < n ==> f(k) == g(k)
  {
    if n != 0 {
      SumLe(f, g, n - 1);
      SumTight(f, g, n - 1);
    }
  }

  /** Exchange of a double sum: `t` tabulates row sums, `u` tabulates column sums of `a`. */
  lemma {:induction false} SumExchange(a: (int, int) -> real, t: int -> real, u: int -> real, m: nat, n: nat)
    requires forall i :: 0 <= i < m ==> t(i) == Sum((j: int) => a(i, j), n)
    requires forall j :: 0 <= j < n ==> u(j) == Sum((i: int) => a(i, j), m)
    ensures Sum(t, m) == Sum(u, n)
  {
    if m == 0 {
      forall j | 0 <= j < n ensures u(j) == 0.0 {
        assert u(j) == Sum((i: int) => a(i, j), 0);
      }
      SumZero(u, n);
    } else {
      var u' := (j: int) => Sum((i: int) => a(i, j), m - 1);
      SumExchange(a, t, u', m - 1, n);
      var last := (j: int) => a(m - 1, j);
      forall j | 0 <= j < n ensures u(j) == u'(j) + 1.0 * last(j) {
        var cj := (i: int) => a(i, j);
        assert u(j) == Sum(cj, m);
        assert Sum(cj, m) == Sum(cj, m - 1) + cj(m - 1);
        assert u'(j) == Sum((i: int) => a(i, j), m - 1);
      }
      SumLinear(u, u', last, 1.0, n);
      assert t(m - 1) == Sum((j: int) => a(m - 1, j), n);
    }
  }

  // ----- sums over part of the index range

  function Masked(f: int -> real, done: set<int>): int -> real {
    (k: int) => if k in done then f(k) else 0.0
  }

  /** The sum of f over the indices in `done`, as a loop accumulates it. */
  function SumPart(f: int -> real, n: nat, done: set<int>): real {
    Sum(Masked(f, done), n)
  }

  lemma SumPartNone(f: int -> real, n: nat)
    ensures SumPart(f, n, {}) == 0.0
  {
    SumZero(Masked(f, {}), n);
  }

  lemma SumPartStep(f: int -> real, n: nat, done: set<int>, j: int)
    requires 0 <= j < n && j !in done
    ensures SumPart(f, n, done + {j}) == SumPart(f, n, done) + f(j)
  {
    SumOne(Masked(f, done + {j}), Masked(f, done), n, j);
  }

  lemma SumPartAll(f: int -> real, n: nat, done: set<int>)
    requires forall k :: 0 <= k < n && k !in done ==> f(k) == 0.0
    ensures SumPart(f, n, done) == Sum(f, n)
  {
    SumCong(Masked(f, done), f, n);
  }
}
