/** Exact arithmetic used by the whole model: finite sums over an index range,
    absolute value, maximum, and the defining property of a square root.

    Every tensor expression of the dictionary update is a finite sum of products;
    `Sum(n, f)` is Σ_{0 <= i < n} f(i). The lemmas below take the summed functions as
    parameters together with pointwise hypotheses, so that callers can apply them to
    their own lambda expressions. */
module Reals {

  /** Σ_{0 <= i < n} f(i) */
  function Sum(n: nat, f: int -> real): real
  {
    if n == 0 then 0.0 else Sum(n - 1, f) + f(n - 1)
  }

  function Abs(x: real): (r: real)
    ensures r >= 0.0
    ensures r == x || r == -x
  {
    if x < 0.0 then -x else x
  }

  function Max(a: real, b: real): (r: real)
    ensures r >= a && r >= b
    ensures r == a || r == b
  {
    if a >= b then a else b
  }

  /** `sqrt` returns the non-negative square root of every non-negative real. */
  ghost predicate IsSqrt(sqrt: real -> real)
  {
    forall x :: x >= 0.0 ==> sqrt(x) >= 0.0 && sqrt(x) * sqrt(x) == x
  }

  /** Sums of pointwise equal functions are equal. */
  lemma {:induction false} SumExt(n: nat, f: int -> real, g: int -> real)
    requires forall i :: 0 <= i < n ==> f(i) == g(i)
    ensures Sum(n, f) == Sum(n, g)
  {
    if n > 0 {
      SumExt(n - 1, f, g);
    }
  }

  lemma {:induction false} SumZero(n: nat, f: int -> real)
    requires forall i :: 0 <= i < n ==> f(i) == 0.0
    ensures Sum(n, f) == 0.0
  {
    if n > 0 {
      SumZero(n - 1, f);
    }
  }

  lemma {:induction false} SumNonneg(n: nat, f: int -> real)
    requires forall i :: 0 <= i < n ==> f(i) >= 0.0
    ensures Sum(n, f) >= 0.0
  {
    if n > 0 {
      SumNonneg(n - 1, f);
    }
  }

  /** A sum of non-negative terms bounds each of its terms. */
  lemma {:induction false} SumBoundsTerm(n: nat, f: int -> real, j: int)
    requires forall i :: 0 <= i < n ==> f(i) >= 0.0
    requires 0 <= j < n
    ensures f(j) <= Sum(n, f)
  {
    SumNonneg(n - 1, f);
    if j < n - 1 {
      SumBoundsTerm(n - 1, f, j);
    }
  }

  /** A sum of non-negative terms is zero only when every term is zero. */
  lemma SumZeroTerms(n: nat, f: int -> real)
    requires forall i :: 0 <= i < n ==> f(i) >= 0.0
    requires Sum(n, f) == 0.0
    ensures forall i :: 0 <= i < n ==> f(i) == 0.0
  {
    forall i | 0 <= i < n
      ensures f(i) == 0.0
    {
      SumBoundsTerm(n, f, i);
    }
  }

  lemma {:induction false} SumAdd(n: nat, f: int -> real, g: int -> real, h: int -> real)
    requires forall i :: 0 <= i < n ==> h(i) == f(i) + g(i)
    ensures Sum(n, h) == Sum(n, f) + Sum(n, g)
  {
    if n > 0 {
      SumAdd(n - 1, f, g, h);
    }
  }

  lemma {:induction false} SumSub(n: nat, f: int -> real, g: int -> real, h: int -> real)
    requires forall i :: 0 <= i < n ==> h(i) == f(i) - g(i)
    ensures Sum(n, h) == Sum(n, f) - Sum(n, g)
  {
    if n > 0 {
      SumSub(n - 1, f, g, h);
    }
  }

  /** Termwise smaller sums are smaller. */
  lemma {:induction false} SumMono(n: nat, f: int -> real, g: int -> real)
    requires forall i :: 0 <= i < n ==> f(i) <= g(i)
    ensures Sum(n, f) <= Sum(n, g)
  {
    if n > 0 {
      SumMono(n - 1, f, g);
    }
  }

  lemma {:induction false} SumScale(n: nat, c: real, f: int -> real, g: int -> real)
    requires forall i :: 0 <= i < n ==> g(i) == c * f(i)
    ensures Sum(n, g) == c * Sum(n, f)
  {
    if n > 0 {
      SumScale(n - 1, c, f, g);
      calc {
        Sum(n, g);
        Sum(n - 1, g) + g(n - 1);
        c * Sum(n - 1, f) + c * f(n - 1);
        c * (Sum(n - 1, f) + f(n - 1));
      }
    }
  }

  /** The function i ↦ c · f(i). */
  function ScaledBy(c: real, f: int -> real): int -> real
  {
    i => c * f(i)
  }

  /** Σ_{i<n} c · f(i) = c · Σ_{i<n} f(i), for the named scaled function. */
  lemma SumScaledBy(n: nat, c: real, f: int -> real)
    ensures Sum(n, ScaledBy(c, f)) == c * Sum(n, f)
  {
    SumScale(n, c, f, ScaledBy(c, f));
  }

  /** Splitting off the first `t` terms: Σ_{i<n} f(i) = Σ_{i<t} f(i) + Σ_{i<n-t} f(i+t). */
  lemma {:induction false} SumSplit(n: nat, t: nat, f: int -> real, g: int -> real)
    requires t <= n
    requires forall i :: 0 <= i < n - t ==> g(i) == f(i + t)
    ensures Sum(n, f) == Sum(t, f) + Sum(n - t, g)
  {
    if n > t {
      SumSplit(n - 1, t, f, g);
    }
  }

  /** Terms beyond `m` that vanish do not contribute. */
  lemma SumTail(n: nat, m: nat, f: int -> real)
    requires m <= n
    requires forall i :: m <= i < n ==> f(i) == 0.0
    ensures Sum(n, f) == Sum(m, f)
  {
    var g := i => f(i + m);
    SumSplit(n, m, f, g);
    SumZero(n - m, g);
  }

  /** Leading terms that vanish do not contribute, and the rest can be re-indexed from 0. */
  lemma SumDropLeading(n: nat, t: nat, f: int -> real, g: int -> real)
    requires t <= n
    requires forall i :: 0 <= i < t ==> f(i) == 0.0
    requires forall i :: 0 <= i < n - t ==> g(i) == f(i + t)
    ensures Sum(n, f) == Sum(n - t, g)
  {
    SumSplit(n, t, f, g);
    SumZero(t, f);
  }

  /** Summing in the opposite order: Σ_{i<n} f(n-1-i) = Σ_{i<n} f(i). */
  lemma {:induction false} SumReverse(n: nat, f: int -> real, g: int -> real)
    requires forall i :: 0 <= i < n ==> g(i) == f(n - 1 - i)
    ensures Sum(n, g) == Sum(n, f)
  {
    if n > 0 {
      var f1 := i => f(i + 1);
      SumReverse(n - 1, f1, g);
      SumSplit(n, 1, f, f1);
    }
  }

  /** Exchanging the order of a double sum: Σ_{i<m} Σ_{j<n} = Σ_{j<n} Σ_{i<m}. */
  lemma {:induction false} SumSwap(m: nat, n: nat, outer: int -> real, swapped: int -> real,
                                   rows: int -> (int -> real), cols: int -> (int -> real))
    requires forall i :: 0 <= i < m ==> outer(i) == Sum(n, rows(i))
    requires forall j :: 0 <= j < n ==> swapped(j) == Sum(m, cols(j))
    requires forall i, j :: 0 <= i < m && 0 <= j < n ==> rows(i)(j) == cols(j)(i)
    ensures Sum(m, outer) == Sum(n, swapped)
  {
    if m == 0 {
      SumZero(n, swapped);
    } else {
      var prev := j => Sum(m - 1, cols(j));
      SumSwap(m - 1, n, outer, prev, rows, cols);
      SumAdd(n, prev, rows(m - 1), swapped);
    }
  }

  /** Σ_{i<m} e(i) · a(i) with each a(i) = Σ_{j<n} rows(i)(j) is the swapped double sum
      Σ_{j<n} Σ_{i<m} e(i) · rows(i)(j). */
  lemma SumSwapScaled(m: nat, n: nat, outer: int -> real, swapped: int -> real, e: int -> real, a: int -> real,
                      rows: int -> (int -> real), cols: int -> (int -> real))
    requires forall i :: 0 <= i < m ==> outer(i) == e(i) * a(i)
    requires forall i :: 0 <= i < m ==> a(i) == Sum(n, rows(i))
    requires forall j :: 0 <= j < n ==> swapped(j) == Sum(m, cols(j))
    requires forall i, j :: 0 <= i < m && 0 <= j < n ==> cols(j)(i) == ScaledBy(e(i), rows(i))(j)
    ensures Sum(m, outer) == Sum(n, swapped)
  {
    forall i | 0 <= i < m
      ensures outer(i) == Sum(n, ScaledBy(e(i), rows(i)))
    {
      SumScaledBy(n, e(i), rows(i));
    }
    SumSwap(m, n, outer, swapped, i => ScaledBy(e(i), rows(i)), cols);
  }

  /** Reversing the order of a triple sum: Σ_a Σ_b Σ_c F(a, b, c) = Σ_c Σ_b Σ_a F(a, b, c). */
  lemma SumReverse3(n0: nat, n1: nat, n2: nat, F: (int, int, int) -> real)
    ensures Sum(n0, a => Sum(n1, b => Sum(n2, c => F(a, b, c))))
         == Sum(n2, c => Sum(n1, b => Sum(n0, a => F(a, b, c))))
  {
    var M := a => Sum(n2, c => Sum(n1, b => F(a, b, c)));
    forall a | 0 <= a < n0
      ensures Sum(n1, b => Sum(n2, c => F(a, b, c))) == M(a)
    {
      SumSwap(n1, n2, b => Sum(n2, c => F(a, b, c)), c => Sum(n1, b => F(a, b, c)),
              b => (c => F(a, b, c)), c => (b => F(a, b, c)));
    }
    SumExt(n0, a => Sum(n1, b => Sum(n2, c => F(a, b, c))), M);
    var N := c => Sum(n0, a => Sum(n1, b => F(a, b, c)));
    SumSwap(n0, n2, M, N, a => (c => Sum(n1, b => F(a, b, c))), c => (a => Sum(n1, b => F(a, b, c))));
    forall c | 0 <= c < n2
      ensures N(c) == Sum(n1, b => Sum(n0, a => F(a, b, c)))
    {
      SumSwap(n0, n1, a => Sum(n1, b => F(a, b, c)), b => Sum(n0, a => F(a, b, c)),
              a => (b => F(a, b, c)), b => (a => F(a, b, c)));
    }
    SumExt(n2, N, c => Sum(n1, b => Sum(n0, a => F(a, b, c))));
  }

  lemma SquareOfProduct(a: real, c: real)
    ensures (a * c) * (a * c) == c * c * (a * a)
  {
  }

  /** s = sqrt(x) lies on the same side of 1 as x does. */
  lemma SqrtVersusOne(sqrt: real -> real, x: real)
    requires IsSqrt(sqrt)
    requires x >= 0.0
    ensures sqrt(x) >= 0.0 && sqrt(x) * sqrt(x) == x
    ensures sqrt(x) <= 1.0 <==> x <= 1.0
    ensures sqrt(x) >= 1.0 <==> x >= 1.0
    ensures sqrt(x) == 1.0 <==> x == 1.0
  {
    var s := sqrt(x);
    assert s >= 0.0 && s * s == x;
    if s <= 1.0 {
      assert s * s <= 1.0 * s;
    } else {
      assert s * s > 1.0 * s;
    }
    if s >= 1.0 {
      assert s * s >= 1.0 * s;
    } else {
      assert s * s < 1.0;
    }
  }
}
