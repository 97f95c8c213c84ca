/** Dense arrays as nested sequences, and the numpy / scipy primitives the dictionary
    update is written with: reversal `v[::-1]`, the slices `v[:-t]` and `v[t:]`,
    `(a * b).sum()`, `scipy.signal.convolve(a, b, mode='valid')` and `np.sum(A, axis=1)`.

    `At` reads a vector with zero padding outside its range; all index arithmetic of the
    model goes through it, so that shifted sums need no range side conditions. */
module Tensors {
  import opened Reals

  type Vec = seq<real>
  type Mat = seq<Vec>
  type T3 = seq<Mat>
  type T4 = seq<T3>

  predicate IsMat(m: Mat, rows: nat, cols: nat)
  {
    |m| == rows && forall i :: 0 <= i < rows ==> |m[i]| == cols
  }

  predicate IsT3(t: T3, n0: nat, n1: nat, n2: nat)
  {
    |t| == n0 && forall a :: 0 <= a < n0 ==> IsMat(t[a], n1, n2)
  }

  predicate IsT4(t: T4, n0: nat, n1: nat, n2: nat, n3: nat)
  {
    |t| == n0 && forall a :: 0 <= a < n0 ==> IsT3(t[a], n1, n2, n3)
  }

  /** v[t], or 0 outside the vector. */
  function At(v: Vec, t: int): real
  {
    if 0 <= t < |v| then v[t] else 0.0
  }

  /** m[a][b], or 0 outside m. */
  function At2(m: Mat, a: int, b: int): real
  {
    if 0 <= a < |m| then At(m[a], b) else 0.0
  }

  /** T[a][b], or the empty vector outside T. */
  function Row(T: T3, a: int, b: int): Vec
  {
    if 0 <= a < |T| && 0 <= b < |T[a]| then T[a][b] else []
  }

  /** T[a][b][c], or 0 outside T. */
  function At3(T: T3, a: int, b: int, c: int): real
  {
    At(Row(T, a, b), c)
  }

  /** numpy `v[::-1]` */
  function Reverse(v: Vec): (r: Vec)
    ensures |r| == |v|
  {
    seq(|v|, i requires 0 <= i < |v| => v[|v| - 1 - i])
  }

  /** numpy `v[:-t]` for t >= 1: all but the last t entries (empty once t >= |v|). */
  function DropLast(v: Vec, t: nat): (r: Vec)
    requires t >= 1
    ensures |r| == if t <= |v| then |v| - t else 0
    ensures forall i :: 0 <= i < |r| ==> r[i] == v[i]
  {
    if t <= |v| then v[..|v| - t] else []
  }

  /** numpy `v[t:]`: all but the first t entries (empty once t >= |v|). */
  function DropFirst(v: Vec, t: nat): (r: Vec)
    ensures |r| == if t <= |v| then |v| - t else 0
    ensures forall i :: 0 <= i < |r| ==> r[i] == v[i + t]
  {
    if t <= |v| then v[t..] else []
  }

  /** numpy `(a * b).sum()`; every use multiplies two vectors of one length. */
  function Dot(a: Vec, b: Vec): real
  {
    Sum(|a|, s => At(a, s) * At(b, s))
  }

  /** Squared Euclidean norm Σ v[i]². */
  function SqNorm(v: Vec): (r: real)
    ensures r >= 0.0
  {
    var f := i => At(v, i) * At(v, i);
    SumNonneg(|v|, f);
    Sum(|v|, f)
  }

  /** The cross-correlation of z with x at lag tau: Σ_s z[s] · x[s + tau], with x read as 0
      outside its range. This is the quantity every convolution of the dictionary update
      computes. */
  function XCorr(z: Vec, x: Vec, tau: int): real
  {
    Sum(|z|, s => Lagged(z, x, tau, s))
  }

  /** One term of the cross-correlation: z[s] · x[s + tau]. */
  function Lagged(z: Vec, x: Vec, tau: int, s: int): real
  {
    At(z, s) * At(x, s + tau)
  }

  /** Entry n of the full convolution of `big` with `small`, shifted so that index 0 is the
      first position where `small` lies inside `big`: Σ_m small[m] · big[n + |small| - 1 - m]. */
  function ConvAt(big: Vec, small: Vec, n: int): real
  {
    Sum(|small|, m => ConvTap(big, small, n, m))
  }

  /** One tap of the convolution: small[m] · big[n + |small| - 1 - m]. */
  function ConvTap(big: Vec, small: Vec, n: int, m: int): real
  {
    At(small, m) * At(big, n + |small| - 1 - m)
  }

  /** A convolution entry whose taps are the values g(m). */
  lemma ConvAtTaps(big: Vec, small: Vec, n: int, g: int -> real)
    requires forall m :: 0 <= m < |small| ==> At(small, m) * At(big, n + |small| - 1 - m) == g(m)
    ensures ConvAt(big, small, n) == Sum(|small|, g)
  {
    SumExt(|small|, m => ConvTap(big, small, n, m), g);
  }

  /** The valid part of the full convolution of `big` with `small`. */
  function ValidPart(big: Vec, small: Vec): (r: Vec)
    requires |big| >= |small| > 0
    ensures |r| == |big| - |small| + 1
  {
    seq(|big| - |small| + 1, n => ConvAt(big, small, n))
  }

  /** `scipy.signal.convolve(a, b, mode='valid')` on vectors: the arguments are exchanged
      when the second is the longer one, so the result has length ||a| - |b|| + 1. */
  function ConvolveValid(a: Vec, b: Vec): (r: Vec)
    requires |a| > 0 && |b| > 0
    ensures |r| == if |a| >= |b| then |a| - |b| + 1 else |b| - |a| + 1
  {
    if |a| >= |b| then ValidPart(a, b) else ValidPart(b, a)
  }

  /** Convolving with a reversed kernel is cross-correlation, whichever argument the
      reversed kernel is: both `convolve(z[::-1], x, 'valid')` and
      `convolve(x, z[::-1], 'valid')` give Σ_s z[s] · x[s + tau]. */
  lemma ConvolveReversed(z: Vec, x: Vec, tau: int)
    requires 0 < |z| <= |x|
    requires 0 <= tau <= |x| - |z|
    ensures ConvolveValid(Reverse(z), x)[tau] == XCorr(z, x, tau)
    ensures ConvolveValid(x, Reverse(z))[tau] == XCorr(z, x, tau)
  {
    var zr := Reverse(z);
    ValidPartReversed(z, zr, x, tau);
    if |x| == |z| {
      ValidPartReversedEqual(z, zr, x);
    }
  }

  lemma ValidPartReversed(z: Vec, zr: Vec, x: Vec, tau: int)
    requires 0 < |z| <= |x| && zr == Reverse(z)
    requires 0 <= tau <= |x| - |z|
    ensures ValidPart(x, zr)[tau] == XCorr(z, x, tau)
  {
    var n := |z|;
    var f := s => Lagged(z, x, tau, s);
    var g := m => ConvTap(x, zr, tau, m);
    forall m | 0 <= m < n
      ensures g(m) == f(n - 1 - m)
    {
      assert At(zr, m) == At(z, n - 1 - m);
    }
    SumReverse(n, f, g);
  }

  lemma ValidPartReversedEqual(z: Vec, zr: Vec, x: Vec)
    requires 0 < |z| == |x| && zr == Reverse(z)
    ensures ValidPart(zr, x)[0] == XCorr(z, x, 0)
  {
    var n := |z|;
    var f := s => Lagged(z, x, 0, s);
    var h := m => ConvTap(zr, x, 0, m);
    forall m | 0 <= m < n
      ensures h(m) == f(m)
    {
      assert At(zr, n - 1 - m) == At(z, m);
    }
    SumExt(n, h, f);
  }

  /** `(a[:-t] * b[t:]).sum()` is the cross-correlation of a with b at lag t. */
  lemma DotDropLastFirst(a: Vec, b: Vec, t: nat)
    requires |a| == |b| && t >= 1
    ensures Dot(DropLast(a, t), DropFirst(b, t)) == XCorr(a, b, t)
  {
    var n := |a|;
    var a1, b1 := DropLast(a, t), DropFirst(b, t);
    var f := s => Lagged(a, b, t, s);
    var g := s => At(a1, s) * At(b1, s);
    var m := |a1|;
    forall i | m <= i < n
      ensures f(i) == 0.0
    {
      assert At(b, i + t) == 0.0;
    }
    SumTail(n, m, f);
    SumExt(m, f, g);
  }

  /** `(a[t:] * b[:-t]).sum()` is the cross-correlation of a with b at lag -t. */
  lemma DotDropFirstLast(a: Vec, b: Vec, t: nat)
    requires |a| == |b| && t >= 1
    ensures Dot(DropFirst(a, t), DropLast(b, t)) == XCorr(a, b, -(t as int))
  {
    var n := |a|;
    var a1, b1 := DropFirst(a, t), DropLast(b, t);
    var f := s => Lagged(a, b, -(t as int), s);
    var g := s => At(a1, s) * At(b1, s);
    forall i | 0 <= i < t && i < n
      ensures f(i) == 0.0
    {
      assert At(b, i - t) == 0.0;
    }
    if t <= n {
      SumDropLeading(n, t, f, g);
    } else {
      SumZero(n, f);
    }
  }

  /** Lag 0 of the cross-correlation is the dot product. */
  lemma DotIsLagZero(a: Vec, b: Vec)
    requires |a| == |b|
    ensures Dot(a, b) == XCorr(a, b, 0)
  {
    SumExt(|a|, s => At(a, s) * At(b, s), s => Lagged(a, b, 0, s));
  }

  /** Swapping the two signals negates the lag: Σ_s a[s]·b[s+d] = Σ_s b[s]·a[s-d]. */
  lemma XCorrSwap(a: Vec, b: Vec, d: int)
    requires |a| == |b|
    ensures XCorr(a, b, d) == XCorr(b, a, -d)
  {
    if d >= 0 {
      XCorrSwapNonneg(a, b, d);
    } else {
      XCorrSwapNonneg(b, a, -d);
    }
  }

  /** z[s] · x[s + d] = x[s + d] · z[(s + d) - d] */
  lemma LaggedSwap(a: Vec, b: Vec, d: int, s: int)
    ensures Lagged(a, b, d, s) == Lagged(b, a, -d, s + d)
  {
    assert s + d + -d == s;
  }

  lemma XCorrSwapNonneg(a: Vec, b: Vec, d: int)
    requires |a| == |b| && d >= 0
    ensures XCorr(a, b, d) == XCorr(b, a, -d)
  {
    var n := |a|;
    if d < n {
      var f := s => Lagged(a, b, d, s);
      var g := u => Lagged(b, a, -d, u);
      var g1 := s => Lagged(b, a, -d, s + d);
      forall i | 0 <= i < d
        ensures g(i) == 0.0
      {
        assert At(a, i - d) == 0.0;
      }
      SumDropLeading(n, d, g, g1);
      forall i | n - d <= i < n
        ensures f(i) == 0.0
      {
        assert At(b, i + d) == 0.0;
      }
      SumTail(n, n - d, f);
      forall i | 0 <= i < n - d
        ensures f(i) == g1(i)
      {
        LaggedSwap(a, b, d, i);
      }
      SumExt(n - d, f, g1);
    } else {
      XCorrFarLag(a, b, d);
      XCorrFarLag(b, a, -d);
    }
  }

  /** Lags at least as long as the signals see only the zero padding. */
  lemma XCorrFarLag(a: Vec, b: Vec, d: int)
    requires |a| == |b|
    requires d >= |a| || d <= -|a|
    ensures XCorr(a, b, d) == 0.0
  {
    var f := s => Lagged(a, b, d, s);
    forall i | 0 <= i < |a|
      ensures f(i) == 0.0
    {
      assert At(b, i + d) == 0.0;
    }
    SumZero(|a|, f);
  }

  /** Correlation is linear in its second vector: for r = y - x,
      Σ_s z[s] · r[s + tau] = Σ_s z[s] · y[s + tau] - Σ_s z[s] · x[s + tau]. */
  lemma XCorrSub(z: Vec, r: Vec, y: Vec, x: Vec, tau: int)
    requires |r| == |y| == |x|
    requires forall t :: 0 <= t < |r| ==> r[t] == y[t] - x[t]
    ensures XCorr(z, r, tau) == XCorr(z, y, tau) - XCorr(z, x, tau)
  {
    forall s | 0 <= s < |z|
      ensures At(z, s) * At(r, s + tau) == At(z, s) * At(y, s + tau) - At(z, s) * At(x, s + tau)
    {
      assert At(r, s + tau) == At(y, s + tau) - At(x, s + tau);
    }
    SumSub(|z|, s => Lagged(z, y, tau, s), s => Lagged(z, x, tau, s), s => Lagged(z, r, tau, s));
  }

  /** numpy `A - B` for two arrays of one three-dimensional shape. */
  function Sub3(A: T3, B: T3, n0: nat, n1: nat, n2: nat): (r: T3)
    requires IsT3(A, n0, n1, n2) && IsT3(B, n0, n1, n2)
    ensures IsT3(r, n0, n1, n2)
    ensures forall a, b, c :: 0 <= a < n0 && 0 <= b < n1 && 0 <= c < n2 ==> r[a][b][c] == A[a][b][c] - B[a][b][c]
  {
    seq(n0, a requires 0 <= a < n0 => seq(n1, b requires 0 <= b < n1 => seq(n2, c requires 0 <= c < n2 =>
      A[a][b][c] - B[a][b][c])))
  }

  /** Σ_b A[a][b][c][d], reading A as 0 outside its range. */
  function SumOverAxis1(A: T4, n1: nat, a: int, c: int, d: int): real
  {
    Sum(n1, b => if 0 <= a < |A| && 0 <= b < |A[a]| && 0 <= c < |A[a][b]| then At(A[a][b][c], d) else 0.0)
  }

  /** `np.sum(A, axis=1)` for a four-dimensional array A. */
  function SumAxis1(A: T4, n0: nat, n1: nat, n2: nat, n3: nat): (r: T3)
    requires IsT4(A, n0, n1, n2, n3)
    ensures IsT3(r, n0, n2, n3)
    ensures forall a, c, d :: 0 <= a < n0 && 0 <= c < n2 && 0 <= d < n3 ==> r[a][c][d] == SumOverAxis1(A, n1, a, c, d)
  {
    seq(n0, a => seq(n2, c => seq(n3, d => SumOverAxis1(A, n1, a, c, d))))
  }

  /** The entries of `np.sum(A, axis=1)`: r[a][c][d] = Σ_b A[a][b][c][d]. */
  lemma SumAxis1At(A: T4, n0: nat, n1: nat, n2: nat, n3: nat, a: nat, c: nat, d: nat, f: int -> real)
    requires IsT4(A, n0, n1, n2, n3)
    requires a < n0 && c < n2 && d < n3
    requires forall b :: 0 <= b < n1 ==> f(b) == A[a][b][c][d]
    ensures SumAxis1(A, n0, n1, n2, n3)[a][c][d] == Sum(n1, f)
  {
    var g := b => if 0 <= a < |A| && 0 <= b < |A[a]| && 0 <= c < |A[a][b]| then At(A[a][b][c], d) else 0.0;
    assert SumAxis1(A, n0, n1, n2, n3)[a][c][d] == Sum(n1, g);
    SumExt(n1, g, f);
  }

  /** Every entry of `v` times `c`. */
  function Scaled(v: Vec, c: real): (r: Vec)
    ensures |r| == |v|
    ensures forall i :: 0 <= i < |v| ==> r[i] == v[i] * c
  {
    seq(|v|, i requires 0 <= i < |v| => v[i] * c)
  }

  /** ||c v||² = c² ||v||². */
  lemma SqNormScaled(v: Vec, c: real)
    ensures SqNorm(Scaled(v, c)) == c * c * SqNorm(v)
  {
    var r := Scaled(v, c);
    forall i | 0 <= i < |v|
      ensures At(r, i) * At(r, i) == c * c * (At(v, i) * At(v, i))
    {
      SquareOfProduct(v[i], c);
    }
    SumScale(|v|, c * c, i => At(v, i) * At(v, i), i => At(r, i) * At(r, i));
  }
}
