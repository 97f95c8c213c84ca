/** `prox_uv`: the projection of every row of the rank-1 parameters onto the closed unit
    ball, `uv / max(1, ||uv[k]||)`. The Euclidean norm is the square root of the squared norm;
    the square root is a parameter characterised by `IsSqrt`. */
module Prox {
  import opened Reals
  import opened Tensors

  /** The divisor of a row: max(1, ||row||). */
  function RowScale(sqrt: real -> real, row: Vec): (n: real)
    requires IsSqrt(sqrt)
    ensures n >= 1.0
    ensures n == 1.0 <==> SqNorm(row) <= 1.0
    ensures n > 1.0 ==> n * n == SqNorm(row)
  {
    SqrtVersusOne(sqrt, SqNorm(row));
    Max(1.0, sqrt(SqNorm(row)))
  }

  /** One row of `prox_uv`. */
  function ProxRow(sqrt: real -> real, row: Vec): (r: Vec)
    requires IsSqrt(sqrt)
    ensures |r| == |row|
  {
    Scaled(row, 1.0 / RowScale(sqrt, row))
  }

  /** The projected row lies in the unit ball, a row already inside it is left alone, and a
      row outside it lands on the unit sphere. */
  lemma ProxRowNorm(sqrt: real -> real, row: Vec)
    requires IsSqrt(sqrt)
    ensures SqNorm(ProxRow(sqrt, row)) <= 1.0
    ensures SqNorm(row) <= 1.0 ==> ProxRow(sqrt, row) == row
    ensures SqNorm(row) > 1.0 ==> SqNorm(ProxRow(sqrt, row)) == 1.0
  {
    var n := RowScale(sqrt, row);
    var c := 1.0 / n;
    SqNormScaled(row, c);
    if SqNorm(row) <= 1.0 {
      assert c == 1.0;
    } else {
      assert c * c * (n * n) == 1.0;
    }
  }

  /** The projected row points the same way as the row: it is the row scaled by one factor
      in (0, 1], so every entry keeps its sign and is zero exactly where the row is. */
  lemma ProxRowDirection(sqrt: real -> real, row: Vec)
    requires IsSqrt(sqrt)
    ensures exists c: real :: 0.0 < c <= 1.0 && ProxRow(sqrt, row) == Scaled(row, c)
    ensures forall i :: 0 <= i < |row| ==> ProxRow(sqrt, row)[i] * row[i] >= 0.0
    ensures forall i :: 0 <= i < |row| ==> (ProxRow(sqrt, row)[i] == 0.0 <==> row[i] == 0.0)
  {
    var c := 1.0 / RowScale(sqrt, row);
    assert 0.0 < c <= 1.0 && ProxRow(sqrt, row) == Scaled(row, c);
    forall i | 0 <= i < |row|
      ensures ProxRow(sqrt, row)[i] * row[i] >= 0.0
    {
      assert ProxRow(sqrt, row)[i] * row[i] == c * (row[i] * row[i]);
    }
  }

  /** `prox_uv(uv)`: every row projected onto the unit ball. */
  function ProxUv(sqrt: real -> real, uv: Mat): (r: Mat)
    requires IsSqrt(sqrt)
    ensures |r| == |uv|
    ensures forall k :: 0 <= k < |uv| ==> |r[k]| == |uv[k]|
  {
    seq(|uv|, k requires 0 <= k < |uv| => ProxRow(sqrt, uv[k]))
  }

  /** Every row of `prox_uv(uv)` has norm at most one. */
  predicate InUnitBall(uv: Mat)
  {
    forall k :: 0 <= k < |uv| ==> SqNorm(uv[k]) <= 1.0
  }

  /** `prox_uv` lands in the unit balls and fixes exactly the parameters already there. */
  lemma ProxUvFeasible(sqrt: real -> real, uv: Mat)
    requires IsSqrt(sqrt)
    ensures InUnitBall(ProxUv(sqrt, uv))
    ensures ProxUv(sqrt, uv) == uv <==> InUnitBall(uv)
  {
    forall k | 0 <= k < |uv|
      ensures SqNorm(ProxUv(sqrt, uv)[k]) <= 1.0
      ensures SqNorm(uv[k]) <= 1.0 ==> ProxUv(sqrt, uv)[k] == uv[k]
      ensures SqNorm(uv[k]) > 1.0 ==> SqNorm(ProxUv(sqrt, uv)[k]) == 1.0
    {
      ProxRowNorm(sqrt, uv[k]);
    }
    if ProxUv(sqrt, uv) == uv {
      forall k | 0 <= k < |uv|
        ensures SqNorm(uv[k]) <= 1.0
      {
        assert ProxUv(sqrt, uv)[k] == uv[k];
      }
    }
    if InUnitBall(uv) {
      assert ProxUv(sqrt, uv) == uv;
    }
  }

  /** Projecting twice is projecting once. */
  lemma ProxUvIdempotent(sqrt: real -> real, uv: Mat)
    requires IsSqrt(sqrt)
    ensures ProxUv(sqrt, ProxUv(sqrt, uv)) == ProxUv(sqrt, uv)
  {
    ProxUvFeasible(sqrt, uv);
    ProxUvFeasible(sqrt, ProxUv(sqrt, uv));
  }
}
