/** A perfect fit is a fixed point of the gradient: when X is exactly the reconstruction of
    the atoms built from `uv`, the residual X̂ − X is zero, so `_dense_transpose_convolve`
    of it, `_gradient_d`, and the chain rule of `_gradient_uv` all vanish. `update_uv`
    started there stops at its first test of the gradient, after one iteration, and
    returns `prox_uv` of the unchanged parameters. */
module PerfectFit {
  import opened Wrappers
  import opened Reals
  import opened Tensors
  import opened Reconstruction
  import opened SuffStats
  import opened Gradient
  import opened Prox
  import opened UpdateUv

  /** Correlating with the zero signal gives 0 at every lag. */
  lemma XCorrWithZero(z: Vec, x: Vec, tau: int)
    requires forall t :: 0 <= t < |x| ==> x[t] == 0.0
    ensures XCorr(z, x, tau) == 0.0
  {
    forall s | 0 <= s < |z|
      ensures Lagged(z, x, tau, s) == 0.0
    {
      assert At(x, s + tau) == 0.0;
    }
    SumZero(|z|, s => Lagged(z, x, tau, s));
  }

  /** The transposed convolution of a zero residual is zero. */
  lemma TransposeOfZero(Z: T3, R: T3, d: Dims)
    requires IsCode(Z, d)
    requires IsT3(R, d.nTrials, d.nChan, d.nTimes)
    requires forall i, p, t :: 0 <= i < d.nTrials && 0 <= p < d.nChan && 0 <= t < d.nTimes ==> R[i][p][t] == 0.0
    ensures forall k, p, tau :: 0 <= k < d.nAtoms && 0 <= p < d.nChan && 0 <= tau < d.NTimesAtom() ==>
              DenseTransposeConvolve(Z, R, d)[k][p][tau] == 0.0
  {
    forall k, p, tau | 0 <= k < d.nAtoms && 0 <= p < d.nChan && 0 <= tau < d.NTimesAtom()
      ensures DenseTransposeConvolve(Z, R, d)[k][p][tau] == 0.0
    {
      DirectEntry(Z, R, d, k, p, tau);
      forall i | 0 <= i < d.nTrials
        ensures XCorr(Row(Z, k, i), Row(R, i, p), tau) == 0.0
      {
        XCorrWithZero(Row(Z, k, i), Row(R, i, p), tau);
      }
      SumZero(d.nTrials, i => XCorr(Row(Z, k, i), Row(R, i, p), tau));
    }
  }

  /** `_gradient_d` on data the atoms D reconstruct exactly is zero. */
  lemma PerfectFitGradientD(X: T3, Z: T3, D: T3, d: Dims)
    requires IsCode(Z, d)
    requires IsT3(D, d.nAtoms, d.nChan, d.NTimesAtom())
    requires X == ConstructXMulti(Z, D, d)
    ensures forall k, p, tau :: 0 <= k < d.nAtoms && 0 <= p < d.nChan && 0 <= tau < d.NTimesAtom() ==>
              GradientDDirect(D, X, Z, d)[k][p][tau] == 0.0
  {
    TransposeOfZero(Z, Residual(X, Z, D, d), d);
  }

  /** The chain rule of a zero atom gradient is zero. */
  lemma ChainRuleOfZero(gD: T3, uv: Mat, nChan: nat, L: nat)
    requires IsUv(uv, |uv|, nChan, L)
    requires IsT3(gD, |uv|, nChan, L)
    requires forall k, p, t :: 0 <= k < |uv| && 0 <= p < nChan && 0 <= t < L ==> gD[k][p][t] == 0.0
    ensures forall k, c :: 0 <= k < |uv| && 0 <= c < nChan + L ==> ChainRule(gD, uv, nChan, L)[k][c] == 0.0
  {
    var G := ChainRule(gD, uv, nChan, L);
    forall k, c | 0 <= k < |uv| && 0 <= c < nChan + L
      ensures G[k][c] == 0.0
    {
      if c < nChan {
        SumZero(L, t => At3(gD, k, c, t) * At2(uv, k, nChan + t));
      } else {
        SumZero(nChan, p => At3(gD, k, p, c - nChan) * At2(uv, k, p));
        assert G[k][nChan + (c - nChan)] == GradVAt(gD, uv, nChan, k, c - nChan);
      }
    }
  }

  /** `_gradient_uv` with the constants of (X, Z) is zero at parameters whose atoms reconstruct
      X exactly, and so is the l1 norm `update_uv` tests. */
  lemma PerfectFitGradientUv(X: T3, Z: T3, uv: Mat, stepSize: real, eps: Option<real>)
    requires WellShaped(X, Z)
    requires IsUv(uv, |Z|, |X[0]|, DimsOf(X, Z).NTimesAtom())
    requires X == ConstructXMulti(Z, GetD(uv, |X[0]|, DimsOf(X, Z).NTimesAtom()), DimsOf(X, Z))
    ensures forall k, c :: 0 <= k < |uv| && 0 <= c < |uv[k]| ==> GradientOf(ConfigOf(X, Z, stepSize, eps), uv)[k][c] == 0.0
    ensures L1(GradientOf(ConfigOf(X, Z, stepSize, eps), uv)) == 0.0
  {
    var d := DimsOf(X, Z);
    var D := GetD(uv, d.nChan, d.NTimesAtom());
    GradientUvCachedEqualsDirect(uv, X, Z, None, None);
    PerfectFitGradientD(X, Z, D, d);
    ChainRuleOfZero(GradientDDirect(D, X, Z, d), uv, d.nChan, d.NTimesAtom());
    L1Zero(GradientOf(ConfigOf(X, Z, stepSize, eps), uv));
  }

  /** A step along the zero gradient leaves the parameters where they are. */
  lemma DescendZero(uv: Mat, step: real, g: Mat)
    requires |g| == |uv| && forall k :: 0 <= k < |uv| ==> |g[k]| == |uv[k]|
    requires forall k, c :: 0 <= k < |uv| && 0 <= c < |uv[k]| ==> g[k][c] == 0.0
    ensures Descend(uv, step, g) == uv
  {
    var r := Descend(uv, step, g);
    forall k | 0 <= k < |uv|
      ensures r[k] == uv[k]
    {
    }
  }

  /** `update_uv` started at parameters that reconstruct X exactly, with any non-negative
      tolerance and at least one iteration allowed, stops converged after one iteration and
      returns `prox_uv` of the starting parameters; these are the starting parameters
      themselves when every row already lies in the unit ball. */
  lemma PerfectFitStopsAtOnce(sqrt: real -> real, X: T3, Z: T3, uv: Mat, maxIter: nat, stepSize: real, eps: Option<real>)
    requires IsSqrt(sqrt)
    requires WellShaped(X, Z)
    requires IsUv(uv, |Z|, |X[0]|, DimsOf(X, Z).NTimesAtom())
    requires X == ConstructXMulti(Z, GetD(uv, |X[0]|, DimsOf(X, Z).NTimesAtom()), DimsOf(X, Z))
    requires eps.Some? ==> eps.value >= 0.0
    requires maxIter >= 1
    ensures var cfg := ConfigOf(X, Z, stepSize, eps);
      Run(StepMap(sqrt, cfg), GradSize(cfg), cfg.eps, uv, maxIter) == Outcome(ProxUv(sqrt, uv), true, 1)
    ensures var cfg := ConfigOf(X, Z, stepSize, eps);
      InUnitBall(uv) ==> Run(StepMap(sqrt, cfg), GradSize(cfg), cfg.eps, uv, maxIter) == Outcome(uv, true, 1)
  {
    var cfg := ConfigOf(X, Z, stepSize, eps);
    PerfectFitGradientUv(X, Z, uv, stepSize, eps);
    assert GradSize(cfg)(uv) <= cfg.eps;
    DescendZero(uv, cfg.step, GradientOf(cfg, uv));
    assert StepMap(sqrt, cfg)(uv) == ProxUv(sqrt, uv);
    ProxUvFeasible(sqrt, uv);
  }
}
