/** `update_uv`: projected gradient descent on the rank-1 atom parameters uv with a fixed
    step, using the cached sufficient statistics of (X, Z), stopping at the first iteration
    whose gradient has an l1 norm at most `eps`, or after `max_iter` iterations. */
module UpdateUv {
  import opened Reals
  import opened Tensors
  import opened Reconstruction
  import opened SuffStats
  import opened Gradient
  import opened Prox
  import opened Wrappers
  import opened Buffers

  /** `np.finfo(np.float32).eps` = 2^-23, the tolerance used when `eps` is None. */
  const Float32Eps: real := 1.0 / 8388608.0

  /** The default `max_iter` and `step_size` of `update_uv`. */
  const DefaultMaxIter: nat := 300
  const DefaultStepSize: real := 0.01

  /** The constants, the sizes, the step and the tolerance of one run. */
  datatype Config = Config(c: Constants, d: Dims, step: real, eps: real)
  {
    predicate Ready()
    {
      d.Valid() && FitsDims(c, d)
    }

    /** uv has the shape (n_atoms, n_chan + n_times_atom) this run works with. */
    predicate Fits(uv: Mat)
      requires Ready()
    {
      IsUv(uv, d.nAtoms, d.nChan, d.NTimesAtom())
    }
  }

  /** The tolerance `update_uv` uses: `eps`, or float32's machine epsilon when None. */
  function EpsOr(eps: Option<real>): (e: real)
    ensures eps.Some? ==> e == eps.value
    ensures eps.None? ==> e > 0.0
  {
    if eps.None? then Float32Eps else eps.value
  }

  /** Σ_c |v[c]| */
  function L1Row(v: Vec): (r: real)
    ensures r >= 0.0
  {
    var f := c => Abs(At(v, c));
    SumNonneg(|v|, f);
    Sum(|v|, f)
  }

  /** `np.sum(abs(g))` */
  function L1(g: Mat): (r: real)
    ensures r >= 0.0
  {
    var f := k => if 0 <= k < |g| then L1Row(g[k]) else 0.0;
    SumNonneg(|g|, f);
    Sum(|g|, f)
  }

  /** The l1 norm vanishes exactly on the zero gradient. */
  lemma L1Zero(g: Mat)
    ensures L1(g) == 0.0 <==> forall k, c :: 0 <= k < |g| && 0 <= c < |g[k]| ==> g[k][c] == 0.0
  {
    var f := k => if 0 <= k < |g| then L1Row(g[k]) else 0.0;
    if L1(g) == 0.0 {
      SumZeroTerms(|g|, f);
      forall k, c | 0 <= k < |g| && 0 <= c < |g[k]|
        ensures g[k][c] == 0.0
      {
        assert f(k) == 0.0;
        var h := c => Abs(At(g[k], c));
        assert L1Row(g[k]) == Sum(|g[k]|, h);
        SumZeroTerms(|g[k]|, h);
        assert h(c) == 0.0;
      }
    }
    if forall k, c :: 0 <= k < |g| && 0 <= c < |g[k]| ==> g[k][c] == 0.0 {
      forall k | 0 <= k < |g|
        ensures f(k) == 0.0
      {
        SumZero(|g[k]|, c => Abs(At(g[k], c)));
      }
      SumZero(|g|, f);
    }
  }

  /** `_gradient_uv(uv, constants=constants)` */
  function GradientOf(cfg: Config, uv: Mat): (g: Mat)
    requires cfg.Ready() && cfg.Fits(uv)
    ensures cfg.Fits(g)
  {
    GradientUv(uv, None, None, Some(cfg.c), cfg.d).value
  }

  /** `uv_hat -= step_size * grad` */
  function Descend(uv: Mat, step: real, g: Mat): (r: Mat)
    requires |g| == |uv| && forall k :: 0 <= k < |uv| ==> |g[k]| == |uv[k]|
    ensures |r| == |uv| && forall k :: 0 <= k < |uv| ==> |r[k]| == |uv[k]|
    ensures forall k, j :: 0 <= k < |uv| && 0 <= j < |uv[k]| ==> r[k][j] + step * g[k][j] == uv[k][j]
  {
    seq(|uv|, k requires 0 <= k < |uv| => seq(|uv[k]|, j requires 0 <= j < |uv[k]| => uv[k][j] - step * g[k][j]))
  }

  /** One iteration: a gradient step followed by `prox_uv`. */
  function Step(sqrt: real -> real, cfg: Config, uv: Mat): (r: Mat)
    requires IsSqrt(sqrt) && cfg.Ready() && cfg.Fits(uv)
    ensures cfg.Fits(r)
    ensures InUnitBall(r)
  {
    var g := GradientOf(cfg, uv);
    ProxUvFeasible(sqrt, Descend(uv, cfg.step, g));
    ProxUv(sqrt, Descend(uv, cfg.step, g))
  }

  /** What `update_uv` returns, with whether it stopped early (no 'did not converge' message)
      and how many iterations it ran (the `ii + 1` it reports). */
  datatype Outcome = Outcome(uv: Mat, converged: bool, iterations: nat)

  lemma RunOutOfFuel(next: Mat -> Mat, size: Mat -> real, eps: real, uv: Mat, k: nat)
    ensures Shifted(Run(next, size, eps, uv, 0), k) == Outcome(uv, false, k)
  {
  }

  /** A run that has not started yet, as the loop's invariant states it. */
  lemma RunStart(next: Mat -> Mat, size: Mat -> real, eps: real, uv: Mat, total: nat)
    ensures Run(next, size, eps, uv, total) == Shifted(Run(next, size, eps, uv, total - 0), 0)
  {
  }

  /** The same outcome, k iterations later. */
  function Shifted(o: Outcome, k: nat): Outcome
  {
    Outcome(o.uv, o.converged, o.iterations + k)
  }

  /** The iterate after j applications of `next` to uv. */
  function Walk(next: Mat -> Mat, uv: Mat, j: nat): Mat
    decreases j
  {
    if j == 0 then uv else Walk(next, next(uv), j - 1)
  }

  /** The loop of `update_uv` with `fuel` iterations left, for an update `next` and a
      stopping statistic `size` of the gradient at the current iterate: each iteration
      updates, then stops if the statistic was at most `eps`. */
  function Run(next: Mat -> Mat, size: Mat -> real, eps: real, uv: Mat, fuel: nat): (o: Outcome)
    ensures o.iterations <= fuel
    ensures fuel >= 1 ==> o.iterations >= 1
    decreases fuel
  {
    if fuel == 0 then Outcome(uv, false, 0)
    else if size(uv) <= eps then Outcome(next(uv), true, 1)
    else Shifted(Run(next, size, eps, next(uv), fuel - 1), 1)
  }

  /** The loop runs at most `max_iter` iterations, at least one when `max_iter` >= 1, and all
      of them when it does not converge. */
  lemma {:induction false} RunCount(next: Mat -> Mat, size: Mat -> real, eps: real, uv: Mat, fuel: nat)
    ensures Run(next, size, eps, uv, fuel).iterations <= fuel
    ensures fuel >= 1 ==> Run(next, size, eps, uv, fuel).iterations >= 1
    ensures !Run(next, size, eps, uv, fuel).converged ==> Run(next, size, eps, uv, fuel).iterations == fuel
    decreases fuel
  {
    if fuel > 0 && size(uv) > eps {
      RunCount(next, size, eps, next(uv), fuel - 1);
    }
  }

  /** The result is the iterate after as many updates as were run, the statistic was above
      `eps` at every iterate before the last one, and the run converged exactly when it was
      not above `eps` at the last one. */
  lemma {:induction false} RunStopsAtFirst(next: Mat -> Mat, size: Mat -> real, eps: real, uv: Mat, fuel: nat)
    ensures var o := Run(next, size, eps, uv, fuel);
      o.uv == Walk(next, uv, o.iterations) &&
      (forall j :: 0 <= j < o.iterations - 1 ==> size(Walk(next, uv, j)) > eps) &&
      (o.converged <==> o.iterations >= 1 && size(Walk(next, uv, o.iterations - 1)) <= eps)
    decreases fuel
  {
    if fuel > 0 && size(uv) > eps {
      RunStopsAtFirst(next, size, eps, next(uv), fuel - 1);
      RunCount(next, size, eps, next(uv), fuel - 1);
      var o := Run(next, size, eps, next(uv), fuel - 1);
      forall j | 0 <= j < o.iterations
        ensures size(Walk(next, uv, j)) > eps
      {
        if j > 0 {
          assert Walk(next, uv, j) == Walk(next, next(uv), j - 1);
        }
      }
    }
  }

  /** One more iteration of a run that has not stopped yet. */
  lemma RunAdvance(next: Mat -> Mat, size: Mat -> real, eps: real, uv0: Mat, total: nat, uv: Mat, ii: nat)
    requires ii < total
    requires Run(next, size, eps, uv0, total) == Shifted(Run(next, size, eps, uv, total - ii), ii)
    ensures size(uv) <= eps ==> Run(next, size, eps, uv0, total) == Outcome(next(uv), true, ii + 1)
    ensures size(uv) > eps ==>
      Run(next, size, eps, uv0, total) == Shifted(Run(next, size, eps, next(uv), total - (ii + 1)), ii + 1)
  {
  }

  /** A property that every update establishes and keeps holds of the result of any run of
      at least one iteration. */
  lemma {:induction false} RunKeeps(next: Mat -> Mat, size: Mat -> real, eps: real, uv: Mat, fuel: nat,
                                    fit: Mat -> bool, good: Mat -> bool)
    requires fit(uv)
    requires forall x :: fit(x) ==> fit(next(x)) && good(next(x))
    requires fuel >= 1
    ensures fit(Run(next, size, eps, uv, fuel).uv) && good(Run(next, size, eps, uv, fuel).uv)
    decreases fuel
  {
    if size(uv) > eps && fuel > 1 {
      RunKeeps(next, size, eps, next(uv), fuel - 1, fit, good);
    }
  }

  /** The update of one iteration of `update_uv` on parameters of the right shape, and the
      identity elsewhere. */
  ghost function StepOr(sqrt: real -> real, cfg: Config, uv: Mat): Mat
  {
    if IsSqrt(sqrt) && cfg.Ready() && cfg.Fits(uv) then Step(sqrt, cfg, uv) else uv
  }

  ghost function StepMap(sqrt: real -> real, cfg: Config): Mat -> Mat
  {
    uv => StepOr(sqrt, cfg, uv)
  }

  /** `np.sum(abs(grad))` at parameters of the right shape, and 0 elsewhere. */
  function SizeOr(cfg: Config, uv: Mat): real
  {
    if cfg.Ready() && cfg.Fits(uv) then L1(GradientOf(cfg, uv)) else 0.0
  }

  function GradSize(cfg: Config): Mat -> real
  {
    uv => SizeOr(cfg, uv)
  }

  /** The configuration `update_uv(X, Z, ...)` runs with. */
  function ConfigOf(X: T3, Z: T3, stepSize: real, eps: Option<real>): (cfg: Config)
    requires WellShaped(X, Z)
    ensures cfg.Ready()
  {
    Config(ConstantsOf(X, Z), DimsOf(X, Z), stepSize, EpsOr(eps))
  }

  /** After at least one iteration, `update_uv` returns parameters of the same shape whose
      every row lies in the unit ball. */
  lemma RunFeasible(sqrt: real -> real, cfg: Config, uv0: Mat, fuel: nat)
    requires IsSqrt(sqrt) && cfg.Ready() && cfg.Fits(uv0)
    requires fuel >= 1
    ensures cfg.Fits(Run(StepMap(sqrt, cfg), GradSize(cfg), cfg.eps, uv0, fuel).uv)
    ensures InUnitBall(Run(StepMap(sqrt, cfg), GradSize(cfg), cfg.eps, uv0, fuel).uv)
  {
    RunKeeps(StepMap(sqrt, cfg), GradSize(cfg), cfg.eps, uv0, fuel, uv => cfg.Fits(uv), InUnitBall);
  }

  /** `uv_hat[i] -= step_size * g_i` on one row, in place. */
  method SubtractScaledRow(a: array2<real>, i: nat, step: real, gi: Vec)
    requires i < a.Length0 && |gi| == a.Length1
    modifies a
    ensures forall r, c :: 0 <= r < a.Length0 && 0 <= c < a.Length1 ==>
              a[r, c] == if r == i then old(a[r, c]) - step * gi[c] else old(a[r, c])
  {
    var j := 0;
    while j < a.Length1
      invariant 0 <= j <= a.Length1
      invariant forall r, c :: 0 <= r < a.Length0 && 0 <= c < a.Length1 ==>
                  a[r, c] == if r == i && c < j then old(a[r, c]) - step * gi[c] else old(a[r, c])
    {
      a[i, j] := a[i, j] - step * gi[j];
      j := j + 1;
    }
  }

  /** `uv_hat -= step_size * grad`, in place. */
  method SubtractScaled(a: array2<real>, step: real, g: Mat)
    requires IsMat(g, a.Length0, a.Length1)
    modifies a
    ensures Contents2(a) == Descend(old(Contents2(a)), step, g)
  {
    ghost var before := Contents2(a);
    var i := 0;
    while i < a.Length0
      invariant 0 <= i <= a.Length0
      invariant forall r, c :: 0 <= r < a.Length0 && 0 <= c < a.Length1 ==>
                  a[r, c] == if r < i then before[r][c] - step * g[r][c] else before[r][c]
    {
      SubtractScaledRow(a, i, step, g[i]);
      i := i + 1;
    }
    ghost var want := Descend(before, step, g);
    forall r | 0 <= r < a.Length0
      ensures Contents2(a)[r] == want[r]
    {
      assert forall c :: 0 <= c < a.Length1 ==> Contents2(a)[r][c] == want[r][c];
    }
  }

  /** Projecting the stepped parameters is one iteration's update. */
  lemma ProjectedStep(sqrt: real -> real, cfg: Config, uv: Mat, stepped: Mat)
    requires IsSqrt(sqrt) && cfg.Ready() && cfg.Fits(uv)
    requires stepped == Descend(uv, cfg.step, GradientOf(cfg, uv))
    ensures cfg.Fits(ProxUv(sqrt, stepped))
    ensures ProxUv(sqrt, stepped) == StepOr(sqrt, cfg, uv)
  {
  }

  /** The body of the loop of `update_uv`: the gradient at `uv_hat`, the step taken in place
      on `uv_hat`, `prox_uv` into a new array, and the l1 norm of the gradient. */
  method Iteration(sqrt: real -> real, cfg: Config, uv: array2<real>) returns (uvNext: array2<real>, f: real)
    requires IsSqrt(sqrt) && cfg.Ready() && cfg.Fits(Contents2(uv))
    modifies uv
    ensures fresh(uvNext)
    ensures Contents2(uv) == Descend(old(Contents2(uv)), cfg.step, GradientOf(cfg, old(Contents2(uv))))
    ensures cfg.Fits(Contents2(uvNext))
    ensures Contents2(uvNext) == StepOr(sqrt, cfg, old(Contents2(uv)))
    ensures f == SizeOr(cfg, old(Contents2(uv)))
  {
    var grad := GradientOf(cfg, Contents2(uv));
    assert |Contents2(uv)[0]| == uv.Length1;
    SubtractScaled(uv, cfg.step, grad);
    ProjectedStep(sqrt, cfg, old(Contents2(uv)), Contents2(uv));
    var projected := ProxUv(sqrt, Contents2(uv));
    uvNext := NewMat(projected, uv.Length0, uv.Length1);
    f := L1(grad);
  }

  /** `next` and `size` are the update and the statistic of this configuration. The loop
      below reasons about them through this link only, which is made when the concrete update
      is in view. */
  ghost predicate Implements(sqrt: real -> real, cfg: Config, next: Mat -> Mat, size: Mat -> real)
  {
    forall uv {:trigger StepOr(sqrt, cfg, uv)} :: next(uv) == StepOr(sqrt, cfg, uv) && size(uv) == SizeOr(cfg, uv)
  }

  lemma StepMapImplements(sqrt: real -> real, cfg: Config)
    ensures Implements(sqrt, cfg, StepMap(sqrt, cfg), GradSize(cfg))
  {
  }

  /** One pass of the loop of `update_uv`, seen from the run it belongs to: the run that
      started at `start` with `total` iterations allowed, and has done `ii` of them. */
  method Advance(sqrt: real -> real, cfg: Config, ghost next: Mat -> Mat, ghost size: Mat -> real,
                 uv: array2<real>, ghost start: Mat, ghost total: nat, ghost ii: nat)
    returns (uvNext: array2<real>, f: real)
    requires IsSqrt(sqrt) && cfg.Ready() && Implements(sqrt, cfg, next, size)
    requires cfg.Fits(Contents2(uv)) && ii < total
    requires Run(next, size, cfg.eps, start, total) == Shifted(Run(next, size, cfg.eps, Contents2(uv), total - ii), ii)
    modifies uv
    ensures fresh(uvNext)
    ensures cfg.Fits(Contents2(uvNext))
    ensures f <= cfg.eps ==> Run(next, size, cfg.eps, start, total) == Outcome(Contents2(uvNext), true, ii + 1)
    ensures f > cfg.eps ==>
      Run(next, size, cfg.eps, start, total) == Shifted(Run(next, size, cfg.eps, Contents2(uvNext), total - (ii + 1)), ii + 1)
  {
    RunAdvance(next, size, cfg.eps, start, total, Contents2(uv), ii);
    uvNext, f := Iteration(sqrt, cfg, uv);
  }

  /** The loop of `update_uv` on a fresh copy of `uv_hat0`, which it never writes to: it
      returns the outcome of `Run` with the update and the statistic of this configuration. */
  method Descent(sqrt: real -> real, cfg: Config, ghost next: Mat -> Mat, ghost size: Mat -> real,
                 uv0: array2<real>, maxIter: nat)
    returns (uvHat: array2<real>, converged: bool, iterations: nat)
    requires IsSqrt(sqrt) && cfg.Ready() && Implements(sqrt, cfg, next, size)
    requires cfg.Fits(Contents2(uv0))
    ensures fresh(uvHat)
    ensures Outcome(Contents2(uvHat), converged, iterations) == Run(next, size, cfg.eps, Contents2(uv0), maxIter)
  {
    ghost var start := Contents2(uv0);
    uvHat := NewMat(Contents2(uv0), uv0.Length0, uv0.Length1);
    converged := false;
    var ii := 0;
    RunStart(next, size, cfg.eps, start, maxIter);
    while ii < maxIter && !converged
      invariant 0 <= ii <= maxIter
      invariant fresh(uvHat)
      invariant cfg.Fits(Contents2(uvHat))
      invariant !converged ==>
        Run(next, size, cfg.eps, start, maxIter) == Shifted(Run(next, size, cfg.eps, Contents2(uvHat), maxIter - ii), ii)
      invariant converged ==> Run(next, size, cfg.eps, start, maxIter) == Outcome(Contents2(uvHat), true, ii)
      decreases maxIter - ii
    {
      var f;
      uvHat, f := Advance(sqrt, cfg, next, size, uvHat, start, maxIter, ii);
      ii := ii + 1;
      if f <= cfg.eps {
        converged := true;
      }
    }
    RunOutOfFuel(next, size, cfg.eps, Contents2(uvHat), ii);
    iterations := ii;
  }

  /** `update_uv(X, Z, uv_hat0, max_iter=max_iter, step_size=step_size, eps=eps)`: the
      constants of (X, Z), then the loop on a copy of `uv_hat0`. */
  method UpdateUvRun(sqrt: real -> real, X: T3, Z: T3, uv0: array2<real>, maxIter: nat := DefaultMaxIter,
                     stepSize: real := DefaultStepSize, eps: Option<real> := None)
    returns (uvHat: array2<real>, converged: bool, iterations: nat)
    requires IsSqrt(sqrt)
    requires WellShaped(X, Z)
    requires IsUv(Contents2(uv0), |Z|, |X[0]|, DimsOf(X, Z).NTimesAtom())
    ensures fresh(uvHat)
    ensures var cfg := ConfigOf(X, Z, stepSize, eps);
      Outcome(Contents2(uvHat), converged, iterations) == Run(StepMap(sqrt, cfg), GradSize(cfg), cfg.eps, Contents2(uv0), maxIter)
  {
    var constants := GetDUpdateConstants(X, Z);
    var cfg := Config(constants, DimsOf(X, Z), stepSize, EpsOr(eps));
    StepMapImplements(sqrt, cfg);
    uvHat, converged, iterations := Descent(sqrt, cfg, StepMap(sqrt, cfg), GradSize(cfg), uv0, maxIter);
  }
}
