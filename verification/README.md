# alphacsc: rank-1 dictionary update and trend objective, in Dafny

This project models two pieces of alphacsc, a convolutional sparse coding library:

- **The rank-1 multivariate dictionary update** (`alphacsc/update_d_multi.py`). Each atom k is
  a spatial pattern u_k over `n_chan` channels times a temporal pattern v_k of
  `n_times_atom` samples. The atoms are stored as rows `uv[k] = [u_k, v_k]`.
  `update_uv` runs projected gradient descent on `uv` with a fixed step:
  - the gradient of ½‖X − X̂‖² comes from the cached sufficient statistics `ZtX` and `ZtZ`
    (`_get_d_update_constants`) through the chain rule (`_gradient_uv`);
  - every step is followed by a projection of each row onto the unit ball (`prox_uv`);
  - the loop stops at the first iteration whose gradient has an l1 norm at most `eps`.
- **Three helpers of the univariate trend model** (`alphacsc/learn_d_z_trend.py`):
  - the total-variation penalty `pen_tv`;
  - the regularised objective `objective`;
  - `compute_X_and_objective`, which evaluates that objective after rescaling every atom of
    norm at least one to unit norm and its activations by the same factor.

Numbers are mathematical reals. Tensors are nested sequences (`Vec`, `Mat`, `T3`, `T4`), read
through zero-padded accessors (`At`, `At2`, `At3`). The Euclidean norm needs a square root, so
it is a parameter `sqrt` constrained by `IsSqrt`: non-negative, and it squares back. Sums are
`Sum(n, f)`, with generic lemmas in module `Reals`.

Where the source works in place, the model does too:

- The sufficient-statistics loop of `_get_d_update_constants` fills an `array3` (method
  `GetDUpdateConstants`).
- `update_uv` keeps `uv_hat` in an `array2`, copied from `uv_hat0`. Each iteration subtracts
  `step_size * grad` in place, then projects into a fresh array, as `prox_uv` returns a new
  one (methods `Iteration`, `Descent` and `UpdateUvRun`).
- `compute_X_and_objective` copies `z_hat` and `d_hat` into arrays and rescales the masked
  rows in place (method `ComputeXAndObjective`).

Each method is proved against a specification function: `ConstantsOf`, `Run` or `FeasibleZ`.
The properties are then proved about those functions. The main ones are:

- the cached gradient equals the direct gradient through the residual;
- `_dense_transpose_convolve(Z, ·)` is the transpose of the reconstruction D ↦
  `construct_X_multi(Z, D)`, so the direct gradient is the derivative of ½‖X̂(D) − X‖²;
  at a perfect fit it vanishes and `update_uv` stops after one iteration;
- the chain rule is the adjoint of the rank-1 atom map;
- the projection lands in the unit ball, fixes exactly the points already there, and is
  idempotent;
- the loop stops at the first small gradient and, after at least one iteration, returns
  feasible atoms;
- the objective's closed form, under non-negative weights;
- the products d·z survive the feasible rescale.

## Model

| member | source | states |
|---|---|---|
| SuffStats.ZtXOf | alphacsc/update_d_multi.py:125-127 | `ZtX` has shape (n_atoms, n_chan, n_times_atom) |
| Tensors.ConvolveReversed | alphacsc/update_d_multi.py:126 | `convolve(z[::-1], x, 'valid')[tau]` and `convolve(x, z[::-1], 'valid')[tau]` are both the correlation Σ_s z[s]·x[s + tau] |
| Tensors.ConvolveValid | alphacsc/update_d_multi.py:126 | scipy's 'valid' `convolve` exchanges its arguments when the second is longer, so the result has length max(len a, len b) − min(len a, len b) + 1; `ConvolveReversed` gives its entries |
| SuffStats.ZtXEntry | alphacsc/update_d_multi.py:125-127 | `ZtX[k][p][tau]` is the sum over trials of the valid correlation of z_k with channel p of X at lag tau |
| SuffStats.ZtZOf | alphacsc/update_d_multi.py:129-140 | `ZtZ` has shape (n_atoms, n_atoms, 2·n_times_atom − 1) |
| SuffStats.ZtZOfEntry | alphacsc/update_d_multi.py:129-140 | entry e of `ZtZ[k0][k]` is the trial sum of the correlation of z_k0 and z_k at lag e − (n_times_atom − 1) |
| SuffStats.ZtZCentre | alphacsc/update_d_multi.py:135-136 | the centre entry `t0` is Σ_i ⟨z_k0,i, z_k,i⟩ |
| Tensors.DotIsLagZero | alphacsc/update_d_multi.py:136 | `(a * b).sum()` is the correlation of a and b at lag 0 |
| Tensors.DotDropLastFirst | alphacsc/update_d_multi.py:138 | `(a[:-t] * b[t:]).sum()` is the correlation of a and b at lag t |
| Tensors.DotDropFirstLast | alphacsc/update_d_multi.py:139 | `(a[t:] * b[:-t]).sum()` is the correlation of a and b at lag −t |
| Tensors.XCorrFarLag | alphacsc/update_d_multi.py:137-139 | a lag at least as long as the signals gives zero |
| Tensors.XCorrSwap | alphacsc/update_d_multi.py:138-139 | swapping the two signals negates the lag |
| SuffStats.ZtZFarLag | alphacsc/update_d_multi.py:137-139 | lags with \|t\| ≥ n_times_valid contribute nothing (the slices are empty) |
| SuffStats.ZtZSymmetric | alphacsc/update_d_multi.py:138-139 | `ZtZ[k0, k, t0 + t] == ZtZ[k, k0, t0 − t]` |
| SuffStats.LagSumSwap | alphacsc/update_d_multi.py:138-139 | swapping the two atoms negates the lag of the trial-summed correlation |
| SuffStats.ConstantsOf | alphacsc/update_d_multi.py:118-143 | the constants fit the sizes of (X, Z); `n_chan` is `X.shape[1]` |
| SuffStats.GetDUpdateConstants | alphacsc/update_d_multi.py:118-143 | the four nested loops return exactly `ConstantsOf(X, Z)` |
| SuffStats.AccumulatePair | alphacsc/update_d_multi.py:133-139 | after all trials, row (k0, k) holds every lag's trial sum; no other entry changes |
| SuffStats.AccumulateTrial | alphacsc/update_d_multi.py:134-139 | one trial adds its correlation at every lag to row (k0, k); no other entry changes |
| SuffStats.AccumulateLag | alphacsc/update_d_multi.py:135-139 | one value of t adds the lag ±t products (once at t = 0); no other entry changes |
| SuffStats.FilledTable | alphacsc/update_d_multi.py:129-140 | a table filled pair by pair equals `ZtZOf` |
| Reconstruction.GetD | alphacsc/update_d_multi.py:52 | `D[k][p][t] == uv[k][p] · uv[k][n_chan + t]` |
| Reconstruction.ConstructXMulti | alphacsc/update_d_multi.py:41 | X̂[i][p][t] is Σ_k Σ_j z_k,i[t − j] · D[k][p][j] |
| Gradient.Residual | alphacsc/update_d_multi.py:41 | `construct_X_multi(Z, D) − X` has the shape of X |
| Gradient.GradientDDirect | alphacsc/update_d_multi.py:41-42 | the direct branch has shape (n_atoms, n_chan, n_times_atom) |
| Gradient.GradientDCached | alphacsc/update_d_multi.py:35-39 | the cached branch has shape (n_atoms, n_chan, n_times_atom) |
| Gradient.DenseTransposeConvolve | alphacsc/update_d_multi.py:15-31 | the result has shape (n_atoms, n_chan, n_times_atom) |
| Gradient.DirectEntry | alphacsc/update_d_multi.py:28-31 | each entry is the trial sum of the valid convolution of the residual with the reversed z_k,i, which is a correlation |
| Gradient.CachedEntry | alphacsc/update_d_multi.py:36-39 | each entry of the cached gradient is Σ_k2 conv(ZtZ[k][k2], D[k2][p])[tau] − ZtX[k][p][tau] |
| Gradient.ResidualSplit | alphacsc/update_d_multi.py:41-42 | correlating with X̂ − X splits into correlating with X̂ minus correlating with X |
| Adjoint.TransposeIsAdjoint | alphacsc/update_d_multi.py:15-31 | `_dense_transpose_convolve(Z, ·)` is the transpose of D ↦ `construct_X_multi(Z, D)`: ⟨E, G(Z, R)⟩ = ⟨R, X̂(Z, E)⟩ for every residual R and every atom array E |
| Adjoint.LineAdjoint | alphacsc/update_d_multi.py:28-31 | proof step: the same identity for one atom, one trial and one channel |
| Adjoint.TransposeEntries | alphacsc/update_d_multi.py:28-31 | proof step: every entry of the transposed convolution is the trial sum of correlations |
| Adjoint.GradientDPairing | alphacsc/update_d_multi.py:40-42 | the direct gradient paired with a direction E is ⟨X̂(D) − X, X̂(E)⟩, the derivative of ½‖X̂(D) − X‖² at D along E |
| PerfectFit.TransposeOfZero | alphacsc/update_d_multi.py:15-31 | the transposed convolution of a zero residual is zero |
| PerfectFit.PerfectFitGradientD | alphacsc/update_d_multi.py:40-42 | when X = `construct_X_multi(Z, D)`, the direct gradient is zero |
| PerfectFit.ChainRuleOfZero | alphacsc/update_d_multi.py:54-56 | a zero `grad_d` gives zero `grad_u` and `grad_v` |
| PerfectFit.PerfectFitGradientUv | alphacsc/update_d_multi.py:45-56 | with the constants of (X, Z), `_gradient_uv` and its l1 norm vanish at parameters whose atoms reconstruct X exactly |
| PerfectFit.DescendZero | alphacsc/update_d_multi.py:106 | `uv_hat -= step_size * grad` with a zero gradient leaves uv_hat unchanged |
| PerfectFit.PerfectFitStopsAtOnce | alphacsc/update_d_multi.py:104-115 | started at such parameters with eps ≥ 0 and max_iter ≥ 1, `update_uv` stops converged after one iteration and returns `prox_uv(uv_hat0)`, which is uv_hat0 itself when every row is in the unit ball |
| Tensors.XCorrSub | alphacsc/update_d_multi.py:41-42 | correlation is linear in its second signal |
| Gradient.LagTimesTap | alphacsc/update_d_multi.py:36-39 | proof step: an atom tap times the trial-summed lag correlation is the trial sum of the tap times each trial's correlation |
| Gradient.CachedTap | alphacsc/update_d_multi.py:36-39 | proof step: one entry of `convolve(ZtZ[k][k2], D[k2][p], 'valid')` is a sum over the atom's taps and the trials of code-code correlations times the tap |
| Gradient.CachedEqualsDirect | alphacsc/update_d_multi.py:34-42 | with the constants of (X, Z), the cached branch of `_gradient_d` equals the direct branch |
| Gradient.GradientD | alphacsc/update_d_multi.py:34-42 | it fails exactly when there are no constants and X or Z is missing; otherwise the shape of D |
| Gradient.ChainRule | alphacsc/update_d_multi.py:54-56 | `grad_u[k][p] = Σ_t gD[k][p][t]·v_k[t]` and `grad_v[k][t] = Σ_p gD[k][p][t]·u_k[p]`, concatenated |
| Gradient.ChainRuleAdjoint | alphacsc/update_d_multi.py:52-56 | ⟨grad_uv[k], w⟩ equals the pairing of gD[k] with the derivative of u_k v_kᵀ in direction w (the chain rule) |
| Gradient.GradientUv | alphacsc/update_d_multi.py:45-56 | it fails exactly when there are no constants and X or Z is missing (the two asserts); the result has the shape of uv |
| Gradient.GradientUvCachedEqualsDirect | alphacsc/update_d_multi.py:45-56 | with constants, X and Z are ignored and the gradient equals the one computed from X and Z |
| Prox.RowScale | alphacsc/update_d_multi.py:60 | max(1, ‖row‖) is at least 1, equals 1 exactly inside the unit ball, and squares to ‖row‖² outside it |
| Prox.ProxRow | alphacsc/update_d_multi.py:60-61 | one row divided by max(1, ‖row‖) keeps its length; `ProxRowNorm` and `ProxRowDirection` give its norm and direction |
| Prox.ProxRowNorm | alphacsc/update_d_multi.py:59-61 | the projected row has norm ≤ 1, is unchanged inside the ball, and has norm exactly 1 outside it |
| Prox.ProxRowDirection | alphacsc/update_d_multi.py:60-61 | the projected row is the row scaled by one factor c with 0 < c ≤ 1; every entry keeps its sign and is zero exactly where the row is |
| Prox.ProxUv | alphacsc/update_d_multi.py:59-61 | the shape of uv is kept |
| Prox.ProxUvFeasible | alphacsc/update_d_multi.py:59-61 | every row of the result is in the unit ball; uv is a fixed point iff it already is |
| Prox.ProxUvIdempotent | alphacsc/update_d_multi.py:59-61 | projecting twice is projecting once |
| UpdateUv.EpsOr | alphacsc/update_d_multi.py:101-102 | a given `eps` is kept; a missing one becomes a positive tolerance (2^-23) |
| UpdateUv.L1Zero | alphacsc/update_d_multi.py:108 | `np.sum(abs(grad))` is zero iff every gradient entry is zero |
| UpdateUv.L1 | alphacsc/update_d_multi.py:108 | `np.sum(abs(grad))` is non-negative; `L1Zero` says when it vanishes |
| UpdateUv.Descend | alphacsc/update_d_multi.py:106 | after `uv_hat -= step_size * grad`, adding the step back gives uv_hat |
| UpdateUv.GradientOf | alphacsc/update_d_multi.py:105 | `_gradient_uv(uv_hat, constants=constants)` has the shape of uv_hat; `GradientUvCachedEqualsDirect` ties it to X and Z |
| UpdateUv.Step | alphacsc/update_d_multi.py:105-107 | one iteration keeps the shape and lands in the unit ball |
| UpdateUv.Run | alphacsc/update_d_multi.py:103-111 | the loop as a value: at most `max_iter` iterations, at least one when `max_iter` ≥ 1; `RunCount`, `RunStopsAtFirst` and `RunFeasible` give the rest |
| UpdateUv.RunCount | alphacsc/update_d_multi.py:104-111 | 1 ≤ iterations ≤ max_iter when max_iter ≥ 1; without convergence all max_iter iterations run |
| UpdateUv.RunStopsAtFirst | alphacsc/update_d_multi.py:104-111 | the result is the iterate after `iterations` steps; every earlier gradient was larger than eps; converged iff the last gradient was at most eps |
| UpdateUv.RunFeasible | alphacsc/update_d_multi.py:103-115 | after at least one iteration the atoms keep their shape and lie in the unit ball |
| UpdateUv.RunAdvance | alphacsc/update_d_multi.py:108-110 | proof step: one loop iteration either stops with the stepped iterate or passes it to the remaining iterations |
| UpdateUv.RunStart | alphacsc/update_d_multi.py:103-104 | proof step: before the first iteration the run is its own remainder, shifted by zero |
| UpdateUv.RunOutOfFuel | alphacsc/update_d_multi.py:104-112 | proof step: with no iteration left, the run returns the current iterate as not converged |
| UpdateUv.StepMapImplements | alphacsc/update_d_multi.py:105-108 | proof step: the step and gradient-size maps of a configuration are its iteration and `np.sum(abs(grad))` |
| UpdateUv.RunKeeps | alphacsc/update_d_multi.py:104-107 | a property every step establishes holds of the returned iterate |
| UpdateUv.ConfigOf | alphacsc/update_d_multi.py:99-102 | the constants and tolerance of `update_uv` make a valid configuration |
| UpdateUv.SubtractScaled | alphacsc/update_d_multi.py:106 | in place, `uv_hat` becomes `Descend(uv_hat, step_size, grad)` |
| UpdateUv.ProjectedStep | alphacsc/update_d_multi.py:105-107 | proof step: descending and then projecting is one step of the loop, and keeps the shape |
| UpdateUv.Iteration | alphacsc/update_d_multi.py:105-108 | `uv` itself ends as `Descend` of its old contents; a fresh array holds the next iterate; `f` is the l1 norm of the gradient at the old iterate |
| UpdateUv.Advance | alphacsc/update_d_multi.py:104-110 | one loop pass: if f ≤ eps the run ends converged with the new iterate after ii + 1 iterations; otherwise the run is the remainder from the new iterate |
| UpdateUv.Descent | alphacsc/update_d_multi.py:103-111 | the loop on a fresh copy returns exactly `Run` of the step and gradient-size maps |
| UpdateUv.UpdateUvRun | alphacsc/update_d_multi.py:64-115 | `update_uv` returns the `Run` of its configuration from `uv_hat0`, in a fresh array; `max_iter`, `step_size` and `eps` default to 300, 0.01 and None |
| Trend.RowTv | alphacsc/learn_d_z_trend.py:21 | the variation of a row is non-negative |
| Trend.PenTv | alphacsc/learn_d_z_trend.py:20-21 | `pen_tv` is non-negative |
| Trend.RowTvZero | alphacsc/learn_d_z_trend.py:21 | a row has no variation iff it is constant |
| Trend.PenTvZero | alphacsc/learn_d_z_trend.py:20-21 | `pen_tv` is zero iff every row of the trend is constant |
| Trend.RowTvSameSteps | alphacsc/learn_d_z_trend.py:21 | rows with the same absolute adjacent differences have the same variation |
| Trend.PenTvSameSteps | alphacsc/learn_d_z_trend.py:20-21 | trends with the same absolute adjacent differences have the same penalty |
| Trend.PenTvShift | alphacsc/learn_d_z_trend.py:20-21 | adding a constant to each row leaves `pen_tv` unchanged |
| Trend.PenTvNegate | alphacsc/learn_d_z_trend.py:20-21 | negating the trend leaves `pen_tv` unchanged |
| Trend.ObjResidual | alphacsc/learn_d_z_trend.py:25-27 | the residual has the shape of X |
| Trend.DataFit | alphacsc/learn_d_z_trend.py:25-28 | `0.5 * norm(residual, 'fro') ** 2` is non-negative and, with a square root, half the squared Frobenius norm |
| Trend.Objective | alphacsc/learn_d_z_trend.py:24-29 | the objective is at least its penalty terms reg_z Σz + reg_trend·pen(trend); `ObjectiveForm` gives its closed form |
| Trend.ResidualEntrySquare | alphacsc/learn_d_z_trend.py:25-27 | with a non-negative weight, the squared entry of the weighted residual is w·(X − X̂)² |
| Trend.ResidualRowSquare | alphacsc/learn_d_z_trend.py:25-28 | a residual row's squared norm is its weighted squared error |
| Trend.FroSqIsError | alphacsc/learn_d_z_trend.py:25-28 | the squared Frobenius norm of the residual is Σ w·(X − X̂)² |
| Trend.ObjectiveForm | alphacsc/learn_d_z_trend.py:24-29 | with non-negative weights, objective = ½Σ w(X − X̂)² + reg_z Σz + reg_trend·pen(trend); without weights w = 1 |
| Trend.PerfectRowSquare | alphacsc/learn_d_z_trend.py:25-27 | a row of the residual of X̂ = X has squared norm zero |
| Trend.PerfectFroSq | alphacsc/learn_d_z_trend.py:25-28 | the residual of X̂ = X has squared Frobenius norm zero |
| Trend.PerfectDataFit | alphacsc/learn_d_z_trend.py:25-28 | X̂ = X has data-fit term zero, whatever the weights |
| Trend.ObjectivePerfectFit | alphacsc/learn_d_z_trend.py:24-29 | if X̂ = X, objective = reg_z Σz + reg_trend·pen(trend), so reg_z Σz when the trend term is zero |
| Trend.ObjectiveShift | alphacsc/learn_d_z_trend.py:28 | changing only z_hat moves the objective by reg_z·(Σz' − Σz) |
| Trend.ObjectiveMono | alphacsc/learn_d_z_trend.py:28 | with reg_z ≥ 0 the objective does not drop when Σz grows |
| Trend.AtomNorms | alphacsc/learn_d_z_trend.py:40 | one norm per atom |
| Trend.DividedRows | alphacsc/learn_d_z_trend.py:42 | the shape of `d_hat` is kept |
| Trend.MultipliedBlocks | alphacsc/learn_d_z_trend.py:44 | the shape of `z_hat` is kept |
| Trend.FeasibleD | alphacsc/learn_d_z_trend.py:37-42 | the rescaled atoms keep the shape of d_hat; `FeasibleAtomNorm` gives their norms |
| Trend.FeasibleZ | alphacsc/learn_d_z_trend.py:36-44 | the rescaled activations keep the shape of z_hat; `FeasibleProducts` and `FeasibleSumAll` give their values |
| Buffers.NewMat | alphacsc/learn_d_z_trend.py:38 | `d_hat.copy()` is a fresh array holding d_hat |
| Buffers.NewT3 | alphacsc/learn_d_z_trend.py:37 | `z_hat.copy()` is a fresh array holding z_hat |
| Trend.FeasibleAtomNorm | alphacsc/learn_d_z_trend.py:40-42 | the mask holds iff ‖d_k‖² ≥ 1; a masked atom ends with norm exactly 1; an unmasked atom is unchanged |
| Trend.DividedIsScaled | alphacsc/learn_d_z_trend.py:42 | dividing a row by n is scaling it by 1/n |
| Trend.FeasibleProduct | alphacsc/learn_d_z_trend.py:40-44 | each product d[k][t]·z[k][i][s] is unchanged by the rescale |
| Trend.FeasibleProducts | alphacsc/learn_d_z_trend.py:40-44 | all products of atom k are unchanged; an unmasked atom keeps its activations |
| Trend.FeasibleOnlyRegZ | alphacsc/learn_d_z_trend.py:34-46 | X̂ is computed before the rescale, so the rescale moves the objective only by reg_z·(Σz' − Σz) |
| Trend.FeasibleRowSum | alphacsc/learn_d_z_trend.py:44 | with non-negative activations, a rescaled row's sum does not drop |
| Trend.FeasibleBlockSum | alphacsc/learn_d_z_trend.py:44 | with non-negative activations, a rescaled block's sum does not drop |
| Trend.FeasibleSumAll | alphacsc/learn_d_z_trend.py:44 | with non-negative activations, `z_hat.sum()` does not drop under the rescale |
| Trend.FeasibleNotBelow | alphacsc/learn_d_z_trend.py:32-46 | with non-negative activations and reg_z ≥ 0, the feasible evaluation is at least the plain one |
| Trend.DivideRow | alphacsc/learn_d_z_trend.py:42 | row k is divided in place; nothing else changes |
| Trend.DivideMaskedRows | alphacsc/learn_d_z_trend.py:42 | in place, the array becomes `DividedRows` of its old contents |
| Trend.MultiplyRow | alphacsc/learn_d_z_trend.py:44 | one trial of block k is multiplied in place; nothing else changes |
| Trend.MultiplyBlock | alphacsc/learn_d_z_trend.py:44 | block k is multiplied in place; nothing else changes |
| Trend.MultiplyMaskedBlocks | alphacsc/learn_d_z_trend.py:44 | in place, the array becomes `MultipliedBlocks` of its old contents |
| Trend.ComputeXAndObjective | alphacsc/learn_d_z_trend.py:32-46 | the objective of X̂ from the unprojected (z, d), with the rescaled z when `feasible_evaluation`, else with z itself |

## Left out

- Floating point: all arithmetic is exact real arithmetic. `np.finfo(np.float32).eps` is the exact value 2^-23 (`UpdateUv.Float32Eps`). Rounding, overflow and NaN are not modelled.
- The square root is the parameter `sqrt`. Every property that uses it assumes `IsSqrt`.
- `convolve`, `construct_X_multi` and `_get_D` belong to scipy and `alphacsc.utils`. They are restated as sums (`ConvAt`, `XCorr`, `ConstructXMulti`, `GetD`) rather than modelled from their source.
- `construct_X_trend` is the parameter `reconstruct` of `ComputeXAndObjective`. The defaults `pen_trend=pen_tv`, `sample_weights=None` and `feasible_evaluation=True` are the default values `PenTv`, `None` and `true` of the parameters `pen`, `weights` and `feasible` of `Objective` and `ComputeXAndObjective`.
- The sizes of the arrays are an explicit `Dims` value, and shapes are preconditions. Shape errors and numpy broadcasting are not modelled. In `objective`, X̂ is read in the shape of X, and a missing entry counts as 0.
- Trend.ObjectiveForm: negative sample weights make `np.sqrt` return NaN. The closed form is stated only for non-negative weights.
- The `debug` flag and the local `objective` closure of `update_uv` are unused by its result and are left out.
- The two `print` calls of `update_uv` are not modelled. Instead, the run returns `converged` and the number of `iterations`. When `max_iter == 0` and `verbose > 1`, the source fails on the unbound loop variable; that crash is not modelled.
- `_gradient_uv` uses `assert X is not None` and `assert Z is not None`. `if constants:` tests for a non-empty dict. Both become the `Failure` case of `GradientUv` and `GradientD`, reached when no constants are given and X or Z is missing.
- `update_uv` runs for at most `max_iter` iterations, stopping at the first whose gradient has l1 norm at most `eps`. The model's loop is `Run`, generic in its step and stopping maps. Step-size choice and convergence rates are not modelled.
- Trend.ComputeXAndObjective: the rescaled copy of `d_hat` is computed in place, as in the source, and then unused. Its properties are stated on `FeasibleD`. The inputs are values, so the copies leave them untouched by construction.
- The driver `learn_d_z_trend` and every other function of the two files are not part of this model.
