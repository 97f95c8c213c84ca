/** The reconstruction operator the dictionary update relies on: the expansion of rank-1
    atom parameters into full atoms (`_get_D`) and the multichannel reconstruction of the
    signal from codes and atoms (`construct_X_multi`). Both live in `alphacsc/utils`, which
    is not part of this model; they are restated here by their meaning as explicit sums.

    Shapes follow the dictionary update: the code Z is (n_atoms, n_trials, n_times_valid),
    the data X is (n_trials, n_chan, n_times), the rank-1 parameters uv are
    (n_atoms, n_chan + n_times_atom) and the full atoms D are (n_atoms, n_chan, n_times_atom),
    where n_times_atom = n_times - n_times_valid + 1. */
module Reconstruction {
  import opened Reals
  import opened Tensors

  /** The sizes read off the shapes of Z and X. */
  datatype Dims = Dims(nAtoms: nat, nTrials: nat, nChan: nat, nTimes: nat, nTimesValid: nat)
  {
    /** Every size is at least one and the data is at least as long as the code. */
    predicate Valid()
    {
      nAtoms >= 1 && nTrials >= 1 && nChan >= 1 && nTimesValid >= 1 && nTimes >= nTimesValid
    }

    /** n_times_atom = n_times - n_times_valid + 1 */
    function NTimesAtom(): (L: nat)
      requires Valid()
      ensures L >= 1
      ensures nTimes == nTimesValid + L - 1
    {
      nTimes - nTimesValid + 1
    }
  }

  /** `n_atoms, n_trials, n_times_valid = Z.shape` and `_, n_chan, n_times = X.shape`. */
  function DimsOf(X: T3, Z: T3): Dims
    requires |Z| > 0 && |Z[0]| > 0 && |X| > 0 && |X[0]| > 0
  {
    Dims(|Z|, |Z[0]|, |X[0]|, |X[0][0]|, |Z[0][0]|)
  }

  /** Z and X are rectangular arrays of the documented shapes, agreeing on the number of
      trials, with no empty dimension. */
  predicate WellShaped(X: T3, Z: T3)
  {
    |Z| > 0 && |Z[0]| > 0 && |X| > 0 && |X[0]| > 0 &&
    var d := DimsOf(X, Z);
    d.Valid() &&
    IsT3(Z, d.nAtoms, d.nTrials, d.nTimesValid) &&
    IsT3(X, d.nTrials, d.nChan, d.nTimes)
  }

  /** uv has one row of n_chan spatial weights followed by n_times_atom temporal weights
      per atom. */
  predicate IsUv(uv: Mat, nAtoms: nat, nChan: nat, nTimesAtom: nat)
  {
    IsMat(uv, nAtoms, nChan + nTimesAtom)
  }

  /** `_get_D(uv, n_chan)`: the full atom of a rank-1 parameter row is the outer product of
      its spatial part u = uv[k][..n_chan] and its temporal part v = uv[k][n_chan..]. */
  function GetD(uv: Mat, nChan: nat, nTimesAtom: nat): (D: T3)
    requires IsUv(uv, |uv|, nChan, nTimesAtom)
    ensures IsT3(D, |uv|, nChan, nTimesAtom)
    ensures forall k, p, t :: 0 <= k < |uv| && 0 <= p < nChan && 0 <= t < nTimesAtom ==>
              D[k][p][t] == uv[k][p] * uv[k][nChan + t]
  {
    seq(|uv|, k requires 0 <= k < |uv| =>
      seq(nChan, p requires 0 <= p < nChan =>
        seq(nTimesAtom, t requires 0 <= t < nTimesAtom => uv[k][p] * uv[k][nChan + t])))
  }

  /** Atom k's share of entry (i, p, t) of the reconstruction: Σ_j Z[k][i][t - j] · D[k][p][j]. */
  function AtomShare(Z: T3, D: T3, nTimesAtom: nat, k: int, i: int, p: int, t: int): real
  {
    Sum(nTimesAtom, j => At3(Z, k, i, t - j) * At3(D, k, p, j))
  }

  /** j ↦ Z[k][i][t - j] · D[k][p][j]: the tap terms of one atom's share of an entry. */
  function Taps(Z: T3, D: T3, k: int, i: int, p: int, t: int): int -> real
  {
    j => At3(Z, k, i, t - j) * At3(D, k, p, j)
  }

  /** An atom's share is the sum of its taps. */
  lemma AtomShareTaps(Z: T3, D: T3, nTimesAtom: nat, k: int, i: int, p: int, t: int)
    ensures AtomShare(Z, D, nTimesAtom, k, i, p, t) == Sum(nTimesAtom, Taps(Z, D, k, i, p, t))
  {
  }

  /** k ↦ (z_k,i ∗ D[k][p])[t]: the atom terms of one entry of X̂(Z, D). */
  function Shares(Z: T3, D: T3, L: nat, i: int, p: int, t: int): int -> real
  {
    k => AtomShare(Z, D, L, k, i, p, t)
  }

  /** Entry (i, p, t) of the reconstruction: Σ_k Σ_j Z[k][i][t - j] · D[k][p][j]. */
  function XHatAt(Z: T3, D: T3, nAtoms: nat, nTimesAtom: nat, i: int, p: int, t: int): real
  {
    Sum(nAtoms, k => AtomShare(Z, D, nTimesAtom, k, i, p, t))
  }

  /** `construct_X_multi(Z, D)`: for each trial and channel, the sum over atoms of the full
      convolution of the code row with the atom, of length n_times_valid + n_times_atom - 1. */
  function ConstructXMulti(Z: T3, D: T3, d: Dims): (Xh: T3)
    requires d.Valid()
    requires IsT3(Z, d.nAtoms, d.nTrials, d.nTimesValid)
    requires IsT3(D, d.nAtoms, d.nChan, d.NTimesAtom())
    ensures IsT3(Xh, d.nTrials, d.nChan, d.nTimes)
    ensures forall i, p, t :: 0 <= i < d.nTrials && 0 <= p < d.nChan && 0 <= t < d.nTimes ==>
              Xh[i][p][t] == XHatAt(Z, D, d.nAtoms, d.NTimesAtom(), i, p, t)
  {
    seq(d.nTrials, i => seq(d.nChan, p => seq(d.nTimes, t =>
      XHatAt(Z, D, d.nAtoms, d.NTimesAtom(), i, p, t))))
  }
}
