/** The sufficient-statistics builder `_get_d_update_constants(X, Z)`: the trial-summed
    cross-correlation ZtX of each code row with each data channel, and the lag table ZtZ
    of each pair of code rows over all relative lags -(n_times_atom - 1) .. n_times_atom - 1,
    stored with the zero lag at index t0 = n_times_atom - 1. */
module SuffStats {
  import opened Reals
  import opened Tensors
  import opened Reconstruction
  import opened Buffers

  /** The `constants` dictionary: keys 'ZtX', 'ZtZ' and 'n_chan'. */
  datatype Constants = Constants(ZtX: T3, ZtZ: T3, nChan: nat)

  /** Σ_i Σ_s Z[k0][i][s] · Z[k][i][s + d]: the code rows k0 and k correlated at lag d,
      summed over the first n trials. */
  function LagSum(Z: T3, k0: int, k: int, d: int, n: nat): real
  {
    Sum(n, i => XCorr(Row(Z, k0, i), Row(Z, k, i), d))
  }

  /** The per-trial terms of LagSum, as a named function of the trial. */
  function LagTerms(Z: T3, k0: int, k: int, d: int): int -> real
  {
    i => XCorr(Row(Z, k0, i), Row(Z, k, i), d)
  }

  lemma LagSumTerms(Z: T3, k0: int, k: int, d: int, n: nat)
    ensures LagSum(Z, k0, k, d, n) == Sum(n, LagTerms(Z, k0, k, d))
  {
  }

  /** Σ_i Σ_s Z[k][i][s] · Y[i][p][s + tau]: code row k correlated with channel p of Y at
      lag tau, summed over the first n trials. */
  function TrialXCorr(Z: T3, Y: T3, k: int, p: int, tau: int, n: nat): real
  {
    Sum(n, i => XCorr(Row(Z, k, i), Row(Y, i, p), tau))
  }

  /** The four-dimensional list built by the comprehension of 'ZtX':
      entry [k][i][p] is `convolve(Z[k][i][::-1], X[i][p], mode='valid')`. */
  function ZtXTerms(X: T3, Z: T3): (A: T4)
    requires WellShaped(X, Z)
    ensures var d := DimsOf(X, Z); IsT4(A, d.nAtoms, d.nTrials, d.nChan, d.NTimesAtom())
  {
    var d := DimsOf(X, Z);
    seq(d.nAtoms, k requires 0 <= k < d.nAtoms => seq(d.nTrials, i requires 0 <= i < d.nTrials => seq(d.nChan, p requires 0 <= p < d.nChan =>
      ConvolveValid(Reverse(Z[k][i]), X[i][p]))))
  }

  /** 'ZtX': the comprehension summed over its trial axis. */
  function ZtXOf(X: T3, Z: T3): (ZtX: T3)
    requires WellShaped(X, Z)
    ensures var d := DimsOf(X, Z); IsT3(ZtX, d.nAtoms, d.nChan, d.NTimesAtom())
  {
    var d := DimsOf(X, Z);
    SumAxis1(ZtXTerms(X, Z), d.nAtoms, d.nTrials, d.nChan, d.NTimesAtom())
  }

  /** The lag table the loops of `_get_d_update_constants` fill: entry [k0][k][t0 + d] is
      LagSum(Z, k0, k, d, n_trials) for every lag d with |d| < n_times_atom. */
  function ZtZOf(Z: T3, d: Dims): (ZtZ: T3)
    requires d.Valid()
    ensures IsT3(ZtZ, d.nAtoms, d.nAtoms, 2 * d.NTimesAtom() - 1)
  {
    var L := d.NTimesAtom();
    seq(d.nAtoms, k0 => seq(d.nAtoms, k => seq(2 * L - 1, e => LagSum(Z, k0, k, e - (L - 1), d.nTrials))))
  }

  /** Reading the lag table: entry [k0][k][e] is the lag sum at lag e - t0. */
  lemma ZtZOfEntry(Z: T3, d: Dims, k0: nat, k: nat, e: nat)
    requires d.Valid()
    requires k0 < d.nAtoms && k < d.nAtoms && e < 2 * d.NTimesAtom() - 1
    ensures ZtZOf(Z, d)[k0][k][e] == LagSum(Z, k0, k, e - (d.NTimesAtom() - 1), d.nTrials)
  {
  }

  /** The record `_get_d_update_constants(X, Z)` returns. */
  function ConstantsOf(X: T3, Z: T3): (c: Constants)
    requires WellShaped(X, Z)
    ensures FitsDims(c, DimsOf(X, Z))
  {
    var d := DimsOf(X, Z);
    Constants(ZtXOf(X, Z), ZtZOf(Z, d), d.nChan)
  }

  /** The three shape facts of the constants: ZtX is (n_atoms, n_chan, n_times_atom), ZtZ is
      (n_atoms, n_atoms, 2 n_times_atom - 1) with n_times_atom = n_times - n_times_valid + 1,
      and n_chan is the channel count of X. */
  predicate FitsDims(c: Constants, d: Dims)
    requires d.Valid()
  {
    IsT3(c.ZtX, d.nAtoms, d.nChan, d.NTimesAtom()) &&
    IsT3(c.ZtZ, d.nAtoms, d.nAtoms, 2 * d.NTimesAtom() - 1) &&
    c.nChan == d.nChan
  }

  /** 'ZtX' is the trial-summed valid cross-correlation:
      ZtX[k][p][tau] = Σ_i Σ_s Z[k][i][s] · X[i][p][s + tau]. */
  lemma ZtXEntry(X: T3, Z: T3, k: nat, p: nat, tau: nat)
    requires WellShaped(X, Z)
    requires k < |Z| && p < |X[0]| && tau < DimsOf(X, Z).NTimesAtom()
    ensures ZtXOf(X, Z)[k][p][tau] == TrialXCorr(Z, X, k, p, tau, |Z[0]|)
  {
    var d := DimsOf(X, Z);
    var A := ZtXTerms(X, Z);
    var f := i => XCorr(Row(Z, k, i), Row(X, i, p), tau);
    forall i | 0 <= i < d.nTrials
      ensures f(i) == A[k][i][p][tau]
    {
      ConvolveReversed(Z[k][i], X[i][p], tau);
    }
    SumAxis1At(A, d.nAtoms, d.nTrials, d.nChan, d.NTimesAtom(), k, p, tau, f);
  }

  /** Z is a code tensor of the sizes d. */
  predicate IsCode(Z: T3, d: Dims)
  {
    d.Valid() && IsT3(Z, d.nAtoms, d.nTrials, d.nTimesValid)
  }

  /** The centre of the lag table holds the trial-summed inner products:
      ZtZ[k0][k][t0] = Σ_i ⟨Z[k0][i], Z[k][i]⟩. */
  lemma ZtZCentre(Z: T3, d: Dims, k0: nat, k: nat)
    requires IsCode(Z, d)
    requires k0 < d.nAtoms && k < d.nAtoms
    ensures ZtZOf(Z, d)[k0][k][d.NTimesAtom() - 1] == Sum(d.nTrials, i => Dot(Row(Z, k0, i), Row(Z, k, i)))
  {
    var f := i => XCorr(Row(Z, k0, i), Row(Z, k, i), 0);
    var g := i => Dot(Row(Z, k0, i), Row(Z, k, i));
    forall i | 0 <= i < d.nTrials
      ensures f(i) == g(i)
    {
      DotIsLagZero(Z[k0][i], Z[k][i]);
    }
    SumExt(d.nTrials, f, g);
    assert ZtZOf(Z, d)[k0][k][d.NTimesAtom() - 1] == LagSum(Z, k0, k, 0, d.nTrials);
  }

  /** Lags at least as long as the code rows contribute nothing:
      ZtZ[k0][k][t0 + t] = 0 whenever n_times_valid <= |t| < n_times_atom. */
  lemma ZtZFarLag(Z: T3, d: Dims, k0: nat, k: nat, t: int)
    requires IsCode(Z, d)
    requires k0 < d.nAtoms && k < d.nAtoms
    requires d.nTimesValid <= t < d.NTimesAtom() || -(d.NTimesAtom() as int) < t <= -(d.nTimesValid as int)
    ensures ZtZOf(Z, d)[k0][k][d.NTimesAtom() - 1 + t] == 0.0
  {
    var f := i => XCorr(Row(Z, k0, i), Row(Z, k, i), t);
    forall i | 0 <= i < d.nTrials
      ensures f(i) == 0.0
    {
      XCorrFarLag(Z[k0][i], Z[k][i], t);
    }
    SumZero(d.nTrials, f);
    assert ZtZOf(Z, d)[k0][k][d.NTimesAtom() - 1 + t] == LagSum(Z, k0, k, t, d.nTrials);
  }

  /** Swapping the two atoms negates the lag: ZtZ[k0][k][t0 + t] = ZtZ[k][k0][t0 - t]. */
  lemma ZtZSymmetric(Z: T3, d: Dims, k0: nat, k: nat, t: int)
    requires IsCode(Z, d)
    requires k0 < d.nAtoms && k < d.nAtoms
    requires -(d.NTimesAtom() as int) < t < d.NTimesAtom()
    ensures ZtZOf(Z, d)[k0][k][d.NTimesAtom() - 1 + t] == ZtZOf(Z, d)[k][k0][d.NTimesAtom() - 1 - t]
  {
    var L := d.NTimesAtom();
    assert PairShaped(Z, k0, k, d.nTrials);
    LagSumSwap(Z, k0, k, t, d.nTrials);
    ZtZOfEntry(Z, d, k0, k, L - 1 + t);
    ZtZOfEntry(Z, d, k, k0, L - 1 - t);
  }

  /** LagSum(Z, k0, k, t, n) = LagSum(Z, k, k0, -t, n). */
  lemma LagSumSwap(Z: T3, k0: nat, k: nat, t: int, n: nat)
    requires PairShaped(Z, k0, k, n)
    ensures LagSum(Z, k0, k, t, n) == LagSum(Z, k, k0, -t, n)
  {
    var f := i => XCorr(Row(Z, k0, i), Row(Z, k, i), t);
    var g := i => XCorr(Row(Z, k, i), Row(Z, k0, i), -t);
    forall i | 0 <= i < n
      ensures f(i) == g(i)
    {
      XCorrSwap(Z[k0][i], Z[k][i], t);
    }
    SumExt(n, f, g);
  }

  /** The lag table as the loops leave it after the first `pairs` atom pairs (in the order
      k0, then k) have been accumulated; entries of later pairs are still zero. */
  ghost function Filled(Z: T3, nTrials: nat, L: nat, k0: int, k: int, a: int, b: int, e: int): real
  {
    if a < k0 || (a == k0 && b < k) then LagSum(Z, a, b, e - (L - 1), nTrials) else 0.0
  }

  /** The entry ZtZ[k0][k][e] part way through trial i: trials before i are complete, and for
      trial i the lags t with |t| < tDone have been added. */
  ghost function Partial(Z: T3, L: nat, k0: int, k: int, e: int, i: nat, tDone: int): real
  {
    var lag := e - (L - 1);
    LagSum(Z, k0, k, lag, i) + if -tDone < lag < tDone then XCorr(Row(Z, k0, i), Row(Z, k, i), lag) else 0.0
  }

  /** `_get_d_update_constants(X, Z)`: ZtX from its comprehension, ZtZ by accumulating,
      for every atom pair and trial, the lag-0 inner product once and the lag ±t products of
      the shifted slices `Z[k0, i, :-t] * Z[k, i, t:]` and `Z[k0, i, t:] * Z[k, i, :-t]`. */
  method GetDUpdateConstants(X: T3, Z: T3) returns (c: Constants)
    requires WellShaped(X, Z)
    ensures c == ConstantsOf(X, Z)
  {
    var d := DimsOf(X, Z);
    var nAtoms, nTrials, L := d.nAtoms, d.nTrials, d.NTimesAtom();
    var ztx := ZtXOf(X, Z);
    var zz := new real[nAtoms, nAtoms, 2 * L - 1]((a, b, e) => 0.0);
    for k0 := 0 to nAtoms
      invariant forall a, b, e :: 0 <= a < nAtoms && 0 <= b < nAtoms && 0 <= e < 2 * L - 1 ==>
                  zz[a, b, e] == Filled(Z, nTrials, L, k0, 0, a, b, e)
    {
      for k := 0 to nAtoms
        invariant forall a, b, e :: 0 <= a < nAtoms && 0 <= b < nAtoms && 0 <= e < 2 * L - 1 ==>
                    zz[a, b, e] == Filled(Z, nTrials, L, k0, k, a, b, e)
      {
        AccumulatePair(zz, Z, nTrials, L, k0, k);
      }
    }
    var T := Contents3(zz);
    FilledTable(Z, d, T);
    c := Constants(ztx, T, d.nChan);
  }

  /** A table holding the lag sums of every atom pair is the lag table of Z. */
  lemma FilledTable(Z: T3, d: Dims, T: T3)
    requires d.Valid()
    requires IsT3(T, d.nAtoms, d.nAtoms, 2 * d.NTimesAtom() - 1)
    requires forall a, b, e :: 0 <= a < d.nAtoms && 0 <= b < d.nAtoms && 0 <= e < 2 * d.NTimesAtom() - 1 ==>
               T[a][b][e] == Filled(Z, d.nTrials, d.NTimesAtom(), d.nAtoms, 0, a, b, e)
    ensures T == ZtZOf(Z, d)
  {
    var W, L := ZtZOf(Z, d), d.NTimesAtom();
    forall a | 0 <= a < d.nAtoms
      ensures T[a] == W[a]
    {
      forall b | 0 <= b < d.nAtoms
        ensures T[a][b] == W[a][b]
      {
        forall e | 0 <= e < 2 * L - 1
          ensures T[a][b][e] == W[a][b][e]
        {
        }
      }
    }
  }

  /** Code rows k0 and k have the same length in each of the first n trials. */
  predicate PairShaped(Z: T3, k0: nat, k: nat, n: nat)
  {
    k0 < |Z| && k < |Z| && n <= |Z[k0]| && n <= |Z[k]| &&
    forall i :: 0 <= i < n ==> |Z[k0][i]| == |Z[k][i]|
  }

  /** The two inner loops for the atom pair (k0, k): ZtZ[k0][k] goes from zeros to the full
      lag sums; no other entry changes. */
  method AccumulatePair(zz: array3<real>, Z: T3, nTrials: nat, L: nat, k0: nat, k: nat)
    requires zz.Length0 > k0 && zz.Length1 > k && zz.Length2 == 2 * L - 1
    requires PairShaped(Z, k0, k, nTrials)
    requires forall e :: 0 <= e < 2 * L - 1 ==> zz[k0, k, e] == 0.0
    modifies zz
    ensures forall e :: 0 <= e < 2 * L - 1 ==> zz[k0, k, e] == LagSum(Z, k0, k, e - (L - 1), nTrials)
    ensures forall a, b, e :: 0 <= a < zz.Length0 && 0 <= b < zz.Length1 && 0 <= e < zz.Length2 && (a != k0 || b != k) ==>
              zz[a, b, e] == old(zz[a, b, e])
  {
    for i := 0 to nTrials
      invariant forall a, b, e :: 0 <= a < zz.Length0 && 0 <= b < zz.Length1 && 0 <= e < zz.Length2 && (a != k0 || b != k) ==>
                  zz[a, b, e] == old(zz[a, b, e])
      invariant forall e :: 0 <= e < 2 * L - 1 ==> zz[k0, k, e] == LagSum(Z, k0, k, e - (L - 1), i)
    {
      AccumulateTrial(zz, Z, L, k0, k, i);
    }
  }

  /** The lag loop for trial i: adds trial i's correlations at every lag |t| < n_times_atom to
      ZtZ[k0][k]. */
  method AccumulateTrial(zz: array3<real>, Z: T3, L: nat, k0: nat, k: nat, i: nat)
    requires zz.Length0 > k0 && zz.Length1 > k && zz.Length2 == 2 * L - 1
    requires PairShaped(Z, k0, k, i + 1)
    requires forall e :: 0 <= e < 2 * L - 1 ==> zz[k0, k, e] == LagSum(Z, k0, k, e - (L - 1), i)
    modifies zz
    ensures forall e :: 0 <= e < 2 * L - 1 ==> zz[k0, k, e] == LagSum(Z, k0, k, e - (L - 1), i + 1)
    ensures forall a, b, e :: 0 <= a < zz.Length0 && 0 <= b < zz.Length1 && 0 <= e < zz.Length2 && (a != k0 || b != k) ==>
              zz[a, b, e] == old(zz[a, b, e])
  {
    assert |Z[k0][i]| == |Z[k][i]|;
    forall e | 0 <= e < 2 * L - 1
      ensures zz[k0, k, e] == Partial(Z, L, k0, k, e, i, 0)
    {
      PartialStart(Z, L, k0, k, e, i);
    }
    for t := 0 to L
      invariant forall a, b, e :: 0 <= a < zz.Length0 && 0 <= b < zz.Length1 && 0 <= e < zz.Length2 && (a != k0 || b != k) ==>
                  zz[a, b, e] == old(zz[a, b, e])
      invariant forall e :: 0 <= e < 2 * L - 1 ==> zz[k0, k, e] == Partial(Z, L, k0, k, e, i, t)
    {
      AccumulateLag(zz, Z[k0][i], Z[k][i], L, k0, k, t);
      forall e | 0 <= e < 2 * L - 1
        ensures zz[k0, k, e] == Partial(Z, L, k0, k, e, i, t + 1)
      {
        LagIncrementStep(Z, L, k0, k, i, t, e);
      }
    }
    forall e | 0 <= e < 2 * L - 1
      ensures zz[k0, k, e] == LagSum(Z, k0, k, e - (L - 1), i + 1)
    {
      PartialEnd(Z, L, k0, k, e, i);
    }
  }

  /** Before the lag loop, the partial sums are those of the completed trials. */
  lemma PartialStart(Z: T3, L: nat, k0: int, k: int, e: int, i: nat)
    ensures Partial(Z, L, k0, k, e, i, 0) == LagSum(Z, k0, k, e - (L - 1), i)
  {
  }

  /** After the lag loop, every lag |e - t0| < n_times_atom of trial i has been added. */
  lemma PartialEnd(Z: T3, L: nat, k0: int, k: int, e: int, i: nat)
    requires 0 <= e < 2 * L - 1
    ensures Partial(Z, L, k0, k, e, i, L) == LagSum(Z, k0, k, e - (L - 1), i + 1)
  {
  }

  /** Advancing the lag counter from t to t + 1 adds trial i's correlation at lags t and -t. */
  lemma PartialStep(Z: T3, L: nat, k0: int, k: int, e: int, i: nat, t: int)
    requires t >= 0
    ensures var lag := e - (L - 1);
            Partial(Z, L, k0, k, e, i, t + 1) ==
            Partial(Z, L, k0, k, e, i, t) + if lag == t || lag == -t then XCorr(Row(Z, k0, i), Row(Z, k, i), lag) else 0.0
  {
  }

  /** What one pass of the innermost loop adds to entry e of ZtZ[k0][k] for trial i and lag
      counter t: the lag-0 product once, and for t > 0 the two shifted products at t0 + t and
      t0 - t. */
  function LagIncrement(a: Vec, b: Vec, L: nat, t: int, e: int): real
    requires 0 <= t
  {
    if t == 0 then (if e == L - 1 then Dot(a, b) else 0.0)
    else if e == L - 1 + t then Dot(DropLast(a, t), DropFirst(b, t))
    else if e == L - 1 - t then Dot(DropFirst(a, t), DropLast(b, t))
    else 0.0
  }

  /** Adding the increments of lag counter t to the partial sums of t gives those of t + 1. */
  lemma LagIncrementStep(Z: T3, L: nat, k0: nat, k: nat, i: nat, t: int, e: int)
    requires 0 <= t < L
    requires k0 < |Z| && k < |Z| && i < |Z[k0]| && i < |Z[k]| && |Z[k0][i]| == |Z[k][i]|
    ensures Partial(Z, L, k0, k, e, i, t) + LagIncrement(Z[k0][i], Z[k][i], L, t, e) == Partial(Z, L, k0, k, e, i, t + 1)
  {
    var a, b := Z[k0][i], Z[k][i];
    var lag := e - (L - 1);
    var c := XCorr(Row(Z, k0, i), Row(Z, k, i), lag);
    assert Partial(Z, L, k0, k, e, i, t + 1) ==
           Partial(Z, L, k0, k, e, i, t) + if lag == t || lag == -t then c else 0.0 by {
      PartialStep(Z, L, k0, k, e, i, t);
    }
    assert LagIncrement(a, b, L, t, e) == if lag == t || lag == -t then c else 0.0 by {
      assert Row(Z, k0, i) == a && Row(Z, k, i) == b;
      if t == 0 {
        DotIsLagZero(a, b);
      } else {
        DotDropLastFirst(a, b, t);
        DotDropFirstLast(a, b, t);
      }
    }
  }

  /** One pass of the innermost loop body: add trial i's lag-t products to ZtZ[k0][k]. */
  method AccumulateLag(zz: array3<real>, a: Vec, b: Vec, L: nat, k0: nat, k: nat, t: int)
    requires zz.Length0 > k0 && zz.Length1 > k && zz.Length2 == 2 * L - 1 && 0 <= t < L
    modifies zz
    ensures forall e :: 0 <= e < 2 * L - 1 ==> zz[k0, k, e] == old(zz[k0, k, e]) + LagIncrement(a, b, L, t, e)
    ensures forall a, b, e :: 0 <= a < zz.Length0 && 0 <= b < zz.Length1 && 0 <= e < zz.Length2 && (a != k0 || b != k) ==>
              zz[a, b, e] == old(zz[a, b, e])
  {
    var t0 := L - 1;
    if t == 0 {
      zz[k0, k, t0] := zz[k0, k, t0] + Dot(a, b);
    } else {
      zz[k0, k, t0 + t] := zz[k0, k, t0 + t] + Dot(DropLast(a, t), DropFirst(b, t));
      zz[k0, k, t0 - t] := zz[k0, k, t0 - t] + Dot(DropFirst(a, t), DropLast(b, t));
    }
  }
}
