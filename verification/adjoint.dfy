/** The transposed convolution of `_dense_transpose_convolve` is the transpose (adjoint) of
    the reconstruction in its atoms: for every residual R and every direction E of the atoms,
    ⟨E, G(Z, R)⟩ = ⟨R, construct_X_multi(Z, E)⟩. With R = X̂(D) − X, the right-hand side is
    the derivative of ½‖X̂(D) − X‖² in the direction E, because X̂ is linear in D; so the
    direct branch of `_gradient_d`, and through `CachedEqualsDirect` the cached one, is the
    gradient of the data fit in D. */
module Adjoint {
  import opened Reals
  import opened Tensors
  import opened Reconstruction
  import opened SuffStats
  import opened Gradient

  /** Σ_c A[a][b][c] · B[a][b][c] */
  function InnerLine(A: T3, B: T3, a: int, b: int, n2: nat): real
  {
    Sum(n2, c => At3(A, a, b, c) * At3(B, a, b, c))
  }

  /** Σ_b Σ_c A[a][b][c] · B[a][b][c] */
  function InnerPlane(A: T3, B: T3, a: int, n1: nat, n2: nat): real
  {
    Sum(n1, b => InnerLine(A, B, a, b, n2))
  }

  /** The inner product ⟨A, B⟩ = Σ_a Σ_b Σ_c A[a][b][c] · B[a][b][c] over an n0 × n1 × n2 box. */
  function Inner3(A: T3, B: T3, n0: nat, n1: nat, n2: nat): real
  {
    Sum(n0, a => InnerPlane(A, B, a, n1, n2))
  }

  // ------------------------------------------------ one atom, one trial, one channel

  /** Z[k][i][s] · R[i][p][s + tau] · E[k][p][tau]: one term of both sides. */
  function Triple(Z: T3, R: T3, E: T3, k: int, i: int, p: int, s: int, tau: int): real
  {
    At3(Z, k, i, s) * At3(R, i, p, s + tau) * At3(E, k, p, tau)
  }

  /** Σ_{s < V} Z[k][i][s] · R[i][p][s + tau] · E[k][p][tau] */
  function Triples(Z: T3, R: T3, E: T3, k: int, i: int, p: int, V: nat, tau: int): real
  {
    Sum(V, s => Triple(Z, R, E, k, i, p, s, tau))
  }

  /** i ↦ corr(z_k,i, R[i][p])[tau]: the trial terms of one entry of G(Z, R). */
  function Corrs(Z: T3, R: T3, k: int, p: int, tau: int): int -> real
  {
    i => XCorr(Row(Z, k, i), Row(R, i, p), tau)
  }

  /** E[k][p][tau] · corr(z_k,i, R[i][p])[tau] */
  function CorrTerm(Z: T3, R: T3, E: T3, k: int, p: int, i: int, tau: int): real
  {
    ScaledBy(At3(E, k, p, tau), Corrs(Z, R, k, p, tau))(i)
  }

  /** The transposed side of one (atom, trial, channel): Σ_tau corr(z_k,i, R[i][p])[tau] · E[k][p][tau]. */
  function CorrSide(Z: T3, R: T3, E: T3, k: int, i: int, p: int, L: nat): real
  {
    Sum(L, tau => CorrTerm(Z, R, E, k, p, i, tau))
  }

  /** R[i][p][t] · Z[k][i][t - j] · E[k][p][j] */
  function ShareTerm(Z: T3, R: T3, E: T3, k: int, i: int, p: int, t: int, j: int): real
  {
    At3(R, i, p, t) * (At3(Z, k, i, t - j) * At3(E, k, p, j))
  }

  /** R[i][p][t] · (z_k,i ∗ E[k][p])[t] */
  function SharedAt(Z: T3, R: T3, E: T3, L: nat, k: int, i: int, p: int, t: int): real
  {
    ScaledBy(At3(R, i, p, t), Shares(Z, E, L, i, p, t))(k)
  }

  /** The reconstruction side of one (atom, trial, channel): Σ_t R[i][p][t] · (z_k,i ∗ E[k][p])[t]. */
  function ShareSide(Z: T3, R: T3, E: T3, k: int, i: int, p: int, L: nat, N: nat): real
  {
    Sum(N, t => SharedAt(Z, R, E, L, k, i, p, t))
  }

  lemma CorrSideTriples(Z: T3, R: T3, E: T3, k: int, i: int, p: int, V: nat, L: nat)
    requires |Row(Z, k, i)| == V
    ensures CorrSide(Z, R, E, k, i, p, L) == Sum(L, tau => Triples(Z, R, E, k, i, p, V, tau))
  {
    var z, r := Row(Z, k, i), Row(R, i, p);
    forall tau | 0 <= tau < L
      ensures CorrTerm(Z, R, E, k, p, i, tau) == Triples(Z, R, E, k, i, p, V, tau)
    {
      SumScale(V, At3(E, k, p, tau), s => Lagged(z, r, tau, s), s => Triple(Z, R, E, k, i, p, s, tau));
    }
    SumExt(L, tau => CorrTerm(Z, R, E, k, p, i, tau), tau => Triples(Z, R, E, k, i, p, V, tau));
  }

  /** For a fixed tap j, the terms of the reconstruction side are the triples at lag j, shifted
      by j: the code is zero before 0 and from V on, and the data is long enough. */
  lemma ShareColumn(Z: T3, R: T3, E: T3, k: int, i: int, p: int, V: nat, N: nat, j: nat)
    requires |Row(Z, k, i)| == V && V + j <= N
    ensures Sum(N, t => ShareTerm(Z, R, E, k, i, p, t, j)) == Triples(Z, R, E, k, i, p, V, j)
  {
    var f := t => ShareTerm(Z, R, E, k, i, p, t, j);
    var g := s => Triple(Z, R, E, k, i, p, s, j);
    forall t | 0 <= t < j
      ensures f(t) == 0.0
    {
      assert At3(Z, k, i, t - j) == 0.0;
    }
    forall s | 0 <= s < N - j
      ensures g(s) == f(s + j)
    {
      assert s + j - j == s;
    }
    SumDropLeading(N, j, f, g);
    forall s | V <= s < N - j
      ensures g(s) == 0.0
    {
      assert At3(Z, k, i, s) == 0.0;
    }
    SumTail(N - j, V, g);
  }

  lemma ShareSideTriples(Z: T3, R: T3, E: T3, k: int, i: int, p: int, V: nat, L: nat, N: nat)
    requires |Row(Z, k, i)| == V && N == V + L - 1
    ensures ShareSide(Z, R, E, k, i, p, L, N) == Sum(L, j => Triples(Z, R, E, k, i, p, V, j))
  {
    var outer := t => SharedAt(Z, R, E, L, k, i, p, t);
    var swapped := j => Sum(N, t => ShareTerm(Z, R, E, k, i, p, t, j));
    forall t | 0 <= t < N
      ensures outer(t) == Sum(L, j => ShareTerm(Z, R, E, k, i, p, t, j))
    {
      SumScale(L, At3(R, i, p, t), j => At3(Z, k, i, t - j) * At3(E, k, p, j), j => ShareTerm(Z, R, E, k, i, p, t, j));
    }
    SumSwap(N, L, outer, swapped, t => (j => ShareTerm(Z, R, E, k, i, p, t, j)), j => (t => ShareTerm(Z, R, E, k, i, p, t, j)));
    forall j | 0 <= j < L
      ensures swapped(j) == Triples(Z, R, E, k, i, p, V, j)
    {
      ShareColumn(Z, R, E, k, i, p, V, N, j);
    }
    SumExt(L, swapped, j => Triples(Z, R, E, k, i, p, V, j));
  }

  /** The adjoint identity for one atom, one trial and one channel: correlating the residual
      with the code and pairing with E is pairing the residual with the code convolved with E. */
  lemma LineAdjoint(Z: T3, R: T3, E: T3, k: int, i: int, p: int, V: nat, L: nat, N: nat)
    requires |Row(Z, k, i)| == V && N == V + L - 1
    ensures CorrSide(Z, R, E, k, i, p, L) == ShareSide(Z, R, E, k, i, p, L, N)
  {
    CorrSideTriples(Z, R, E, k, i, p, V, L);
    ShareSideTriples(Z, R, E, k, i, p, V, L, N);
  }

  // ------------------------------------------------ both sides, summed

  /** Both sides as one function of (atom, channel, trial). */
  function Adj(Z: T3, R: T3, E: T3, L: nat, N: nat): (int, int, int) -> real
  {
    (k, p, i) => ShareSide(Z, R, E, k, i, p, L, N)
  }

  /** One line of ⟨E, G⟩ is the trial sum of the transposed sides, for any G whose line holds
      the trial-summed correlations (as `DirectEntry` shows of G(Z, R)). */
  lemma GradLine(Z: T3, R: T3, E: T3, G: T3, k: int, p: int, n: nat, L: nat)
    requires forall tau :: 0 <= tau < L ==> At3(G, k, p, tau) == Sum(n, Corrs(Z, R, k, p, tau))
    ensures InnerLine(E, G, k, p, L) == Sum(n, i => CorrSide(Z, R, E, k, i, p, L))
  {
    SumSwapScaled(L, n, tau => At3(E, k, p, tau) * At3(G, k, p, tau), i => CorrSide(Z, R, E, k, i, p, L),
                  tau => At3(E, k, p, tau), tau => At3(G, k, p, tau),
                  tau => Corrs(Z, R, k, p, tau), i => (tau => CorrTerm(Z, R, E, k, p, i, tau)));
  }

  /** One line of ⟨R, X̂⟩ is the atom sum of the reconstruction sides, for any X̂ whose line
      holds the atom-summed convolutions (as `ConstructXMulti` promises). */
  lemma XHatLine(Z: T3, R: T3, E: T3, Xh: T3, i: int, p: int, nA: nat, L: nat, N: nat)
    requires forall t :: 0 <= t < N ==> At3(Xh, i, p, t) == Sum(nA, Shares(Z, E, L, i, p, t))
    ensures InnerLine(R, Xh, i, p, N) == Sum(nA, k => ShareSide(Z, R, E, k, i, p, L, N))
  {
    SumSwapScaled(N, nA, t => At3(R, i, p, t) * At3(Xh, i, p, t), k => ShareSide(Z, R, E, k, i, p, L, N),
                  t => At3(R, i, p, t), t => At3(Xh, i, p, t),
                  t => Shares(Z, E, L, i, p, t), k => (t => SharedAt(Z, R, E, L, k, i, p, t)));
  }

  lemma GradPlane(Z: T3, R: T3, E: T3, G: T3, d: Dims, k: nat)
    requires IsCode(Z, d)
    requires k < d.nAtoms
    requires forall p, tau :: 0 <= p < d.nChan && 0 <= tau < d.NTimesAtom() ==>
               At3(G, k, p, tau) == Sum(d.nTrials, Corrs(Z, R, k, p, tau))
    ensures InnerPlane(E, G, k, d.nChan, d.NTimesAtom())
         == Sum(d.nChan, p => Sum(d.nTrials, i => Adj(Z, R, E, d.NTimesAtom(), d.nTimes)(k, p, i)))
  {
    var L, N, F := d.NTimesAtom(), d.nTimes, Adj(Z, R, E, d.NTimesAtom(), d.nTimes);
    forall p | 0 <= p < d.nChan
      ensures InnerLine(E, G, k, p, L) == Sum(d.nTrials, i => F(k, p, i))
    {
      GradLine(Z, R, E, G, k, p, d.nTrials, L);
      forall i | 0 <= i < d.nTrials
        ensures CorrSide(Z, R, E, k, i, p, L) == F(k, p, i)
      {
        LineAdjoint(Z, R, E, k, i, p, d.nTimesValid, L, N);
      }
      SumExt(d.nTrials, i => CorrSide(Z, R, E, k, i, p, L), i => F(k, p, i));
    }
    SumExt(d.nChan, p => InnerLine(E, G, k, p, L), p => Sum(d.nTrials, i => F(k, p, i)));
  }

  lemma XHatPlane(Z: T3, R: T3, E: T3, Xh: T3, d: Dims, i: nat)
    requires d.Valid()
    requires forall p, t :: 0 <= p < d.nChan && 0 <= t < d.nTimes ==>
               At3(Xh, i, p, t) == Sum(d.nAtoms, Shares(Z, E, d.NTimesAtom(), i, p, t))
    ensures InnerPlane(R, Xh, i, d.nChan, d.nTimes)
         == Sum(d.nChan, p => Sum(d.nAtoms, k => Adj(Z, R, E, d.NTimesAtom(), d.nTimes)(k, p, i)))
  {
    var L, N, F := d.NTimesAtom(), d.nTimes, Adj(Z, R, E, d.NTimesAtom(), d.nTimes);
    forall p | 0 <= p < d.nChan
      ensures InnerLine(R, Xh, i, p, N) == Sum(d.nAtoms, k => F(k, p, i))
    {
      XHatLine(Z, R, E, Xh, i, p, d.nAtoms, L, N);
      SumExt(d.nAtoms, k => ShareSide(Z, R, E, k, i, p, L, N), k => F(k, p, i));
    }
    SumExt(d.nChan, p => InnerLine(R, Xh, i, p, N), p => Sum(d.nAtoms, k => F(k, p, i)));
  }

  /** Every entry of G(Z, R) is the trial sum of the correlations. */
  lemma TransposeEntries(Z: T3, R: T3, d: Dims)
    requires IsCode(Z, d)
    requires IsT3(R, d.nTrials, d.nChan, d.nTimes)
    ensures forall k, p, tau :: 0 <= k < d.nAtoms && 0 <= p < d.nChan && 0 <= tau < d.NTimesAtom() ==>
              At3(DenseTransposeConvolve(Z, R, d), k, p, tau) == Sum(d.nTrials, Corrs(Z, R, k, p, tau))
  {
    forall k, p, tau | 0 <= k < d.nAtoms && 0 <= p < d.nChan && 0 <= tau < d.NTimesAtom()
      ensures At3(DenseTransposeConvolve(Z, R, d), k, p, tau) == Sum(d.nTrials, Corrs(Z, R, k, p, tau))
    {
      DirectEntry(Z, R, d, k, p, tau);
    }
  }

  /** Every entry of X̂(Z, E) is the atom sum of the convolutions. */
  lemma XHatEntries(Z: T3, E: T3, d: Dims)
    requires IsCode(Z, d)
    requires IsT3(E, d.nAtoms, d.nChan, d.NTimesAtom())
    ensures forall i, p, t :: 0 <= i < d.nTrials && 0 <= p < d.nChan && 0 <= t < d.nTimes ==>
              At3(ConstructXMulti(Z, E, d), i, p, t) == Sum(d.nAtoms, Shares(Z, E, d.NTimesAtom(), i, p, t))
  {
  }

  /** `_dense_transpose_convolve(Z, ·)` is the transpose of D ↦ `construct_X_multi(Z, D)`:
      ⟨E, G(Z, R)⟩ = ⟨R, X̂(Z, E)⟩ for every residual R and every atom array E. */
  lemma TransposeIsAdjoint(Z: T3, R: T3, E: T3, d: Dims)
    requires IsCode(Z, d)
    requires IsT3(R, d.nTrials, d.nChan, d.nTimes)
    requires IsT3(E, d.nAtoms, d.nChan, d.NTimesAtom())
    ensures Inner3(E, DenseTransposeConvolve(Z, R, d), d.nAtoms, d.nChan, d.NTimesAtom())
         == Inner3(R, ConstructXMulti(Z, E, d), d.nTrials, d.nChan, d.nTimes)
  {
    var G, Xh, L, N := DenseTransposeConvolve(Z, R, d), ConstructXMulti(Z, E, d), d.NTimesAtom(), d.nTimes;
    var F := Adj(Z, R, E, L, N);
    TransposeEntries(Z, R, d);
    XHatEntries(Z, E, d);
    forall k | 0 <= k < d.nAtoms
      ensures InnerPlane(E, G, k, d.nChan, L) == Sum(d.nChan, p => Sum(d.nTrials, i => F(k, p, i)))
    {
      GradPlane(Z, R, E, G, d, k);
    }
    SumExt(d.nAtoms, k => InnerPlane(E, G, k, d.nChan, L), k => Sum(d.nChan, p => Sum(d.nTrials, i => F(k, p, i))));
    forall i | 0 <= i < d.nTrials
      ensures InnerPlane(R, Xh, i, d.nChan, N) == Sum(d.nChan, p => Sum(d.nAtoms, k => F(k, p, i)))
    {
      XHatPlane(Z, R, E, Xh, d, i);
    }
    SumExt(d.nTrials, i => InnerPlane(R, Xh, i, d.nChan, N), i => Sum(d.nChan, p => Sum(d.nAtoms, k => F(k, p, i))));
    SumReverse3(d.nAtoms, d.nChan, d.nTrials, F);
  }

  /** The direct branch of `_gradient_d` paired with a direction E of the atoms is the residual
      paired with the reconstruction of E: the derivative of ½‖X̂(D) − X‖² at D along E. */
  lemma GradientDPairing(X: T3, Z: T3, D: T3, E: T3, d: Dims)
    requires IsCode(Z, d)
    requires IsT3(X, d.nTrials, d.nChan, d.nTimes)
    requires IsT3(D, d.nAtoms, d.nChan, d.NTimesAtom())
    requires IsT3(E, d.nAtoms, d.nChan, d.NTimesAtom())
    ensures Inner3(E, GradientDDirect(D, X, Z, d), d.nAtoms, d.nChan, d.NTimesAtom())
         == Inner3(Residual(X, Z, D, d), ConstructXMulti(Z, E, d), d.nTrials, d.nChan, d.nTimes)
  {
    TransposeIsAdjoint(Z, Residual(X, Z, D, d), E, d);
  }
}
