/** The arrays the dictionary update and the objective mutate in place (`uv_hat`, and the
    copies of `d_hat` and `z_hat`), read back as nested sequences, and the `.copy()` that
    creates them. */
module Buffers {
  import opened Tensors

  /** The rows of a two-dimensional array. */
  function Contents2(a: array2<real>): (m: Mat)
    reads a
    ensures IsMat(m, a.Length0, a.Length1)
    ensures forall i, j :: 0 <= i < a.Length0 && 0 <= j < a.Length1 ==> m[i][j] == a[i, j]
  {
    seq(a.Length0, i requires 0 <= i < a.Length0 reads a =>
      seq(a.Length1, j requires 0 <= j < a.Length1 reads a => a[i, j]))
  }

  /** The entries of a three-dimensional array. */
  function Contents3(a: array3<real>): (t: T3)
    reads a
    ensures IsT3(t, a.Length0, a.Length1, a.Length2)
    ensures forall i, j, k :: 0 <= i < a.Length0 && 0 <= j < a.Length1 && 0 <= k < a.Length2 ==> t[i][j][k] == a[i, j, k]
  {
    seq(a.Length0, i requires 0 <= i < a.Length0 reads a =>
      seq(a.Length1, j requires 0 <= j < a.Length1 reads a =>
        seq(a.Length2, k requires 0 <= k < a.Length2 reads a => a[i, j, k])))
  }

  /** A fresh array holding the matrix m. */
  method NewMat(m: Mat, rows: nat, cols: nat) returns (a: array2<real>)
    requires IsMat(m, rows, cols)
    ensures fresh(a)
    ensures a.Length0 == rows && a.Length1 == cols
    ensures Contents2(a) == m
  {
    a := new real[rows, cols]((i, j) => At2(m, i, j));
    forall i | 0 <= i < rows
      ensures Contents2(a)[i] == m[i]
    {
      assert forall j :: 0 <= j < cols ==> Contents2(a)[i][j] == m[i][j];
    }
  }

  /** A fresh array holding the three-dimensional tensor t. */
  method NewT3(t: T3, n0: nat, n1: nat, n2: nat) returns (a: array3<real>)
    requires IsT3(t, n0, n1, n2)
    ensures fresh(a)
    ensures a.Length0 == n0 && a.Length1 == n1 && a.Length2 == n2
    ensures Contents3(a) == t
  {
    a := new real[n0, n1, n2]((i, j, k) => At3(t, i, j, k));
    forall i | 0 <= i < n0
      ensures Contents3(a)[i] == t[i]
    {
      forall j | 0 <= j < n1
        ensures Contents3(a)[i][j] == t[i][j]
      {
        assert forall k :: 0 <= k < n2 ==> Contents3(a)[i][j][k] == t[i][j][k];
      }
    }
  }
}
