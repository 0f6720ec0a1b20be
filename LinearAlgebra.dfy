/** Dense real vectors and matrices of any size, represented as sequences of rows.
    These stand for the fixed-size VectorND/MatrixND values the frame elements
    compute with; all arithmetic is over the reals, not IEEE doubles. */
module LinearAlgebra {

  type Vector = seq<real>
  type Matrix = seq<seq<real>>

  /** m has `rows` rows, each of length `cols`. */
  predicate IsMatrix(m: Matrix, rows: nat, cols: nat)
  {
    |m| == rows && forall r :: 0 <= r < rows ==> |m[r]| == cols
  }

  function ZeroVector(n: nat): (z: Vector)
    ensures |z| == n && forall i :: 0 <= i < n ==> z[i] == 0.0
  {
    seq(n, i => 0.0)
  }

  function ZeroMatrix(rows: nat, cols: nat): (z: Matrix)
    ensures IsMatrix(z, rows, cols)
    ensures forall r, c :: 0 <= r < rows && 0 <= c < cols ==> z[r][c] == 0.0
  {
    seq(rows, r => ZeroVector(cols))
  }

  /** The sum of the first |a| products a[k] * b[k]. */
  function Dot(a: Vector, b: Vector): real
    requires |a| == |b|
    decreases |a|
  {
    if |a| == 0 then 0.0 else Dot(a[..|a| - 1], b[..|b| - 1]) + a[|a| - 1] * b[|b| - 1]
  }

  function VecAdd(a: Vector, b: Vector): (r: Vector)
    requires |a| == |b|
    ensures |r| == |a| && forall i :: 0 <= i < |a| ==> r[i] == a[i] + b[i]
  {
    seq(|a|, i requires 0 <= i < |a| => a[i] + b[i])
  }

  function VecScale(k: real, a: Vector): (r: Vector)
    ensures |r| == |a| && forall i :: 0 <= i < |a| ==> r[i] == k * a[i]
  {
    seq(|a|, i requires 0 <= i < |a| => k * a[i])
  }

  function MatAdd(a: Matrix, b: Matrix, rows: nat, cols: nat): (m: Matrix)
    requires IsMatrix(a, rows, cols) && IsMatrix(b, rows, cols)
    ensures IsMatrix(m, rows, cols)
    ensures forall r, c :: 0 <= r < rows && 0 <= c < cols ==> m[r][c] == a[r][c] + b[r][c]
  {
    seq(rows, r requires 0 <= r < rows => VecAdd(a[r], b[r]))
  }

  function MatScale(k: real, a: Matrix, rows: nat, cols: nat): (m: Matrix)
    requires IsMatrix(a, rows, cols)
    ensures IsMatrix(m, rows, cols)
    ensures forall r, c :: 0 <= r < rows && 0 <= c < cols ==> m[r][c] == k * a[r][c]
  {
    seq(rows, r requires 0 <= r < rows => VecScale(k, a[r]))
  }

  /** Column c of a matrix with the given number of rows. */
  function Column(m: Matrix, rows: nat, cols: nat, c: nat): (col: Vector)
    requires IsMatrix(m, rows, cols) && c < cols
    ensures |col| == rows && forall r :: 0 <= r < rows ==> col[r] == m[r][c]
  {
    seq(rows, r requires 0 <= r < rows => m[r][c])
  }

  function Transpose(m: Matrix, rows: nat, cols: nat): (t: Matrix)
    requires IsMatrix(m, rows, cols)
    ensures IsMatrix(t, cols, rows)
    ensures forall c, r :: 0 <= c < cols && 0 <= r < rows ==> t[c][r] == m[r][c]
  {
    seq(cols, c requires 0 <= c < cols => Column(m, rows, cols, c))
  }

  /** The matrix-vector product m * v: entry r is the dot product of row r with v. */
  function MatVec(m: Matrix, rows: nat, v: Vector): (p: Vector)
    requires IsMatrix(m, rows, |v|)
    ensures |p| == rows && forall r :: 0 <= r < rows ==> p[r] == Dot(m[r], v)
  {
    seq(rows, r requires 0 <= r < rows => Dot(m[r], v))
  }

  /** The product a * b of an (n x k) and a (k x p) matrix. */
  function MatMul(a: Matrix, b: Matrix, n: nat, k: nat, p: nat): (m: Matrix)
    requires IsMatrix(a, n, k) && IsMatrix(b, k, p)
    ensures IsMatrix(m, n, p)
    ensures forall r, c :: 0 <= r < n && 0 <= c < p ==> m[r][c] == Dot(a[r], Column(b, k, p, c))
  {
    seq(n, r requires 0 <= r < n => seq(p, c requires 0 <= c < p => Dot(a[r], Column(b, k, p, c))))
  }

  ghost predicate Symmetric(m: Matrix, n: nat)
    requires IsMatrix(m, n, n)
  {
    forall r, c :: 0 <= r < n && 0 <= c < n ==> m[r][c] == m[c][r]
  }

  /** A dot product against a vector that is zero except at index k is
      one product. */
  lemma {:induction false} DotSparse(a: Vector, b: Vector, k: nat)
    requires |a| == |b| && k < |b|
    requires forall j :: 0 <= j < |b| && j != k ==> b[j] == 0.0
    ensures Dot(a, b) == a[k] * b[k]
  {
    var n := |a|;
    if n - 1 == k {
      DotZero(a[..n - 1], b[..n - 1]);
    } else {
      DotSparse(a[..n - 1], b[..n - 1], k);
    }
  }

  /** A dot product against a vector that is zero except at indices k1 < k2 is
      two products. */
  lemma {:induction false} DotPair(a: Vector, b: Vector, k1: nat, k2: nat)
    requires |a| == |b| && k1 < k2 < |a|
    requires forall j :: 0 <= j < |a| && j != k1 && j != k2 ==> a[j] == 0.0
    ensures Dot(a, b) == a[k1] * b[k1] + a[k2] * b[k2]
  {
    var n := |a|;
    if n - 1 == k2 {
      DotSparseLeft(a[..n - 1], b[..n - 1], k1);
    } else {
      DotPair(a[..n - 1], b[..n - 1], k1, k2);
    }
  }

  /** The mirror of DotSparse: the sparse vector is the first argument. */
  lemma {:induction false} DotSparseLeft(a: Vector, b: Vector, k: nat)
    requires |a| == |b| && k < |a|
    requires forall j :: 0 <= j < |a| && j != k ==> a[j] == 0.0
    ensures Dot(a, b) == a[k] * b[k]
  {
    DotSymmetric(a, b);
    DotSparse(b, a, k);
  }

  lemma {:induction false} DotZero(a: Vector, b: Vector)
    requires |a| == |b|
    requires forall j :: 0 <= j < |b| ==> b[j] == 0.0
    ensures Dot(a, b) == 0.0
  {
    if |a| > 0 {
      DotZero(a[..|a| - 1], b[..|b| - 1]);
    }
  }

  lemma {:induction false} DotSymmetric(a: Vector, b: Vector)
    requires |a| == |b|
    ensures Dot(a, b) == Dot(b, a)
  {
    if |a| > 0 {
      DotSymmetric(a[..|a| - 1], b[..|b| - 1]);
    }
  }
}
