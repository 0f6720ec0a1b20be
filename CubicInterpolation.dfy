/** The cubic Hermite curvature interpolation of the distributed-section 3-D frame.
    A section at parametric location xi (0 at end I, 1 at end J) sees the 4 generalized
    strains (axial, curvature about z, curvature about y, twist) that the 4x6
    strain-displacement matrix B(xi), divided by the length, extracts from the 6 basic
    deformations (axial, rotations z1 z2, rotations y1 y2, torsion). */
module CubicInterpolation {
  import opened LinearAlgebra

  /** Response codes a section reports for each of its strain components
      (the SECTION_RESPONSE_* constants of the section library). */
  const ResponseMz: int := 1
  const ResponseP: int := 2
  const ResponseVy: int := 3
  const ResponseMy: int := 4
  const ResponseVz: int := 5
  const ResponseT: int := 6

  /** The order in which the 4-component section scheme lists its strains. */
  const StandardCodes: seq<int> := [ResponseP, ResponseMz, ResponseMy, ResponseT]

  /** Weight of the end-I rotation in the curvature at xi. */
  function NearFactor(xi: real): real
  {
    6.0 * xi - 4.0
  }

  /** Weight of the end-J rotation in the curvature at xi. */
  function FarFactor(xi: real): real
  {
    6.0 * xi - 2.0
  }

  /** The section strain (row of B) that basic deformation c feeds. */
  function SectionRow(c: nat): (j: nat)
    requires c < 6
    ensures j < 4
  {
    if c == 0 then 0 else if c <= 2 then 1 else if c <= 4 then 2 else 3
  }

  /** The only nonzero entry of column c of B(xi). */
  function Coef(xi: real, c: nat): real
    requires c < 6
  {
    if c == 0 || c == 5 then 1.0
    else if c == 1 || c == 3 then NearFactor(xi)
    else FarFactor(xi)
  }

  /** The strain-displacement matrix B(xi). */
  function StrainDisplacement(xi: real): (b: Matrix)
    ensures IsMatrix(b, 4, 6)
    ensures forall j, c :: 0 <= j < 4 && 0 <= c < 6 ==>
              b[j][c] == if j == SectionRow(c) then Coef(xi, c) else 0.0
  {
    var n, f := NearFactor(xi), FarFactor(xi);
    [[1.0, 0.0, 0.0, 0.0, 0.0, 0.0],
     [0.0, n, f, 0.0, 0.0, 0.0],
     [0.0, 0.0, 0.0, n, f, 0.0],
     [0.0, 0.0, 0.0, 0.0, 0.0, 1.0]]
  }

  /** The generalized strain at xi: (1/L) B(xi) v. */
  function SectionStrain(xi: real, v: Vector, oneOverL: real): (e: Vector)
    requires |v| == 6
    ensures |e| == 4
  {
    VecScale(oneOverL, MatVec(StrainDisplacement(xi), 4, v))
  }

  /** The section strain written out: axial strain, the two curvatures from the
      Hermite factors (6 xi - 4) and (6 xi - 2), and the twist. */
  lemma StrainFormula(xi: real, v: Vector, oneOverL: real)
    requires |v| == 6
    ensures SectionStrain(xi, v, oneOverL) ==
              [oneOverL * v[0],
               oneOverL * (NearFactor(xi) * v[1] + FarFactor(xi) * v[2]),
               oneOverL * (NearFactor(xi) * v[3] + FarFactor(xi) * v[4]),
               oneOverL * v[5]]
  {
    var b := StrainDisplacement(xi);
    var bv := MatVec(b, 4, v);
    StrainRow(xi, v, 0);
    StrainRow(xi, v, 1);
    StrainRow(xi, v, 2);
    StrainRow(xi, v, 3);
    assert bv[0] == v[0];
    assert bv[1] == NearFactor(xi) * v[1] + FarFactor(xi) * v[2];
    assert bv[2] == NearFactor(xi) * v[3] + FarFactor(xi) * v[4];
    assert bv[3] == v[5];
    var e := SectionStrain(xi, v, oneOverL);
    assert e == VecScale(oneOverL, bv);
    assert e[0] == oneOverL * v[0];
    assert e[1] == oneOverL * (NearFactor(xi) * v[1] + FarFactor(xi) * v[2]);
    assert e[2] == oneOverL * (NearFactor(xi) * v[3] + FarFactor(xi) * v[4]);
    assert e[3] == oneOverL * v[5];
  }

  /** Each row of B(xi) against u: the axial and torsion rows pick one entry, the
      two bending rows weigh a pair of rotations by the Hermite factors. */
  lemma StrainRow(xi: real, u: Vector, j: nat)
    requires |u| == 6 && j < 4
    ensures Dot(StrainDisplacement(xi)[j], u) ==
              if j == 0 then u[0]
              else if j == 1 then NearFactor(xi) * u[1] + FarFactor(xi) * u[2]
              else if j == 2 then NearFactor(xi) * u[3] + FarFactor(xi) * u[4]
              else u[5]
  {
    var b := StrainDisplacement(xi);
    if j == 0 {
      DotSparseLeft(b[0], u, 0);
    } else if j == 1 {
      DotPair(b[1], u, 1, 2);
    } else if j == 2 {
      DotPair(b[2], u, 3, 4);
    } else {
      DotSparseLeft(b[3], u, 5);
    }
  }

  /** B(xi)^T ks B(xi) for a 4x4 section operator ks. */
  function TripleProduct(xi: real, ks: Matrix): (m: Matrix)
    requires IsMatrix(ks, 4, 4)
    ensures IsMatrix(m, 6, 6)
  {
    var b := StrainDisplacement(xi);
    MatMul(Transpose(b, 4, 6), MatMul(ks, b, 4, 4, 6), 6, 4, 6)
  }

  /** Entry (r, c) of B^T ks B is Coef(r) Coef(c) ks[row r][row c]: each basic
      deformation feeds exactly one section strain. */
  lemma TripleProductEntry(xi: real, ks: Matrix, r: nat, c: nat)
    requires IsMatrix(ks, 4, 4) && r < 6 && c < 6
    ensures TripleProduct(xi, ks)[r][c] ==
              Coef(xi, r) * (ks[SectionRow(r)][SectionRow(c)] * Coef(xi, c))
  {
    SparseTripleEntry(StrainDisplacement(xi), ks, r, c, SectionRow(r), SectionRow(c), Coef(xi, r), Coef(xi, c));
  }

  /** The same for any 4x6 matrix b whose columns r and c each have one nonzero entry. */
  lemma SparseTripleEntry(b: Matrix, ks: Matrix, r: nat, c: nat, kr: nat, kc: nat, cr: real, cc: real)
    requires IsMatrix(b, 4, 6) && IsMatrix(ks, 4, 4) && r < 6 && c < 6 && kr < 4 && kc < 4
    requires forall j :: 0 <= j < 4 ==> b[j][r] == if j == kr then cr else 0.0
    requires forall j :: 0 <= j < 4 ==> b[j][c] == if j == kc then cc else 0.0
    ensures MatMul(Transpose(b, 4, 6), MatMul(ks, b, 4, 4, 6), 6, 4, 6)[r][c] == cr * (ks[kr][kc] * cc)
  {
    var kb := MatMul(ks, b, 4, 4, 6);
    var bt := Transpose(b, 4, 6);
    var colK := Column(kb, 4, 6, c);
    var colB := Column(b, 4, 6, c);
    forall j | 0 <= j < 4
      ensures colK[j] == ks[j][kc] * cc
    {
      DotSparse(ks[j], colB, kc);
    }
    assert forall j :: 0 <= j < 4 ==> bt[r][j] == b[j][r];
    DotSparseLeft(bt[r], colK, kr);
  }

  lemma TripleProductSymmetric(xi: real, ks: Matrix)
    requires IsMatrix(ks, 4, 4) && Symmetric(ks, 4)
    ensures Symmetric(TripleProduct(xi, ks), 6)
  {
    forall r, c | 0 <= r < 6 && 0 <= c < 6
      ensures TripleProduct(xi, ks)[r][c] == TripleProduct(xi, ks)[c][r]
    {
      TripleProductEntry(xi, ks, r, c);
      TripleProductEntry(xi, ks, c, r);
    }
  }

  /** B(xi)^T s for a 4-component section resultant s. */
  function TransposeProduct(xi: real, s: Vector): (p: Vector)
    requires |s| == 4
    ensures |p| == 6
  {
    MatVec(Transpose(StrainDisplacement(xi), 4, 6), 6, s)
  }

  /** Entry r of B^T s is Coef(r) s[row r]. */
  lemma TransposeProductEntry(xi: real, s: Vector, r: nat)
    requires |s| == 4 && r < 6
    ensures TransposeProduct(xi, s)[r] == Coef(xi, r) * s[SectionRow(r)]
  {
    var bt := Transpose(StrainDisplacement(xi), 4, 6);
    DotSparseLeft(bt[r], s, SectionRow(r));
  }

  /** The six updates the element writes out for "add B(xi)^T a": entries 0 and 5 take
      the axial and torsion components, entries 1, 2 and 3, 4 the Hermite-weighted
      curvature components. Together they add Coef(r) a[row r] to every entry r. */
  lemma TransposeUpdateEntry(xi: real, a: Vector, before: Vector, after: Vector, r: nat)
    requires |a| == 4 && |before| == 6 && |after| == 6 && r < 6
    requires after[0] == before[0] + a[0]
    requires after[1] == before[1] + NearFactor(xi) * a[1]
    requires after[2] == before[2] + FarFactor(xi) * a[1]
    requires after[3] == before[3] + NearFactor(xi) * a[2]
    requires after[4] == before[4] + FarFactor(xi) * a[2]
    requires after[5] == before[5] + a[3]
    ensures after[r] == before[r] + Coef(xi, r) * a[SectionRow(r)]
  {
  }

  /** The same updates with every component of a weighted by w. */
  lemma WeightedTransposeUpdateEntry(xi: real, a: Vector, w: real, before: Vector, after: Vector, r: nat)
    requires |a| == 4 && |before| == 6 && |after| == 6 && r < 6
    requires after[0] == before[0] + a[0] * w
    requires after[1] == before[1] + NearFactor(xi) * (a[1] * w)
    requires after[2] == before[2] + FarFactor(xi) * (a[1] * w)
    requires after[3] == before[3] + NearFactor(xi) * (a[2] * w)
    requires after[4] == before[4] + FarFactor(xi) * (a[2] * w)
    requires after[5] == before[5] + a[3] * w
    ensures after[r] == before[r] + Coef(xi, r) * (a[SectionRow(r)] * w)
  {
  }

  /** A factor times a precomputed product is that factor times the product. */
  lemma TimesProduct(c: real, t: real, a: real, b: real)
    requires t == a * b
    ensures c * t == c * (a * b)
  {
  }

  lemma Associate(a: real, b: real, c: real)
    ensures a * b * c == a * (b * c)
  {
  }

  /** Which section strain a response code stands for, or -1 for codes the
      4-component interpolation does not feed (shear, unknown codes). */
  function RowOfCode(code: int): (j: int)
    ensures -1 <= j < 4
  {
    if code == ResponseP then 0
    else if code == ResponseMz then 1
    else if code == ResponseMy then 2
    else if code == ResponseT then 3
    else -1
  }

  /** The strain component of response type `code` that B(xi) extracts from u
      (before the 1/L scaling); 0 for codes it does not feed. */
  function StrainComponent(code: int, xi: real, u: Vector): real
    requires |u| == 6
  {
    var j := RowOfCode(code);
    if j < 0 then 0.0 else Dot(StrainDisplacement(xi)[j], u)
  }

  lemma StrainComponentFormula(code: int, xi: real, u: Vector)
    requires |u| == 6
    ensures StrainComponent(code, xi, u) ==
              if code == ResponseP then u[0]
              else if code == ResponseMz then NearFactor(xi) * u[1] + FarFactor(xi) * u[2]
              else if code == ResponseMy then NearFactor(xi) * u[3] + FarFactor(xi) * u[4]
              else if code == ResponseT then u[5]
              else 0.0
  {
    var j := RowOfCode(code);
    if j >= 0 {
      StrainRow(xi, u, j);
    }
  }
}
