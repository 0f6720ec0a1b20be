/** The closed-form stiffness of the prismatic 3-D frame in its basic system
    (axial, z-bending at ends I and J, y-bending at ends I and J, torsion), with
    optional moment releases per bending plane, and its P-Delta correction. */
module PrismStiffness {
  import opened LinearAlgebra

  /** No release, moment release at end I, moment release at end J. */
  const NoRelease: int := 0
  const ReleaseI: int := 1
  const ReleaseJ: int := 2

  /** The entries (a, b) of one plane's 2x2 bending block, ends numbered 0 (I) and
      1 (J), that formBasicStiffness writes for a release code: all four when both
      ends are fixed, only (J, J) when end I is released, only (I, I) when end J is
      released, none for any other code. */
  predicate Writes(release: int, a: nat, b: nat)
  {
    if release == NoRelease then true
    else if release == ReleaseI then a == 1 && b == 1
    else if release == ReleaseJ then a == 0 && b == 0
    else false
  }

  /** Entry (a, b) of one plane's bending block for EIoverL = E I / L: 4EI/L on the
      diagonal and 2EI/L off it when both ends are fixed, 3EI/L at the fixed end when
      the other is released, zero elsewhere. */
  function PlaneStiffness(EIoverL: real, release: int, a: nat, b: nat): real
  {
    if !Writes(release, a, b) then 0.0
    else if release == NoRelease then (if a == b then 4.0 * EIoverL else 2.0 * EIoverL)
    else 3.0 * EIoverL
  }

  /** Entry (r, c) of the elastic basic stiffness from the axial, torsional and two
      bending rigidities over the length: EA/L axially, GJ/L in torsion, the z-plane
      block on indices 1-2, the y-plane block on 3-4, and no coupling between the
      four groups. */
  function BasicEntry(EAoverL: real, GJoverL: real, EIzoverL: real, EIyoverL: real,
                      releasez: int, releasey: int, r: nat, c: nat): real
  {
    if r == 0 && c == 0 then EAoverL
    else if r == 5 && c == 5 then GJoverL
    else if 1 <= r <= 2 && 1 <= c <= 2 then PlaneStiffness(EIzoverL, releasez, r - 1, c - 1)
    else if 3 <= r <= 4 && 3 <= c <= 4 then PlaneStiffness(EIyoverL, releasey, r - 3, c - 3)
    else 0.0
  }

  /** The elastic basic stiffness entry in terms of the section and material
      constants. */
  function ElasticEntry(A: real, E: real, G: real, Jx: real, Iy: real, Iz: real, L: real,
                        releasez: int, releasey: int, r: nat, c: nat): real
    requires L != 0.0
  {
    BasicEntry(E * A / L, G * Jx / L, E * Iz / L, E * Iy / L, releasez, releasey, r, c)
  }

  /** m with entry (r, c) replaced by x. */
  function SetEntry(m: Matrix, r: nat, c: nat, x: real): (m': Matrix)
    requires r < |m| && c < |m[r]|
    ensures |m'| == |m| && forall i :: 0 <= i < |m| ==> |m'[i]| == |m[i]|
    ensures m'[r][c] == x
    ensures forall i, j :: 0 <= i < |m| && 0 <= j < |m[i]| && (i, j) != (r, c) ==> m'[i][j] == m[i][j]
  {
    m[r := m[r][c := x]]
  }

  /** The bending block of one plane on indices i and i + 1, as formBasicStiffness
      writes it from EIoverL = E I / L: the entries the release code writes take the
      plane stiffness, every other entry is kept. */
  function BendingBlock(kb: Matrix, i: nat, EIoverL: real, release: int): (k: Matrix)
    requires IsMatrix(kb, 6, 6) && i + 1 < 6
    ensures IsMatrix(k, 6, 6)
    ensures forall r, c :: i <= r <= i + 1 && i <= c <= i + 1 ==>
              k[r][c] == if Writes(release, r - i, c - i) then PlaneStiffness(EIoverL, release, r - i, c - i)
                         else kb[r][c]
    ensures forall r, c :: 0 <= r < 6 && 0 <= c < 6 && !(i <= r <= i + 1 && i <= c <= i + 1) ==>
              k[r][c] == kb[r][c]
  {
    if release == NoRelease then
      var two := 2.0 * EIoverL;
      var four := 2.0 * two;
      SetEntry(SetEntry(SetEntry(SetEntry(kb, i, i, four), i + 1, i + 1, four), i + 1, i, two), i, i + 1, two)
    else if release == ReleaseI then SetEntry(kb, i + 1, i + 1, 3.0 * EIoverL)
    else if release == ReleaseJ then SetEntry(kb, i, i, 3.0 * EIoverL)
    else kb
  }

  /** The matrix formBasicStiffness assembles from the four rigidities over L. */
  function Assemble(EAoverL: real, GJoverL: real, EIzoverL: real, EIyoverL: real,
                    releasez: int, releasey: int): (kb: Matrix)
    ensures IsMatrix(kb, 6, 6)
    ensures forall r, c :: 0 <= r < 6 && 0 <= c < 6 ==>
              kb[r][c] == BasicEntry(EAoverL, GJoverL, EIzoverL, EIyoverL, releasez, releasey, r, c)
  {
    var k0 := SetEntry(SetEntry(ZeroMatrix(6, 6), 0, 0, EAoverL), 5, 5, GJoverL);
    var kz := BendingBlock(k0, 1, EIzoverL, releasez);
    BendingBlock(kz, 3, EIyoverL, releasey)
  }

  lemma OverL(x: real, E: real, L: real)
    requires L != 0.0
    ensures x * (E * (1.0 / L)) == E * x / L
  {
  }

  /** formBasicStiffness: the matrix is zeroed, the axial and torsional terms are
      set, then each bending plane's block for its release. */
  function FormBasicStiffness(A: real, E: real, G: real, Jx: real, Iy: real, Iz: real, L: real,
                              releasez: int, releasey: int): (kb: Matrix)
    requires L != 0.0
    ensures IsMatrix(kb, 6, 6)
    ensures forall r, c :: 0 <= r < 6 && 0 <= c < 6 ==>
              kb[r][c] == ElasticEntry(A, E, G, Jx, Iy, Iz, L, releasez, releasey, r, c)
  {
    var oneOverL := 1.0 / L;
    var EoverL := E * oneOverL;
    var EAoverL := A * EoverL;
    var GJoverL := G * Jx * oneOverL;
    OverL(A, E, L);
    OverL(Iz, E, L);
    OverL(Iy, E, L);
    assert GJoverL == G * Jx / L;
    Assemble(EAoverL, GJoverL, Iz * EoverL, Iy * EoverL, releasez, releasey)
  }

  /** The elastic stiffness is symmetric for every pair of release codes. */
  lemma ElasticSymmetric(A: real, E: real, G: real, Jx: real, Iy: real, Iz: real, L: real,
                         releasez: int, releasey: int)
    requires L != 0.0
    ensures Symmetric(FormBasicStiffness(A, E, G, Jx, Iy, Iz, L, releasez, releasey), 6)
  {
    var kb := FormBasicStiffness(A, E, G, Jx, Iy, Iz, L, releasez, releasey);
    forall r, c | 0 <= r < 6 && 0 <= c < 6
      ensures kb[r][c] == kb[c][r]
    {
      assert ElasticEntry(A, E, G, Jx, Iy, Iz, L, releasez, releasey, r, c) ==
             ElasticEntry(A, E, G, Jx, Iy, Iz, L, releasez, releasey, c, r);
    }
  }

  /** A released end contributes no stiffness: its row and column of the plane are
      zero, so the element carries no moment there. */
  lemma ReleasedEndIsFree(A: real, E: real, G: real, Jx: real, Iy: real, Iz: real, L: real,
                          releasez: int, releasey: int)
    requires L != 0.0
    ensures var kb := FormBasicStiffness(A, E, G, Jx, Iy, Iz, L, releasez, releasey);
            (releasez == ReleaseI ==> forall j :: 0 <= j < 6 ==> kb[1][j] == 0.0 && kb[j][1] == 0.0) &&
            (releasez == ReleaseJ ==> forall j :: 0 <= j < 6 ==> kb[2][j] == 0.0 && kb[j][2] == 0.0) &&
            (releasey == ReleaseI ==> forall j :: 0 <= j < 6 ==> kb[3][j] == 0.0 && kb[j][3] == 0.0) &&
            (releasey == ReleaseJ ==> forall j :: 0 <= j < 6 ==> kb[4][j] == 0.0 && kb[j][4] == 0.0)
  {
  }

  /** The elastic stiffness changes with the modulus whenever the section has area:
      so a stiffness kept from before a change of E no longer matches the constants. */
  lemma StiffnessDependsOnE(A: real, E: real, E': real, G: real, Jx: real, Iy: real, Iz: real,
                            L: real, releasez: int, releasey: int)
    requires L != 0.0 && A != 0.0 && E != E'
    ensures FormBasicStiffness(A, E, G, Jx, Iy, Iz, L, releasez, releasey) !=
            FormBasicStiffness(A, E', G, Jx, Iy, Iz, L, releasez, releasey)
  {
    var k := FormBasicStiffness(A, E, G, Jx, Iy, Iz, L, releasez, releasey);
    var k' := FormBasicStiffness(A, E', G, Jx, Iy, Iz, L, releasez, releasey);
    assert k[0][0] == E * A / L && k'[0][0] == E' * A / L;
    AxialDiffers(E, E', A, L);
  }

  lemma AxialDiffers(E: real, E': real, A: real, L: real)
    requires L != 0.0 && A != 0.0 && E != E'
    ensures E * A / L != E' * A / L
  {
    assert E * A / L - E' * A / L == (E - E') * (A / L);
    assert A / L != 0.0;
  }

  /** The P-Delta geometric stiffness for axial force N: 4N/L on the z-plane diagonal,
      -N/L off it, and zero everywhere else (the y-plane is not corrected). */
  function GeometricStiffness(N: real, L: real): (kg: Matrix)
    requires L != 0.0
    ensures IsMatrix(kg, 6, 6)
    ensures kg[1][1] == 4.0 * N / L && kg[2][2] == 4.0 * N / L
    ensures kg[1][2] == -N / L && kg[2][1] == -N / L
    ensures forall r, c :: 0 <= r < 6 && 0 <= c < 6 && !(1 <= r <= 2 && 1 <= c <= 2) ==> kg[r][c] == 0.0
  {
    var four := 4.0 * N / L;
    var minus := -1.0 * N / L;
    SetEntry(SetEntry(SetEntry(SetEntry(ZeroMatrix(6, 6), 1, 1, four), 2, 2, four), 1, 2, minus), 2, 1, minus)
  }
}
