/** The prismatic 3-D frame element: elastic, with closed-form stiffness from its
    section and material constants, optional moment releases per bending plane and an
    optional P-Delta correction. It caches the elastic stiffness km when its nodes are
    set; each update forms the current stiffness ke and the basic force q = ke v. The
    coordinate transform is a collaborator outside this model: the basic deformation
    v, the length and its status codes are parameters. */
module PrismFrame {
  import opened LinearAlgebra
  import opened Casts
  import opened PrismStiffness
  import opened CubicFrameData

  /** The values of the stability functions for both bending planes under the current
      axial force: psi = L sqrt(|N| / (E I)) per plane, and the diagonal and
      off-diagonal stiffness C psi (sin psi - psi cos psi) and C psi (psi - sin psi) with
      C = E I / (L (2 - 2 cos psi - psi sin psi)). They need sqrt, sin and cos, which
      this model leaves outside. */
  datatype Stability = Stability(psiZ: real, kiiZ: real, kijZ: real, psiY: real, kiiY: real, kijY: real)

  /** The threshold below which a plane falls back to the elastic stiffness. */
  const PsiTolerance: real := 0.000000000001

  /** The 19 fields the element sends, in order. */
  datatype PrismData = PrismData(
    A: real, E: real, G: real, Jx: real, Iy: real, Iz: real, rho: real, cMass: int,
    tag: int, node1: int, node2: int, transfClassTag: int, transfDbTag: int,
    alphaM: real, betaK: real, betaK0: real, betaKc: real, releasez: int, releasey: int)

  const DataSize: nat := 19

  function EncodeData(d: PrismData): (v: seq<real>)
    ensures |v| == DataSize
  {
    [d.A, d.E, d.G, d.Jx, d.Iy, d.Iz, d.rho, d.cMass as real,
     d.tag as real, d.node1 as real, d.node2 as real, d.transfClassTag as real, d.transfDbTag as real,
     d.alphaM, d.betaK, d.betaK0, d.betaKc, d.releasez as real, d.releasey as real]
  }

  /** The fields the receiver reads back; integer fields are cast with truncation
      toward zero. */
  function DecodeData(v: seq<real>): (d: PrismData)
    requires |v| == DataSize
  {
    PrismData(v[0], v[1], v[2], v[3], v[4], v[5], v[6], Trunc(v[7]),
              Trunc(v[8]), Trunc(v[9]), Trunc(v[10]), Trunc(v[11]), Trunc(v[12]),
              v[13], v[14], v[15], v[16], Trunc(v[17]), Trunc(v[18]))
  }

  /** Decoding sent data restores every field. */
  lemma DataRoundTrip(d: PrismData)
    ensures DecodeData(EncodeData(d)) == d
  {
    TruncOfInt(d.cMass);
    TruncOfInt(d.tag);
    TruncOfInt(d.node1);
    TruncOfInt(d.node2);
    TruncOfInt(d.transfClassTag);
    TruncOfInt(d.transfDbTag);
    TruncOfInt(d.releasez);
    TruncOfInt(d.releasey);
  }

  /** setParameter's names: E, A, Iz, Iy, G and J are parameters 11 to 16 of the
      element; any other name is not one of its parameters (-1). */
  function ParameterId(name: string): (id: int)
    ensures id == -1 || 11 <= id <= 16
    ensures id == 11 <==> name == "E"
    ensures id == 12 <==> name == "A"
    ensures id == 13 <==> name == "Iz"
    ensures id == 14 <==> name == "Iy"
    ensures id == 15 <==> name == "G"
    ensures id == 16 <==> name == "J"
  {
    if name == "E" then 11
    else if name == "A" then 12
    else if name == "Iz" then 13
    else if name == "Iy" then 14
    else if name == "G" then 15
    else if name == "J" then 16
    else -1
  }

  class PrismFrame3d {
    var tag: int
    var node1: int
    var node2: int
    var A: real
    var E: real
    var G: real
    var Jx: real
    var Iy: real
    var Iz: real
    var rho: real
    var cMass: int
    var releasez: int
    var releasey: int
    /** 0 linear, 1 P-Delta, 2 stability functions. */
    const geomFlag: int
    var L: real
    /** The elastic stiffness, the current stiffness, the geometric (or mass)
        stiffness and the basic force. */
    var km: Matrix
    var ke: Matrix
    var kg: Matrix
    var q: Vector
    var alphaM: real
    var betaK: real
    var betaK0: real
    var betaKc: real
    var hasTransform: bool
    var transfClassTag: int
    var transfDbTag: int

    ghost predicate Valid()
      reads this
    {
      IsMatrix(km, 6, 6) && IsMatrix(ke, 6, 6) && IsMatrix(kg, 6, 6) && |q| == 6
    }

    /** The element from its constants; nothing is formed until the nodes are set. */
    constructor(tag: int, node1: int, node2: int, a: real, e: real, g: real, jx: real, iy: real,
                iz: real, transfClassTag: int, r: real, cm: int, relz: int, rely: int, geomFlag: int)
      ensures Valid() && q == ZeroVector(6)
      ensures this.tag == tag && this.node1 == node1 && this.node2 == node2
      ensures A == a && E == e && G == g && Jx == jx && Iy == iy && Iz == iz && rho == r
      ensures cMass == cm && releasez == relz && releasey == rely && this.geomFlag == geomFlag
      ensures hasTransform && this.transfClassTag == transfClassTag && transfDbTag == 0
    {
      this.tag, this.node1, this.node2 := tag, node1, node2;
      A, E, G, Jx, Iy, Iz, rho := a, e, g, jx, iy, iz, r;
      cMass, releasez, releasey := cm, relz, rely;
      this.geomFlag := geomFlag;
      L := 0.0;
      km, ke, kg := ZeroMatrix(6, 6), ZeroMatrix(6, 6), ZeroMatrix(6, 6);
      q := ZeroVector(6);
      alphaM, betaK, betaK0, betaKc := 0.0, 0.0, 0.0, 0.0;
      hasTransform, this.transfClassTag, transfDbTag := true, transfClassTag, 0;
    }

    /** setNodes: a failing base class status is returned before anything is touched;
        a zero length is recorded and refused; otherwise the elastic stiffness is
        formed. */
    method SetNodes(baseStatus: int, length: real) returns (status: int)
      requires Valid()
      modifies this`L, this`km
      ensures Valid()
      ensures baseStatus != 0 ==> status == baseStatus && L == old(L) && km == old(km)
      ensures baseStatus == 0 ==> L == length
      ensures baseStatus == 0 && length == 0.0 ==> status == -1 && km == old(km)
      ensures baseStatus == 0 && length != 0.0 ==>
                status == 0 && km == FormBasicStiffness(A, E, G, Jx, Iy, Iz, L, releasez, releasey)
    {
      if baseStatus != 0 {
        return baseStatus;
      }
      L := length;
      if L == 0.0 {
        return -1;
      }
      km := FormBasicStiffness(A, E, G, Jx, Iy, Iz, L, releasez, releasey);
      return 0;
    }

    /** update: with geometry flag 0 the current stiffness is the elastic one; with
        flag 1 the P-Delta stiffness for N = (EA/L) v0 is added to it; with flag 2
        each plane takes its stability-function stiffness, or falls back to the whole
        elastic matrix when psi is negligible; any other flag keeps the previous
        stiffness. Then q = ke v. The transform's update status is returned. */
    method Update(transfStatus: int, v: Vector, stab: Stability) returns (ok: int)
      requires Valid() && |v| == 6 && L != 0.0
      modifies this`ke, this`kg, this`q
      ensures Valid() && ok == transfStatus
      ensures geomFlag == 0 ==> ke == km && kg == old(kg)
      ensures geomFlag == 1 ==> kg == GeometricStiffness(old(E * A / L * v[0]), L) && ke == MatAdd(km, kg, 6, 6)
      ensures geomFlag == 2 ==> kg == ZeroMatrix(6, 6) && ke == StabilityStiffness(old(ke), km, stab)
      ensures geomFlag !in {0, 1, 2} ==> ke == old(ke) && kg == old(kg)
      ensures q == MatVec(ke, 6, v)
    {
      ok := transfStatus;
      var N := E * A / L * v[0];
      if geomFlag == 0 {
        ke := km;
      } else if geomFlag == 1 {
        kg := GeometricStiffness(N, L);
        ke := MatAdd(km, kg, 6, 6);
      } else if geomFlag == 2 {
        kg := ZeroMatrix(6, 6);
        ke := StabilityStiffness(ke, km, stab);
      }
      q := MatVec(ke, 6, v);
    }

    /** getBasicTangent: for rate 2 the mass term rho L is stored at kg(0, 0) and kg
        is returned; for any other rate the current stiffness. */
    method GetBasicTangent(rate: int) returns (k: Matrix)
      requires Valid()
      modifies this`kg
      ensures Valid()
      ensures rate == 2 ==> kg == SetEntry(old(kg), 0, 0, old(rho * L)) && k == kg
      ensures rate != 2 ==> kg == old(kg) && k == ke
    {
      if rate == 2 {
        kg := SetEntry(kg, 0, 0, rho * L);
        return kg;
      }
      return ke;
    }

    method GetBasicForce() returns (force: Vector)
      ensures force == q
    {
      return q;
    }

    /** The current value of parameter id, the one setParameter hands to the
        parameter object. */
    function ParameterValue(id: int): real
      reads this`E, this`A, this`Iz, this`Iy, this`G, this`Jx
      requires 11 <= id <= 16
    {
      if id == 11 then E else if id == 12 then A else if id == 13 then Iz
      else if id == 14 then Iy else if id == 15 then G else Jx
    }

    /** setParameter: the base class answers first; otherwise a known name registers
        the element under its parameter id, with the field's current value, and the
        parameter object's status is returned (addObject). */
    function SetParameter(baseStatus: int, argv: seq<string>, addObject: (int, real) -> int): (status: int)
      reads this
      ensures baseStatus != -1 ==> status == baseStatus
      ensures baseStatus == -1 && (|argv| < 1 || ParameterId(argv[0]) == -1) ==> status == -1
      ensures baseStatus == -1 && |argv| >= 1 && ParameterId(argv[0]) != -1 ==>
                status == addObject(ParameterId(argv[0]), ParameterValue(ParameterId(argv[0])))
    {
      if baseStatus != -1 then baseStatus
      else if |argv| < 1 then -1
      else
        var id := ParameterId(argv[0]);
        if id == -1 then -1 else addObject(id, ParameterValue(id))
    }

    /** updateParameter: the base class answers first; ids 11 to 16 overwrite the
        named constant and return 0, any other id returns -1. The elastic stiffness km
        is not formed again. */
    method UpdateParameter(baseStatus: int, id: int, value: real) returns (status: int)
      modifies this`E, this`A, this`Iz, this`Iy, this`G, this`Jx
      ensures baseStatus != -1 ==> status == baseStatus && unchanged(this)
      ensures baseStatus == -1 && !(11 <= id <= 16) ==> status == -1 && unchanged(this)
      ensures baseStatus == -1 && 11 <= id <= 16 ==>
                status == 0 && ParameterValue(id) == value &&
                forall j :: 11 <= j <= 16 && j != id ==> ParameterValue(j) == old(ParameterValue(j))
      ensures km == old(km)
    {
      if baseStatus != -1 {
        return baseStatus;
      }
      if id == 11 {
        E := value;
      } else if id == 12 {
        A := value;
      } else if id == 13 {
        Iz := value;
      } else if id == 14 {
        Iy := value;
      } else if id == 15 {
        G := value;
      } else if id == 16 {
        Jx := value;
      } else {
        return -1;
      }
      return 0;
    }

    /** updateParameter as its authors evidently intended: the same, and then the
        elastic stiffness is formed again from the new constants. */
    method UpdateParameterAndStiffness(baseStatus: int, id: int, value: real) returns (status: int)
      requires Valid() && L != 0.0
      modifies this`E, this`A, this`Iz, this`Iy, this`G, this`Jx, this`km
      ensures Valid()
      ensures baseStatus != -1 ==> status == baseStatus && unchanged(this)
      ensures baseStatus == -1 && !(11 <= id <= 16) ==> status == -1 && unchanged(this)
      ensures baseStatus == -1 && 11 <= id <= 16 ==>
                status == 0 && ParameterValue(id) == value &&
                (forall j :: 11 <= j <= 16 && j != id ==> ParameterValue(j) == old(ParameterValue(j))) &&
                km == FormBasicStiffness(A, E, G, Jx, Iy, Iz, L, releasez, releasey)
    {
      status := UpdateParameter(baseStatus, id, value);
      if status == 0 && baseStatus == -1 {
        km := FormBasicStiffness(A, E, G, Jx, Iy, Iz, L, releasez, releasey);
      }
    }

    /** The fields the element sends. */
    function DataOf(): PrismData
      reads this
    {
      PrismData(A, E, G, Jx, Iy, Iz, rho, cMass, tag, node1, node2, transfClassTag, transfDbTag,
                alphaM, betaK, betaK0, betaKc, releasez, releasey)
    }

    /** sendSelf: a transform without a dbTag takes the channel's; the data vector is
        sent, then the transform; the result is the sum of the two statuses, or the
        data status alone when that failed. */
    method SendSelf(channelDbTag: int, dataStatus: int, transfStatus: int)
      returns (res: int, data: seq<real>)
      requires hasTransform
      modifies this`transfDbTag
      ensures transfDbTag == AssignedDbTag(old(transfDbTag), channelDbTag)
      ensures data == EncodeData(DataOf())
      ensures res == if dataStatus < 0 then dataStatus else dataStatus + transfStatus
    {
      transfDbTag := AssignedDbTag(transfDbTag, channelDbTag);
      data := EncodeData(DataOf());
      res := dataStatus;
      if res < 0 {
        return res, data;
      }
      res := res + transfStatus;
    }

    /** recvSelf: a failed receive changes nothing; otherwise the constants, tags and
        releases are read back. A transform that is missing or of another class cannot
        be replaced (-1, and one of another class is dropped); otherwise it takes the
        dbTag sent and receives itself, and the statuses are summed. */
    method RecvSelf(dataStatus: int, data: seq<real>, transfStatus: int) returns (res: int)
      requires |data| == DataSize
      modifies this`A, this`E, this`G, this`Jx, this`Iy, this`Iz, this`rho, this`cMass,
               this`tag, this`node1, this`node2, this`alphaM, this`betaK, this`betaK0,
               this`betaKc, this`releasez, this`releasey, this`hasTransform, this`transfDbTag
      ensures dataStatus < 0 ==> res == dataStatus && unchanged(this)
      ensures dataStatus >= 0 ==> DataFieldsRead(DecodeData(data))
      ensures dataStatus >= 0 && !old(hasTransform) ==> res == -1 && !hasTransform
      ensures dataStatus >= 0 && old(hasTransform) && old(transfClassTag) != DecodeData(data).transfClassTag ==>
                res == -1 && !hasTransform
      ensures dataStatus >= 0 && old(hasTransform) && old(transfClassTag) == DecodeData(data).transfClassTag ==>
                hasTransform && transfDbTag == DecodeData(data).transfDbTag && res == dataStatus + transfStatus
    {
      res := dataStatus;
      if res < 0 {
        return res;
      }
      var d := DecodeData(data);
      ReadData(d);
      if !hasTransform {
        return -1;
      }
      if transfClassTag != d.transfClassTag {
        hasTransform := false;
        return -1;
      }
      transfDbTag := d.transfDbTag;
      res := res + transfStatus;
    }

    /** The fields recvSelf reads from the data vector before it turns to the
        transform. */
    method ReadData(d: PrismData)
      modifies this`A, this`E, this`G, this`Jx, this`Iy, this`Iz, this`rho, this`cMass,
               this`tag, this`node1, this`node2, this`alphaM, this`betaK, this`betaK0,
               this`betaKc, this`releasez, this`releasey
      ensures DataFieldsRead(d)
    {
      ReadConstants(d);
      ReadTags(d);
    }

    method ReadConstants(d: PrismData)
      modifies this`A, this`E, this`G, this`Jx, this`Iy, this`Iz, this`rho, this`cMass
      ensures A == d.A && E == d.E && G == d.G && Jx == d.Jx && Iy == d.Iy && Iz == d.Iz
      ensures rho == d.rho && cMass == d.cMass
    {
      A, E, G, Jx, Iy, Iz := d.A, d.E, d.G, d.Jx, d.Iy, d.Iz;
      rho, cMass := d.rho, d.cMass;
    }

    method ReadTags(d: PrismData)
      modifies this`tag, this`node1, this`node2, this`alphaM, this`betaK, this`betaK0,
               this`betaKc, this`releasez, this`releasey
      ensures tag == d.tag && node1 == d.node1 && node2 == d.node2
      ensures alphaM == d.alphaM && betaK == d.betaK && betaK0 == d.betaK0 && betaKc == d.betaKc
      ensures releasez == d.releasez && releasey == d.releasey
    {
      tag, node1, node2 := d.tag, d.node1, d.node2;
      alphaM, betaK, betaK0, betaKc := d.alphaM, d.betaK, d.betaK0, d.betaKc;
      releasez, releasey := d.releasez, d.releasey;
    }

    /** Every field the data vector carries, except the transform's tags, holds what d
        says. */
    ghost predicate DataFieldsRead(d: PrismData)
      reads this
    {
      A == d.A && E == d.E && G == d.G && Jx == d.Jx && Iy == d.Iy && Iz == d.Iz &&
      rho == d.rho && cMass == d.cMass && tag == d.tag && node1 == d.node1 && node2 == d.node2 &&
      alphaM == d.alphaM && betaK == d.betaK && betaK0 == d.betaK0 && betaKc == d.betaKc &&
      releasez == d.releasez && releasey == d.releasey
    }
  }

  /** The stiffness update with geometry flag 2, from the previous stiffness ke: the
      z-plane block takes its stability-function entries, or the whole matrix falls
      back to km; then the same for the y-plane. A y-plane fall-back therefore also
      discards the z-plane entries just set. */
  function StabilityStiffness(ke: Matrix, km: Matrix, stab: Stability): (k: Matrix)
    requires IsMatrix(ke, 6, 6) && IsMatrix(km, 6, 6)
    ensures IsMatrix(k, 6, 6)
    ensures stab.psiY <= PsiTolerance ==> k == km
    ensures stab.psiZ > PsiTolerance && stab.psiY > PsiTolerance ==>
              k[1][1] == stab.kiiZ && k[2][2] == stab.kiiZ && k[1][2] == stab.kijZ && k[2][1] == stab.kijZ &&
              k[3][3] == stab.kiiY && k[4][4] == stab.kiiY && k[3][4] == stab.kijY && k[4][3] == stab.kijY &&
              forall r, c :: 0 <= r < 6 && 0 <= c < 6 && !(1 <= r <= 4 && 1 <= c <= 4 && (r <= 2 <==> c <= 2)) ==>
                k[r][c] == ke[r][c]
    ensures stab.psiZ <= PsiTolerance && stab.psiY > PsiTolerance ==>
              k[3][3] == stab.kiiY && k[4][4] == stab.kiiY && k[3][4] == stab.kijY && k[4][3] == stab.kijY &&
              forall r, c :: 0 <= r < 6 && 0 <= c < 6 && !(3 <= r <= 4 && 3 <= c <= 4) ==> k[r][c] == km[r][c]
  {
    var kz := if stab.psiZ > PsiTolerance then
                SetEntry(SetEntry(SetEntry(SetEntry(ke, 1, 1, stab.kiiZ), 2, 2, stab.kiiZ), 1, 2, stab.kijZ), 2, 1, stab.kijZ)
              else km;
    if stab.psiY > PsiTolerance then
      SetEntry(SetEntry(SetEntry(SetEntry(kz, 3, 3, stab.kiiY), 4, 4, stab.kiiY), 4, 3, stab.kijY), 3, 4, stab.kijY)
    else km
  }
}
