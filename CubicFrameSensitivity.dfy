/** Response sensitivity of the distributed-section frame: the strain sensitivity the
    element commits to each section, and the basic force sensitivity it integrates
    from the sections' stress resultant sensitivities. Both go through the response
    code of each section strain component, so sections with other component orders
    (or shear components, which the cubic interpolation does not feed) are handled. */
module CubicFrameSensitivity {
  import opened LinearAlgebra
  import opened CubicInterpolation
  import opened FrameSections
  import opened CubicFrameIntegration

  /** The sensitivity of strain component `code` at xi: (1/L) B dv/dh + d(1/L)/dh B v. */
  function StrainSensitivity(code: int, xi: real, v: Vector, dvdh: Vector,
                             oneOverL: real, d1oLdh: real): real
    requires |v| == 6 && |dvdh| == 6
  {
    oneOverL * StrainComponent(code, xi, dvdh) + d1oLdh * StrainComponent(code, xi, v)
  }

  /** The strain sensitivity of every component of a section with the given codes. */
  function StrainSensitivities(codes: seq<int>, xi: real, v: Vector, dvdh: Vector,
                               oneOverL: real, d1oLdh: real): (e: Vector)
    requires |v| == 6 && |dvdh| == 6
    ensures |e| == |codes|
    ensures forall j :: 0 <= j < |codes| ==> e[j] == StrainSensitivity(codes[j], xi, v, dvdh, oneOverL, d1oLdh)
  {
    seq(|codes|, j requires 0 <= j < |codes| => StrainSensitivity(codes[j], xi, v, dvdh, oneOverL, d1oLdh))
  }

  lemma Expand(l: real, d: real, t: real, a: real, b: real)
    ensures (l + t * d) * (a + t * b) == l * a + t * (l * b + d * a) + t * t * (d * b)
  {
  }

  /** The strain sensitivity is the derivative of the strain of `update`: along
      v(t) = v + t dv and 1/L(t) = 1/L + t d(1/L), the strain component is exactly
      its value at t = 0, plus t times the sensitivity, plus a term of order t^2. */
  lemma StrainSensitivityIsDerivative(code: int, xi: real, v: Vector, dv: Vector,
                                      oneOverL: real, d1oLdh: real, t: real)
    requires |v| == 6 && |dv| == 6
    ensures (oneOverL + t * d1oLdh) * StrainComponent(code, xi, VecAdd(v, VecScale(t, dv))) ==
              oneOverL * StrainComponent(code, xi, v)
              + t * StrainSensitivity(code, xi, v, dv, oneOverL, d1oLdh)
              + t * t * (d1oLdh * StrainComponent(code, xi, dv))
  {
    StrainComponentLinear(code, xi, v, dv, t);
    Expand(oneOverL, d1oLdh, t, StrainComponent(code, xi, v), StrainComponent(code, xi, dv));
  }

  /** Each strain component is linear in the deformation. */
  lemma StrainComponentLinear(code: int, xi: real, v: Vector, dv: Vector, t: real)
    requires |v| == 6 && |dv| == 6
    ensures StrainComponent(code, xi, VecAdd(v, VecScale(t, dv))) ==
              StrainComponent(code, xi, v) + t * StrainComponent(code, xi, dv)
  {
    var u := VecAdd(v, VecScale(t, dv));
    StrainComponentFormula(code, xi, u);
    StrainComponentFormula(code, xi, v);
    StrainComponentFormula(code, xi, dv);
    var n, f := NearFactor(xi), FarFactor(xi);
    if code == ResponseMz {
      Combine(n, f, v[1], v[2], dv[1], dv[2], t);
    } else if code == ResponseMy {
      Combine(n, f, v[3], v[4], dv[3], dv[4], t);
    }
  }

  lemma Combine(n: real, f: real, a: real, b: real, c: real, d: real, t: real)
    ensures n * (a + t * c) + f * (b + t * d) == (n * a + f * b) + t * (n * c + f * d)
  {
  }

  /** For the standard component order, the coded strain is the strain `update`
      pushes to the section. */
  lemma CodedStrainIsSectionStrain(xi: real, v: Vector, oneOverL: real, j: nat)
    requires |v| == 6 && j < 4
    ensures oneOverL * StrainComponent(StandardCodes[j], xi, v) == SectionStrain(xi, v, oneOverL)[j]
  {
    StrainFormula(xi, v, oneOverL);
    StrainComponentFormula(StandardCodes[j], xi, v);
  }

  /** What one weighted resultant-sensitivity component of response type `code`
      contributes to the basic force sensitivity: B^T applied to it, for the codes the
      interpolation feeds, nothing for the others. */
  function CodeForce(code: int, xi: real, sensi: real): (p: Vector)
    ensures |p| == 6
  {
    var n, f := NearFactor(xi), FarFactor(xi);
    if code == ResponseP then [sensi, 0.0, 0.0, 0.0, 0.0, 0.0]
    else if code == ResponseMz then [0.0, n * sensi, f * sensi, 0.0, 0.0, 0.0]
    else if code == ResponseMy then [0.0, 0.0, 0.0, n * sensi, f * sensi, 0.0]
    else if code == ResponseT then [0.0, 0.0, 0.0, 0.0, 0.0, sensi]
    else ZeroVector(6)
  }

  /** The contribution of the first m components of one section. */
  function SectionForceSens(codes: seq<int>, xi: real, wt: real, dsdh: Vector, m: nat): (p: Vector)
    requires m <= |codes| && m <= |dsdh|
    ensures |p| == 6
  {
    if m == 0 then ZeroVector(6)
    else VecAdd(SectionForceSens(codes, xi, wt, dsdh, m - 1), CodeForce(codes[m - 1], xi, dsdh[m - 1] * wt))
  }

  /** Whether every section's resultant sensitivity has one entry per response code. */
  predicate SensitivityShapes(codes: seq<seq<int>>, dsdh: seq<Vector>)
  {
    |codes| == |dsdh| && forall i :: 0 <= i < |codes| ==> |codes[i]| == |dsdh[i]|
  }

  /** The response codes of every section. */
  function CodesOf(secs: seq<Section>): (codes: seq<seq<int>>)
    ensures |codes| == |secs| && forall i :: 0 <= i < |secs| ==> codes[i] == secs[i].codes
  {
    seq(|secs|, i requires 0 <= i < |secs| => secs[i].codes)
  }

  /** The stress resultant sensitivity every section reports for one gradient. */
  function ResultantSensitivities(beh: SectionBehaviour, secs: seq<Section>, gradNumber: int): (ds: seq<Vector>)
    ensures |ds| == |secs| && forall i :: 0 <= i < |secs| ==> ds[i] == beh.resultantSens(secs[i], gradNumber)
  {
    seq(|secs|, i requires 0 <= i < |secs| => beh.resultantSens(secs[i], gradNumber))
  }

  /** The basic force sensitivity from the first n sections. */
  function ForceSensitivity(codes: seq<seq<int>>, xi: seq<real>, wt: seq<real>, dsdh: seq<Vector>, n: nat): (p: Vector)
    requires SensitivityShapes(codes, dsdh) && n <= |codes| && n <= |xi| && n <= |wt|
    ensures |p| == 6
  {
    if n == 0 then ZeroVector(6)
    else VecAdd(ForceSensitivity(codes, xi, wt, dsdh, n - 1),
                SectionForceSens(codes[n - 1], xi[n - 1], wt[n - 1], dsdh[n - 1], |codes[n - 1]|))
  }

  /** A vector that was the force sensitivity of the first i sections, and gained
      section i's coded contribution entry by entry, is that of the first i + 1. */
  lemma ForceSensitivityAdvance(codes: seq<seq<int>>, xi: seq<real>, wt: seq<real>, dsdh: seq<Vector>,
                                i: nat, before: Vector, after: Vector)
    requires SensitivityShapes(codes, dsdh) && i < |codes| && i < |xi| && i < |wt|
    requires before == ForceSensitivity(codes, xi, wt, dsdh, i) && |after| == 6
    requires forall r :: 0 <= r < 6 ==>
               after[r] == before[r] + SectionForceSens(codes[i], xi[i], wt[i], dsdh[i], |codes[i]|)[r]
    ensures after == ForceSensitivity(codes, xi, wt, dsdh, i + 1)
  {
  }

  lemma Commute(a: real, s: real, w: real)
    ensures a * (s * w) == w * (a * s)
  {
  }

  lemma SectionForceSensStep(codes: seq<int>, xi: real, wt: real, dsdh: Vector, m: nat, r: nat)
    requires 0 < m <= |codes| && m <= |dsdh| && r < 6
    ensures SectionForceSens(codes, xi, wt, dsdh, m)[r] ==
              SectionForceSens(codes, xi, wt, dsdh, m - 1)[r] + CodeForce(codes[m - 1], xi, dsdh[m - 1] * wt)[r]
  {
  }

  /** Entry r of the coded accumulation of a standard-order section is the sum of
      what its four components contribute. */
  lemma StandardSectionSum(codes: seq<int>, xi: real, wt: real, dsdh: Vector, r: nat)
    requires |dsdh| == 4 && |codes| == 4 && r < 6
    requires codes[0] == ResponseP && codes[1] == ResponseMz && codes[2] == ResponseMy && codes[3] == ResponseT
    ensures SectionForceSens(codes, xi, wt, dsdh, 4)[r] ==
              CodeForce(ResponseP, xi, dsdh[0] * wt)[r] + CodeForce(ResponseMz, xi, dsdh[1] * wt)[r]
              + CodeForce(ResponseMy, xi, dsdh[2] * wt)[r] + CodeForce(ResponseT, xi, dsdh[3] * wt)[r]
  {
    SectionForceSensStep(codes, xi, wt, dsdh, 1, r);
    SectionForceSensStep(codes, xi, wt, dsdh, 2, r);
    SectionForceSensStep(codes, xi, wt, dsdh, 3, r);
    SectionForceSensStep(codes, xi, wt, dsdh, 4, r);
  }

  /** The four component contributions to entry r of a standard-order section. */
  lemma StandardSectionEntry(codes: seq<int>, xi: real, wt: real, dsdh: Vector, r: nat)
    requires |dsdh| == 4 && |codes| == 4 && r < 6
    requires codes[0] == ResponseP && codes[1] == ResponseMz && codes[2] == ResponseMy && codes[3] == ResponseT
    ensures SectionForceSens(codes, xi, wt, dsdh, 4)[r] == Coef(xi, r) * (dsdh[SectionRow(r)] * wt)
  {
    var a := CodeForce(ResponseP, xi, dsdh[0] * wt);
    var b := CodeForce(ResponseMz, xi, dsdh[1] * wt);
    var c := CodeForce(ResponseMy, xi, dsdh[2] * wt);
    var d := CodeForce(ResponseT, xi, dsdh[3] * wt);
    StandardSectionSum(codes, xi, wt, dsdh, r);
    if r == 0 {
      assert b[r] == 0.0 && c[r] == 0.0 && d[r] == 0.0;
    } else if r <= 2 {
      assert a[r] == 0.0 && c[r] == 0.0 && d[r] == 0.0;
    } else if r <= 4 {
      assert a[r] == 0.0 && b[r] == 0.0 && d[r] == 0.0;
    } else {
      assert a[r] == 0.0 && b[r] == 0.0 && c[r] == 0.0;
    }
  }

  /** With the standard component order, the coded accumulation of one section is
      wt B^T dsdh. */
  lemma StandardSectionForceSens(xi: real, wt: real, dsdh: Vector)
    requires |dsdh| == 4
    ensures SectionForceSens(StandardCodes, xi, wt, dsdh, 4) == VecScale(wt, TransposeProduct(xi, dsdh))
  {
    var p := SectionForceSens(StandardCodes, xi, wt, dsdh, 4);
    var want := VecScale(wt, TransposeProduct(xi, dsdh));
    forall r | 0 <= r < 6
      ensures p[r] == want[r]
    {
      StandardSectionEntry(StandardCodes, xi, wt, dsdh, r);
      TransposeProductEntry(xi, dsdh, r);
      Commute(Coef(xi, r), dsdh[SectionRow(r)], wt);
    }
  }

  /** Hence, when every section uses the standard order, the force sensitivity is the
      same integral sum_i wt_i B_i^T dsdh_i as the basic force, with the resultant
      sensitivities in place of the resultants. */
  lemma {:induction false} StandardForceSensitivity(codes: seq<seq<int>>, xi: seq<real>, wt: seq<real>,
                                                    dsdh: seq<Vec4>, n: nat)
    requires SensitivityShapes(codes, dsdh) && n <= |codes| && n <= |xi| && n <= |wt|
    requires forall i :: 0 <= i < n ==> codes[i] == StandardCodes
    ensures ForceSensitivity(codes, xi, wt, dsdh, n) == ForceIntegral(xi, wt, dsdh, n)
  {
    if n > 0 {
      StandardForceSensitivity(codes, xi, wt, dsdh, n - 1);
      StandardSectionForceSens(xi[n - 1], wt[n - 1], dsdh[n - 1]);
    }
  }
}
