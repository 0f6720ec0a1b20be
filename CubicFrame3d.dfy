/** The distributed-section 3-D frame element with cubic Hermite curvature
    interpolation. It owns one section per integration point and caches the
    integration locations xi and weights wt (fractions of the length) when its nodes
    are set. In every state-changing call it pushes the trial strains to the sections,
    and from their answers it assembles the basic tangent kb and basic force q in
    place. The coordinate transform and the integration rule are collaborators
    outside this model: their answers (the basic deformation v, the length, the
    locations and weights, their status codes) are parameters. */
module CubicFrame {
  import opened LinearAlgebra
  import opened CubicInterpolation
  import opened FrameSections
  import opened CubicFrameIntegration
  import opened CubicFrameSensitivity
  import opened CubicFrameData
  import opened Dispatch

  /** Entry (r, c) of B^T ka, when ka = ks B wti, is the tangent term (r, c). */
  lemma BeamOfTrussEntry(x: real, ks: Mat4, wti: real, ka: Matrix, r: nat, c: nat)
    requires IsMatrix(ka, 4, 6) && r < 6 && c < 6
    requires forall j, c :: 0 <= j < 4 && 0 <= c < 6 ==> ka[j][c] == Coef(x, c) * (ks[j][SectionRow(c)] * wti)
    ensures Coef(x, r) * Column(ka, 4, 6, c)[SectionRow(r)] == TangentTerm(x, ks, wti, r, c)
  {
    TrussEntry(x, ks, wti, ka, r, c);
    WeightedTerm(x, ks, wti, Column(ka, 4, 6, c)[SectionRow(r)], r, c);
  }

  lemma TrussEntry(x: real, ks: Mat4, wti: real, ka: Matrix, r: nat, c: nat)
    requires IsMatrix(ka, 4, 6) && r < 6 && c < 6
    requires forall j, c :: 0 <= j < 4 && 0 <= c < 6 ==> ka[j][c] == Coef(x, c) * (ks[j][SectionRow(c)] * wti)
    ensures Column(ka, 4, 6, c)[SectionRow(r)] == Coef(x, c) * (ks[SectionRow(r)][SectionRow(c)] * wti)
  {
  }

  lemma WeightedTerm(x: real, ks: Mat4, wti: real, t: real, r: nat, c: nat)
    requires r < 6 && c < 6
    requires t == Coef(x, c) * (ks[SectionRow(r)][SectionRow(c)] * wti)
    ensures Coef(x, r) * t == TangentTerm(x, ks, wti, r, c)
  {
    TimesProduct(Coef(x, r), t, Coef(x, c), ks[SectionRow(r)][SectionRow(c)] * wti);
  }

  /** The strain sensitivity of one section, component by component through its
      response codes; components of other types get 0. */
  method SectionStrainSensitivity(codes: seq<int>, x: real, v: Vector, dvdh: Vector,
                                  oneOverL: real, d1oLdh: real) returns (e: Vector)
    requires |v| == 6 && |dvdh| == 6
    ensures e == StrainSensitivities(codes, x, v, dvdh, oneOverL, d1oLdh)
  {
    var xi6 := 6.0 * x;
    e := ZeroVector(|codes|);
    for j := 0 to |codes|
      invariant |e| == |codes|
      invariant forall k :: 0 <= k < j ==> e[k] == StrainSensitivity(codes[k], x, v, dvdh, oneOverL, d1oLdh)
    {
      var val: real;
      var code := codes[j];
      if code == ResponseP {
        val := oneOverL * dvdh[0] + d1oLdh * v[0];
      } else if code == ResponseMz {
        val := oneOverL * ((xi6 - 4.0) * dvdh[1] + (xi6 - 2.0) * dvdh[2])
               + d1oLdh * ((xi6 - 4.0) * v[1] + (xi6 - 2.0) * v[2]);
      } else if code == ResponseMy {
        val := oneOverL * ((xi6 - 4.0) * dvdh[3] + (xi6 - 2.0) * dvdh[4])
               + d1oLdh * ((xi6 - 4.0) * v[3] + (xi6 - 2.0) * v[4]);
      } else if code == ResponseT {
        val := oneOverL * dvdh[5] + d1oLdh * v[5];
      } else {
        val := 0.0;
      }
      StrainComponentFormula(code, x, v);
      StrainComponentFormula(code, x, dvdh);
      e := e[j := val];
    }
  }

  class CubicFrame3d {
    var tag: int
    var node1: int
    var node2: int
    const numSections: nat
    var sections: seq<Section>
    var xi: seq<real>
    var wt: seq<real>
    const kb: array2<real>
    const q: array<real>
    var rho: real
    var cMass: int
    var alphaM: real
    var betaK: real
    var betaK0: real
    var betaKc: real
    var hasTransform: bool
    var transfClassTag: int
    var transfDbTag: int
    var hasIntegration: bool
    var intClassTag: int
    var intDbTag: int

    ghost predicate Valid()
      reads this
    {
      |sections| == numSections && |xi| == numSections && |wt| == numSections &&
      kb.Length0 == 6 && kb.Length1 == 6 && q.Length == 6
    }

    /** The element with a copy of each prototype section; the transform and the
        integration rule are taken with the given class tags and no dbTag yet. */
    constructor(tag: int, node1: int, node2: int, prototypes: seq<Section>,
                transfClassTag: int, intClassTag: int, rho: real, cMass: int)
      ensures Valid() && fresh(kb) && fresh(q)
      ensures this.tag == tag && this.node1 == node1 && this.node2 == node2
      ensures numSections == |prototypes| && sections == prototypes
      ensures q[..] == ZeroVector(6)
      ensures this.rho == rho && this.cMass == cMass
      ensures alphaM == 0.0 && betaK == 0.0 && betaK0 == 0.0 && betaKc == 0.0
      ensures hasTransform && this.transfClassTag == transfClassTag && transfDbTag == 0
      ensures hasIntegration && this.intClassTag == intClassTag && intDbTag == 0
    {
      this.tag := tag;
      this.node1 := node1;
      this.node2 := node2;
      numSections := |prototypes|;
      sections := prototypes;
      xi := ZeroVector(|prototypes|);
      wt := ZeroVector(|prototypes|);
      kb := new real[6, 6]((_, _) => 0.0);
      q := new real[6](_ => 0.0);
      this.rho := rho;
      this.cMass := cMass;
      alphaM := 0.0;
      betaK := 0.0;
      betaK0 := 0.0;
      betaKc := 0.0;
      hasTransform := true;
      this.transfClassTag := transfClassTag;
      transfDbTag := 0;
      hasIntegration := true;
      this.intClassTag := intClassTag;
      intDbTag := 0;
      new;
      assert q[..] == ZeroVector(6);
    }

    /** setNodes: a zero initial length is refused before the integration data is
        touched; otherwise the rule's locations and weights are cached and the base
        class status is returned. */
    method SetNodes(baseStatus: int, length: real, locations: seq<real>, weights: seq<real>)
      returns (status: int)
      requires Valid() && |locations| == numSections && |weights| == numSections
      modifies this`xi, this`wt
      ensures Valid()
      ensures length == 0.0 ==> status == -1 && xi == old(xi) && wt == old(wt)
      ensures length != 0.0 ==> status == baseStatus && xi == locations && wt == weights
    {
      status := baseStatus;
      if length == 0.0 {
        return -1;
      }
      xi := locations;
      wt := weights;
    }

    /** update: every section receives the strain (1/L) B(xi_i) v; the result is the
        sum of the sections' statuses. */
    method Update(v: Vector, length: real, beh: SectionBehaviour) returns (err: int)
      requires Valid() && |v| == 6 && length != 0.0
      modifies this`sections
      ensures Valid()
      ensures sections == WithTrial(old(sections), TrialStrains(xi, v, 1.0 / length))
      ensures err == Sum(TrialStatuses(beh, old(sections), TrialStrains(xi, v, 1.0 / length)))
    {
      err := 0;
      var oneOverL := 1.0 / length;
      ghost var secs0 := sections;
      ghost var strains := TrialStrains(xi, v, oneOverL);
      ghost var statuses := TrialStatuses(beh, secs0, strains);
      for i := 0 to numSections
        invariant |sections| == numSections
        invariant forall k :: 0 <= k < i ==> sections[k] == secs0[k].(trial := strains[k])
        invariant forall k :: i <= k < numSections ==> sections[k] == secs0[k]
        invariant err == Sum(statuses[..i])
      {
        var x := xi[i];
        var e := [oneOverL * v[0],
                  oneOverL * (NearFactor(x) * v[1] + FarFactor(x) * v[2]),
                  oneOverL * (NearFactor(x) * v[3] + FarFactor(x) * v[4]),
                  oneOverL * v[5]];
        StrainFormula(x, v, oneOverL);
        assert e == strains[i];
        assert statuses[..i + 1] == statuses[..i] + [statuses[i]];
        SumAppend(statuses[..i], statuses[i]);
        err := err + beh.setTrial(sections[i], e);
        sections := sections[i := sections[i].(trial := e)];
      }
      assert statuses[..numSections] == statuses;
    }

    /** The truss and beam loops for one section: kb += B^T ks B wti, written out
        through the sparse structure of B. */
    method AddSectionTangent(x: real, ks: Mat4, wti: real)
      requires Valid()
      modifies kb
      ensures forall r, c :: 0 <= r < 6 && 0 <= c < 6 ==> kb[r, c] == old(kb[r, c]) + TangentTerm(x, ks, wti, r, c)
    {
      var ka := TrussTerms(x, ks, wti);
      BeamTerms(x, ka);
      forall r, c | 0 <= r < 6 && 0 <= c < 6
        ensures Coef(x, r) * Column(ka, 4, 6, c)[SectionRow(r)] == TangentTerm(x, ks, wti, r, c)
      {
        BeamOfTrussEntry(x, ks, wti, ka, r, c);
      }
    }

    /** The truss loop: ka = ks B(x) wti, built row by row. The 4 x 6 block is a
        value, as the fixed-size matrix it models is. */
    static method TrussTerms(x: real, ks: Mat4, wti: real) returns (ka: Matrix)
      ensures IsMatrix(ka, 4, 6)
      ensures forall j, c :: 0 <= j < 4 && 0 <= c < 6 ==> ka[j][c] == Coef(x, c) * (ks[j][SectionRow(c)] * wti)
    {
      ka := ZeroMatrix(4, 6);
      for k := 0 to 4
        invariant IsMatrix(ka, 4, 6)
        invariant forall j, c :: 0 <= j < k && 0 <= c < 6 ==> ka[j][c] == Coef(x, c) * (ks[j][SectionRow(c)] * wti)
        invariant forall j, c :: k <= j < 4 && 0 <= c < 6 ==> ka[j][c] == 0.0
      {
        var row := TrussRow(x, ks[k], wti, ka[k]);
        ka := ka[k := row];
      }
    }

    /** One pass of the truss loop: the row `before` of ka gains the row ks(k, .) of
        the section tangent, times B(x) and wti. */
    static method TrussRow(x: real, ksRow: Vec4, wti: real, before: Vector) returns (after: Vector)
      requires |before| == 6
      ensures |after| == 6
      ensures forall c :: 0 <= c < 6 ==> after[c] == before[c] + Coef(x, c) * (ksRow[SectionRow(c)] * wti)
    {
      var n, f := NearFactor(x), FarFactor(x);
      after := before;
      after := after[0 := after[0] + ksRow[0] * wti];
      var tmp := ksRow[1] * wti;
      TimesProduct(n, tmp, ksRow[1], wti);
      TimesProduct(f, tmp, ksRow[1], wti);
      after := after[1 := after[1] + n * tmp];
      after := after[2 := after[2] + f * tmp];
      tmp := ksRow[2] * wti;
      TimesProduct(n, tmp, ksRow[2], wti);
      TimesProduct(f, tmp, ksRow[2], wti);
      after := after[3 := after[3] + n * tmp];
      after := after[4 := after[4] + f * tmp];
      after := after[5 := after[5] + ksRow[3] * wti];
      forall c | 0 <= c < 6
        ensures after[c] == before[c] + Coef(x, c) * (ksRow[SectionRow(c)] * wti)
      {
        WeightedTransposeUpdateEntry(x, ksRow, wti, before, after, c);
      }
    }

    /** The beam loop: kb += B(x)^T ka, column by column. */
    method BeamTerms(x: real, ka: Matrix)
      requires Valid() && IsMatrix(ka, 4, 6)
      modifies kb
      ensures forall r, c :: 0 <= r < 6 && 0 <= c < 6 ==> kb[r, c] == old(kb[r, c]) + Coef(x, r) * Column(ka, 4, 6, c)[SectionRow(r)]
    {
      for k := 0 to 6
        invariant forall r, c :: 0 <= r < 6 && 0 <= c < k ==> kb[r, c] == old(kb[r, c]) + Coef(x, r) * Column(ka, 4, 6, c)[SectionRow(r)]
        invariant forall r, c :: 0 <= r < 6 && k <= c < 6 ==> kb[r, c] == old(kb[r, c])
      {
        BeamColumn(x, Column(ka, 4, 6, k), k);
      }
    }

    /** One pass of the beam loop: column k of kb gains B(x)^T times the column
        `col` of ka. */
    method BeamColumn(x: real, col: Vec4, k: nat)
      requires Valid() && k < 6
      modifies kb
      ensures forall r :: 0 <= r < 6 ==> kb[r, k] == old(kb[r, k]) + Coef(x, r) * col[SectionRow(r)]
      ensures forall r, c :: 0 <= r < 6 && 0 <= c < 6 && c != k ==> kb[r, c] == old(kb[r, c])
    {
      var n, f := NearFactor(x), FarFactor(x);
      ghost var before := [kb[0, k], kb[1, k], kb[2, k], kb[3, k], kb[4, k], kb[5, k]];
      kb[0, k] := kb[0, k] + col[0];
      var tmp := col[1];
      kb[1, k] := kb[1, k] + n * tmp;
      kb[2, k] := kb[2, k] + f * tmp;
      tmp := col[2];
      kb[3, k] := kb[3, k] + n * tmp;
      kb[4, k] := kb[4, k] + f * tmp;
      kb[5, k] := kb[5, k] + col[3];
      ghost var after := [kb[0, k], kb[1, k], kb[2, k], kb[3, k], kb[4, k], kb[5, k]];
      forall r | 0 <= r < 6
        ensures after[r] == before[r] + Coef(x, r) * col[SectionRow(r)]
      {
        TransposeUpdateEntry(x, col, before, after, r);
      }
    }

    /** q += w B^T s for one section's resultant s. */
    method AddSectionForce(x: real, s: Vec4, w: real)
      requires Valid()
      modifies q
      ensures forall r :: 0 <= r < 6 ==> q[r] == old(q[r]) + Coef(x, r) * (s[SectionRow(r)] * w)
    {
      var n, f := NearFactor(x), FarFactor(x);
      ghost var before := q[..];
      q[0] := q[0] + s[0] * w;
      q[1] := q[1] + n * s[1] * w;
      q[2] := q[2] + f * s[1] * w;
      q[3] := q[3] + n * s[2] * w;
      q[4] := q[4] + f * s[2] * w;
      q[5] := q[5] + s[3] * w;
      Associate(n, s[1], w);
      Associate(f, s[1], w);
      Associate(n, s[2], w);
      Associate(f, s[2], w);
      forall r | 0 <= r < 6
        ensures q[r] == before[r] + Coef(x, r) * (s[SectionRow(r)] * w)
      {
        WeightedTransposeUpdateEntry(x, s, w, before, q[..], r);
      }
    }

    /** getBasicTangent: kb and q are zeroed and rebuilt from the sections alone, so
        nothing of an earlier call survives; kb is sum_i (wt_i / L) B_i^T ks_i B_i and
        q is sum_i wt_i B_i^T s_i, or zero when the initial state is queried. */
    method GetBasicTangent(state: State, length: real, beh: SectionBehaviour)
      requires Valid() && length != 0.0
      modifies kb, q
      ensures forall r, c :: 0 <= r < 6 && 0 <= c < 6 ==>
                kb[r, c] == BasicTangent(xi, wt, beh, sections, state, 1.0 / length)[r][c]
      ensures q[..] == BasicForce(xi, wt, beh, sections, state)
    {
      var oneOverL := 1.0 / length;
      StartIntegrals(state, oneOverL, beh);
      IntegrateSections(state, oneOverL, beh);
      assert state == Init ==> q[..] == ZeroVector(6);
    }

    /** kb and q zeroed: the integrals over no section. */
    method StartIntegrals(state: State, oneOverL: real, beh: SectionBehaviour)
      requires Valid()
      modifies kb, q
      ensures PartialIntegrals(0, state, oneOverL, beh)
    {
      ZeroIntegrals();
    }

    /** The integration loop of getBasicTangent, over every section in order. */
    method IntegrateSections(state: State, oneOverL: real, beh: SectionBehaviour)
      requires Valid() && PartialIntegrals(0, state, oneOverL, beh)
      modifies kb, q
      ensures PartialIntegrals(numSections, state, oneOverL, beh)
    {
      for i := 0 to numSections
        invariant PartialIntegrals(i, state, oneOverL, beh)
      {
        IntegrateSection(i, state, oneOverL, beh);
      }
    }

    /** kb and q hold the integrals over the first i sections (q stays zero when the
        initial state is queried). */
    ghost predicate PartialIntegrals(i: nat, state: State, oneOverL: real, beh: SectionBehaviour)
      requires Valid() && i <= numSections
      reads this, kb, q
    {
      (forall r, c :: 0 <= r < 6 && 0 <= c < 6 ==>
         kb[r, c] == TangentIntegral(xi, wt, Tangents(beh, sections, state), oneOverL, i)[r][c]) &&
      (state == Init ==> forall r :: 0 <= r < 6 ==> q[r] == 0.0) &&
      (state != Init ==> q[..] == ForceIntegral(xi, wt, Resultants(beh, sections), i))
    }

    /** One pass of the integration loop of getBasicTangent. */
    method IntegrateSection(i: nat, state: State, oneOverL: real, beh: SectionBehaviour)
      requires Valid() && i < numSections && PartialIntegrals(i, state, oneOverL, beh)
      modifies kb, q
      ensures PartialIntegrals(i + 1, state, oneOverL, beh)
    {
      IntegrateSectionTangent(i, state, oneOverL, beh);
      if state != Init {
        IntegrateSectionForce(i, beh);
      }
    }

    /** kb.zero() and q.zero(). */
    method ZeroIntegrals()
      requires Valid()
      modifies kb, q
      ensures forall r, c :: 0 <= r < 6 && 0 <= c < 6 ==> kb[r, c] == 0.0
      ensures q[..] == ZeroVector(6)
    {
      forall r, c | 0 <= r < 6 && 0 <= c < 6 {
        kb[r, c] := 0.0;
      }
      forall r | 0 <= r < 6 {
        q[r] := 0.0;
      }
      assert q[..] == ZeroVector(6);
    }

    /** One pass of the integration loop for the tangent: kb goes from the integral
        over the first i sections to the integral over the first i + 1. */
    method IntegrateSectionTangent(i: nat, state: State, oneOverL: real, beh: SectionBehaviour)
      requires Valid() && i < numSections
      requires forall r, c :: 0 <= r < 6 && 0 <= c < 6 ==>
                 kb[r, c] == TangentIntegral(xi, wt, Tangents(beh, sections, state), oneOverL, i)[r][c]
      modifies kb
      ensures forall r, c :: 0 <= r < 6 && 0 <= c < 6 ==>
                kb[r, c] == TangentIntegral(xi, wt, Tangents(beh, sections, state), oneOverL, i + 1)[r][c]
    {
      var wti := wt[i] * oneOverL;
      var ksi := beh.tangent(sections[i], state);
      AddSectionTangent(xi[i], ksi, wti);
      TangentStep(xi, wt, Tangents(beh, sections, state), oneOverL, i, ksi, wti);
    }

    /** One pass of the integration loop for the force: q goes from the integral
        over the first i sections to the integral over the first i + 1. */
    method IntegrateSectionForce(i: nat, beh: SectionBehaviour)
      requires Valid() && i < numSections
      requires q[..] == ForceIntegral(xi, wt, Resultants(beh, sections), i)
      modifies q
      ensures q[..] == ForceIntegral(xi, wt, Resultants(beh, sections), i + 1)
    {
      var s := beh.resultant(sections[i]);
      ghost var before := q[..];
      AddSectionForce(xi[i], s, wt[i]);
      ForceAdvance(xi, wt, Resultants(beh, sections), i, s, before, q[..]);
    }

    /** getBasicForce: the force the last tangent assembly left in q. */
    method GetBasicForce() returns (force: Vector)
      requires Valid()
      ensures force == q[..] && |force| == 6
    {
      force := q[..];
    }

    /** commitState: the base class status, then every section's, then the
        transform's, summed; every section commits its trial strain. */
    method CommitState(baseStatus: int, transfStatus: int, beh: SectionBehaviour) returns (retVal: int)
      requires Valid()
      modifies this`sections
      ensures Valid()
      ensures sections == CommitAll(old(sections))
      ensures retVal == baseStatus + Sum(CommitStatuses(beh, old(sections))) + transfStatus
    {
      var secs, total := CommitSections(sections, beh);
      sections := secs;
      retVal := baseStatus + total + transfStatus;
    }

    /** revertToLastCommit: every section's status, then the transform's, summed;
        every section drops its trial strain. */
    method RevertToLastCommit(transfStatus: int, beh: SectionBehaviour) returns (retVal: int)
      requires Valid()
      modifies this`sections
      ensures Valid()
      ensures sections == RevertAll(old(sections))
      ensures retVal == Sum(RevertStatuses(beh, old(sections))) + transfStatus
    {
      var secs, total := RevertSections(sections, beh);
      sections := secs;
      retVal := total + transfStatus;
    }

    /** revertToStart: every section's status, then the transform's, summed; every
        section returns to its construction state. */
    method RevertToStart(transfStatus: int, beh: SectionBehaviour) returns (retVal: int)
      requires Valid()
      modifies this`sections
      ensures Valid()
      ensures sections == RestartAll(old(sections))
      ensures retVal == Sum(RevertStartStatuses(beh, old(sections))) + transfStatus
    {
      var secs, total := RestartSections(sections, beh);
      sections := secs;
      retVal := total + transfStatus;
    }

    /** commitSensitivity: every section is given the sensitivity of its strains,
        component by component through its response codes; the result is 0. */
    method CommitSensitivity(v: Vector, dvdh: Vector, length: real, d1oLdh: real) returns (r: int)
      requires Valid() && |v| == 6 && |dvdh| == 6 && length != 0.0
      modifies this`sections
      ensures Valid() && r == 0
      ensures forall i :: 0 <= i < numSections ==>
                sections[i] == old(sections[i]).(strainSens :=
                  StrainSensitivities(old(sections[i]).codes, xi[i], v, dvdh, 1.0 / length, d1oLdh))
    {
      var oneOverL := 1.0 / length;
      ghost var secs0 := sections;
      var secs := sections;
      for i := 0 to numSections
        invariant |secs| == numSections
        invariant forall k :: 0 <= k < i ==>
                    secs[k] == secs0[k].(strainSens := StrainSensitivities(secs0[k].codes, xi[k], v, dvdh, oneOverL, d1oLdh))
        invariant forall k :: i <= k < numSections ==> secs[k] == secs0[k]
      {
        var e := SectionStrainSensitivity(secs[i].codes, xi[i], v, dvdh, oneOverL, d1oLdh);
        secs := secs[i := secs[i].(strainSens := e)];
      }
      sections := secs;
      r := 0;
    }

    /** The section part of getResistingForceSensitivity: each component of each
        section's resultant sensitivity, weighted by wt_i, is spread over the basic
        forces its response code feeds. */
    method SectionForceSensitivity(gradNumber: int, beh: SectionBehaviour) returns (dqdh: Vector)
      requires Valid()
      requires forall i :: 0 <= i < numSections ==>
                 |beh.resultantSens(sections[i], gradNumber)| == |sections[i].codes|
      ensures dqdh == ForceSensitivity(CodesOf(sections), xi, wt,
                                       ResultantSensitivities(beh, sections, gradNumber), numSections)
    {
      ghost var codes := CodesOf(sections);
      ghost var ds := ResultantSensitivities(beh, sections, gradNumber);
      dqdh := ZeroVector(6);
      for i := 0 to numSections
        invariant dqdh == ForceSensitivity(codes, xi, wt, ds, i)
      {
        var dsdh := beh.resultantSens(sections[i], gradNumber);
        ghost var before := dqdh;
        dqdh := AddSectionSensitivity(sections[i].codes, xi[i], wt[i], dsdh, dqdh);
        ForceSensitivityAdvance(codes, xi, wt, ds, i, before, dqdh);
      }
    }

    /** The inner loop of getResistingForceSensitivity for one section. */
    static method AddSectionSensitivity(code: seq<int>, x: real, wti: real, dsdh: Vector, before: Vector)
      returns (dqdh: Vector)
      requires |dsdh| == |code| && |before| == 6
      ensures |dqdh| == 6
      ensures forall r :: 0 <= r < 6 ==> dqdh[r] == before[r] + SectionForceSens(code, x, wti, dsdh, |code|)[r]
    {
      dqdh := before;
      for j := 0 to |code|
        invariant |dqdh| == 6
        invariant forall r :: 0 <= r < 6 ==> dqdh[r] == before[r] + SectionForceSens(code, x, wti, dsdh, j)[r]
      {
        ghost var prev := dqdh;
        var sensi := dsdh[j] * wti;
        dqdh := AddComponentSensitivity(code[j], x, sensi, dqdh);
        forall r | 0 <= r < 6
          ensures dqdh[r] == before[r] + SectionForceSens(code, x, wti, dsdh, j + 1)[r]
        {
          SectionForceSensStep(code, x, wti, dsdh, j + 1, r);
        }
      }
    }

    /** One case of the switch on the response code: the weighted sensitivity of one
        component goes to the basic forces the code feeds, and nowhere for other codes. */
    static method AddComponentSensitivity(code: int, x: real, sensi: real, before: Vector) returns (dqdh: Vector)
      requires |before| == 6
      ensures |dqdh| == 6
      ensures forall r :: 0 <= r < 6 ==> dqdh[r] == before[r] + CodeForce(code, x, sensi)[r]
    {
      dqdh := before;
      if code == ResponseP {
        dqdh := dqdh[0 := dqdh[0] + sensi];
      } else if code == ResponseMz {
        dqdh := dqdh[1 := dqdh[1] + NearFactor(x) * sensi];
        dqdh := dqdh[2 := dqdh[2] + FarFactor(x) * sensi];
      } else if code == ResponseMy {
        dqdh := dqdh[3 := dqdh[3] + NearFactor(x) * sensi];
        dqdh := dqdh[4 := dqdh[4] + FarFactor(x) * sensi];
      } else if code == ResponseT {
        dqdh := dqdh[5 := dqdh[5] + sensi];
      }
    }
  
    /** The header fields as the element holds them. */
    function HeaderOf(): (h: Header)
      reads this
      ensures h.numSections == numSections && h.transfDbTag == transfDbTag && h.intDbTag == intDbTag
    {
      Header(tag, node1, node2, numSections, transfClassTag, transfDbTag, intClassTag, intDbTag,
             rho, cMass, alphaM, betaK, betaK0, betaKc)
    }

    /** sendSelf: the transform and the integration rule without a dbTag take the
        channel's; the header is sent, then the transform, the integration rule, the
        index array (sections without a dbTag take the channel's first) and every
        section; the first failure gives -1. The statuses of the channel and of the
        collaborators' sends are parameters. */
    method SendSelf(transfChannelTag: int, intChannelTag: int, sectionChannelTags: seq<int>,
                    dataStatus: int, transfStatus: int, intStatus: int,
                    idStatus: int, sectionStatuses: seq<int>)
      returns (status: int, data: seq<real>, ids: seq<int>)
      requires Valid() && hasTransform && hasIntegration
      requires |sectionChannelTags| == numSections && |sectionStatuses| == numSections
      modifies this`transfDbTag, this`intDbTag, this`sections
      ensures Valid()
      ensures transfDbTag == AssignedDbTag(old(transfDbTag), transfChannelTag)
      ensures intDbTag == AssignedDbTag(old(intDbTag), intChannelTag)
      ensures data == EncodeHeader(HeaderOf())
      ensures dataStatus < 0 || transfStatus < 0 || intStatus < 0 ==>
                status == -1 && sections == old(sections)
      ensures dataStatus >= 0 && transfStatus >= 0 && intStatus >= 0 ==>
                sections == AssignSectionDbTags(old(sections), sectionChannelTags) &&
                ids == SectionIds(sections) &&
                (status == 0 <==> idStatus >= 0 && forall j :: 0 <= j < numSections ==> sectionStatuses[j] >= 0) &&
                (status != 0 ==> status == -1)
    {
      transfDbTag := AssignedDbTag(transfDbTag, transfChannelTag);
      intDbTag := AssignedDbTag(intDbTag, intChannelTag);
      data := EncodeHeader(HeaderOf());
      ids := [];
      if dataStatus < 0 || transfStatus < 0 || intStatus < 0 {
        return -1, data, ids;
      }
      ids := AssignSectionIds(sectionChannelTags);
      if idStatus < 0 {
        return -1, data, ids;
      }
      for j := 0 to numSections
        invariant forall k :: 0 <= k < j ==> sectionStatuses[k] >= 0
      {
        if sectionStatuses[j] < 0 {
          return -1, data, ids;
        }
      }
      status := 0;
    }

    /** The index array loop of sendSelf: a section without a dbTag takes the
        channel's, then its class and dbTag are recorded. */
    method AssignSectionIds(channelTags: seq<int>) returns (ids: seq<int>)
      requires Valid() && |channelTags| == numSections
      modifies this`sections
      ensures Valid()
      ensures sections == AssignSectionDbTags(old(sections), channelTags)
      ensures ids == SectionIds(sections)
    {
      ghost var secs0 := sections;
      ids := [];
      for i := 0 to numSections
        invariant |sections| == numSections
        invariant forall k :: 0 <= k < i ==>
                    sections[k] == secs0[k].(dbTag := if secs0[k].dbTag == 0 then channelTags[k] else secs0[k].dbTag)
        invariant forall k :: i <= k < numSections ==> sections[k] == secs0[k]
        invariant ids == SectionIds(sections[..i])
      {
        if sections[i].dbTag == 0 {
          sections := sections[i := sections[i].(dbTag := channelTags[i])];
        }
        assert sections[..i + 1][..i] == sections[..i];
        ids := ids + [sections[i].classTag, sections[i].dbTag];
      }
      assert sections[..numSections] == sections;
    }

    /** recvSelf: the header fields are read back, then the transform and the
        integration rule are received (see ReceiveCollaborators), then the index array
        and each section. The statuses of the channel, the broker and the
        collaborators are parameters. */
    method RecvSelf(dataStatus: int, data: seq<real>, transfStatus: int, brokerHasInt: bool,
                    intStatus: int, idStatus: int, ids: seq<int>, sectionStatuses: seq<int>)
      returns (status: int)
      requires Valid() && |data| == HeaderSize
      requires |ids| == 2 * numSections && |sectionStatuses| == numSections
      modifies this`tag, this`node1, this`node2, this`rho, this`cMass, this`alphaM, this`betaK,
               this`betaK0, this`betaKc, this`hasTransform, this`transfDbTag,
               this`hasIntegration, this`intClassTag, this`intDbTag, this`sections
      ensures Valid()
      ensures dataStatus < 0 ==> status == -1 && unchanged(this)
      ensures dataStatus >= 0 ==> HeaderFieldsRead(DecodeHeader(data))
      ensures dataStatus >= 0 ==>
                (hasTransform, transfDbTag, hasIntegration, intClassTag, intDbTag) ==
                  ReceiveCollaborators(DecodeHeader(data), old(hasTransform), old(transfClassTag), old(transfDbTag),
                                       transfStatus, old(hasIntegration), old(intClassTag), old(intDbTag),
                                       brokerHasInt, intStatus).0
      ensures dataStatus >= 0 ==>
                var st := ReceiveCollaborators(DecodeHeader(data), old(hasTransform), old(transfClassTag), old(transfDbTag),
                                               transfStatus, old(hasIntegration), old(intClassTag), old(intDbTag),
                                               brokerHasInt, intStatus).1;
                (st != 0 ==> status == st && sections == old(sections)) &&
                (st == 0 && (idStatus < 0 || DecodeHeader(data).numSections != numSections) ==>
                   status == -1 && sections == old(sections)) &&
                (st == 0 && idStatus >= 0 && DecodeHeader(data).numSections == numSections ==>
                   (sections, status) == ReceiveSections(old(sections), ids, sectionStatuses, numSections))
    {
      if dataStatus < 0 {
        return -1;
      }
      var h := DecodeHeader(data);
      ReadHeader(h);
      status := RecvParts(h, transfStatus, brokerHasInt, intStatus, idStatus, ids, sectionStatuses);
    }

    /** recvSelf after the header h is read. */
    method RecvParts(h: Header, transfStatus: int, brokerHasInt: bool, intStatus: int, idStatus: int,
                     ids: seq<int>, sectionStatuses: seq<int>)
      returns (status: int)
      requires Valid() && |ids| == 2 * numSections && |sectionStatuses| == numSections
      modifies this`hasTransform, this`transfDbTag, this`hasIntegration, this`intClassTag,
               this`intDbTag, this`sections
      ensures Valid()
      ensures (hasTransform, transfDbTag, hasIntegration, intClassTag, intDbTag) ==
                ReceiveCollaborators(h, old(hasTransform), old(transfClassTag), old(transfDbTag),
                                     transfStatus, old(hasIntegration), old(intClassTag), old(intDbTag),
                                     brokerHasInt, intStatus).0
      ensures var st := ReceiveCollaborators(h, old(hasTransform), old(transfClassTag), old(transfDbTag),
                                             transfStatus, old(hasIntegration), old(intClassTag), old(intDbTag),
                                             brokerHasInt, intStatus).1;
              (st != 0 ==> status == st && sections == old(sections)) &&
              (st == 0 && (idStatus < 0 || h.numSections != numSections) ==>
                 status == -1 && sections == old(sections)) &&
              (st == 0 && idStatus >= 0 && h.numSections == numSections ==>
                 (sections, status) == ReceiveSections(old(sections), ids, sectionStatuses, numSections))
    {
      var r := ReceiveCollaborators(h, hasTransform, transfClassTag, transfDbTag, transfStatus,
                                    hasIntegration, intClassTag, intDbTag, brokerHasInt, intStatus);
      hasTransform, transfDbTag, hasIntegration, intClassTag, intDbTag := r.0.0, r.0.1, r.0.2, r.0.3, r.0.4;
      if r.1 != 0 {
        return r.1;
      }
      if idStatus < 0 || h.numSections != numSections {
        return -1;
      }
      status := RecvSections(ids, sectionStatuses);
    }

    /** The section the "sectionX" parameter addresses: the nearest integration point
        to the location loc (a fraction of the length), the first one on ties. */
    method NearestSection(loc: real) returns (k: nat)
      requires Valid() && 0 < numSections
      ensures k == FirstNearest(xi, loc, numSections)
      ensures k < numSections
    {
      var minDistance := Abs(xi[0] - loc);
      k := 0;
      for i := 1 to numSections
        invariant k == FirstNearest(xi, loc, i) && minDistance == Abs(xi[k] - loc)
      {
        if Abs(xi[i] - loc) < minDistance {
          minDistance := Abs(xi[i] - loc);
          k := i;
        }
      }
    }

    /** setParameter: the base class answers first; then "sectionX" goes to the section
        nearest to the location argv[1] (read as sectionLoc, after the element is set to
        its initial state with status initStatus), "section" to the section numbered
        argv[1] from 1, "integration" to the integration rule, and anything else to
        every section and then the rule, reporting the last status that is not -1. */
    method SetParameter(baseStatus: int, argv: seq<string>, initStatus: int, sectionLoc: real,
                        length: real, beh: SectionBehaviour, ruleSetParameter: seq<string> -> int)
      returns (status: int)
      requires Valid()
      requires (baseStatus == -1 && |argv| >= 3 && Contains(argv[0], "sectionX") && initStatus == 0 &&
                numSections > 0) ==> length != 0.0
      ensures baseStatus != -1 ==> status == baseStatus
      ensures baseStatus == -1 && |argv| < 1 ==> status == -1
      ensures baseStatus == -1 && |argv| >= 1 && Contains(argv[0], "sectionX") ==>
                status == if |argv| < 3 || initStatus != 0 || numSections == 0 then -1
                          else beh.setParameter(sections[FirstNearest(xi, sectionLoc / length, numSections)], argv[2..])
      ensures baseStatus == -1 && |argv| >= 1 && !Contains(argv[0], "sectionX") && Contains(argv[0], "section") ==>
                status == if |argv| < 3 || !(0 < Atoi(argv[1]) <= numSections) then -1
                          else beh.setParameter(sections[Atoi(argv[1]) - 1], argv[2..])
      ensures baseStatus == -1 && |argv| >= 1 && !Contains(argv[0], "section") && Contains(argv[0], "integration") ==>
                status == if |argv| < 2 then -1 else ruleSetParameter(argv[1..])
      ensures baseStatus == -1 && |argv| >= 1 && !Contains(argv[0], "section") && !Contains(argv[0], "integration") ==>
                status == LastAccepted(ParameterStatuses(beh, sections, argv) + [ruleSetParameter(argv)])
    {
      if baseStatus != -1 {
        return baseStatus;
      }
      if |argv| < 1 {
        return -1;
      }
      if Contains(argv[0], "sectionX") {
        assert "section" <= "sectionX";
        ContainsPrefix(argv[0], "sectionX", "section");
        if |argv| < 3 || initStatus != 0 || numSections == 0 {
          return -1;
        }
        var k := NearestSection(sectionLoc / length);
        return beh.setParameter(sections[k], argv[2..]);
      }
      if Contains(argv[0], "section") {
        if |argv| < 3 {
          return -1;
        }
        var sectionNum := Atoi(argv[1]);
        if 0 < sectionNum <= numSections {
          return beh.setParameter(sections[sectionNum - 1], argv[2..]);
        }
        return -1;
      }
      if Contains(argv[0], "integration") {
        if |argv| < 2 {
          return -1;
        }
        return ruleSetParameter(argv[1..]);
      }
      status := BroadcastParameter(argv, beh);
      LastAcceptedAppend(ParameterStatuses(beh, sections, argv), ruleSetParameter(argv));
      var ok := ruleSetParameter(argv);
      if ok != -1 {
        status := ok;
      }
    }

    /** The default case of setParameter over the sections: the last status that is
        not -1. */
    method BroadcastParameter(argv: seq<string>, beh: SectionBehaviour) returns (result: int)
      requires Valid()
      ensures result == LastAccepted(ParameterStatuses(beh, sections, argv))
    {
      ghost var statuses := ParameterStatuses(beh, sections, argv);
      result := -1;
      for i := 0 to numSections
        invariant result == LastAccepted(statuses[..i])
      {
        var ok := beh.setParameter(sections[i], argv);
        assert statuses[..i + 1] == statuses[..i] + [ok];
        LastAcceptedAppend(statuses[..i], ok);
        if ok != -1 {
          result := ok;
        }
      }
      assert statuses[..numSections] == statuses;
    }

    /** The numeric header fields of recvSelf. */
    method ReadHeader(h: Header)
      modifies this`tag, this`node1, this`node2, this`rho, this`cMass, this`alphaM, this`betaK,
               this`betaK0, this`betaKc
      ensures HeaderFieldsRead(h)
    {
      tag, node1, node2 := h.tag, h.node1, h.node2;
      rho, cMass := h.rho, h.cMass;
      alphaM, betaK, betaK0, betaKc := h.alphaM, h.betaK, h.betaK0, h.betaKc;
    }

    /** The numeric header fields hold what the header h says. */
    ghost predicate HeaderFieldsRead(h: Header)
      reads this
    {
      tag == h.tag && node1 == h.node1 && node2 == h.node2 && rho == h.rho && cMass == h.cMass &&
      alphaM == h.alphaM && betaK == h.betaK && betaK0 == h.betaK0 && betaKc == h.betaKc
    }

    /** The section loop of recvSelf, for an element whose section count matches the
        header's. */
    method RecvSections(ids: seq<int>, sectionStatuses: seq<int>) returns (status: int)
      requires Valid() && |ids| == 2 * numSections && |sectionStatuses| == numSections
      modifies this`sections
      ensures Valid()
      ensures (sections, status) == ReceiveSections(old(sections), ids, sectionStatuses, numSections)
    {
      ghost var secs0 := sections;
      status := 0;
      for i := 0 to numSections
        invariant (sections, status) == ReceiveSections(secs0, ids, sectionStatuses, i)
        invariant forall k :: i <= k < numSections ==> sections[k] == secs0[k]
      {
        if status != 0 {
        } else if sections[i].classTag != ids[2 * i] {
          status := -1;
        } else {
          sections := sections[i := sections[i].(dbTag := ids[2 * i + 1])];
          if sectionStatuses[i] < 0 {
            status := -1;
          }
        }
      }
    }
  }

  /** What every section answers when a parameter is broadcast to it. */
  function ParameterStatuses(beh: SectionBehaviour, secs: seq<Section>, argv: seq<string>): (r: seq<int>)
    ensures |r| == |secs| && forall i :: 0 <= i < |secs| ==> r[i] == beh.setParameter(secs[i], argv)
  {
    seq(|secs|, i requires 0 <= i < |secs| => beh.setParameter(secs[i], argv))
  }

  /** The transform and integration rule part of recvSelf, from the header h and the
      element's (hasTransform, transfClassTag, transfDbTag, hasIntegration,
      intClassTag, intDbTag): the new (hasTransform, transfDbTag, hasIntegration,
      intClassTag, intDbTag) and the status. A transform that is missing or of another
      class is dropped and cannot be replaced (-2); otherwise it takes the header's
      dbTag and receives itself (-3 on failure). An integration rule that is missing or
      of another class is replaced through the broker (dropped, -1, when the broker has
      none); it takes the header's dbTag and receives itself (-3 on failure). */
  function ReceiveCollaborators(h: Header, hasTransform: bool, transfClassTag: int, transfDbTag: int,
                                transfStatus: int, hasIntegration: bool, intClassTag: int,
                                intDbTag: int, brokerHasInt: bool, intStatus: int)
    : (r: ((bool, int, bool, int, int), int))
    ensures r.1 == 0 <==>
              hasTransform && transfClassTag == h.transfClassTag && transfStatus >= 0 &&
              ((hasIntegration && intClassTag == h.intClassTag) || brokerHasInt) && intStatus >= 0
    ensures r.1 == 0 ==> r.0 == (true, h.transfDbTag, true, h.intClassTag, h.intDbTag)
    ensures r.1 in {0, -1, -2, -3}
  {
    if !hasTransform || transfClassTag != h.transfClassTag then
      ((false, transfDbTag, hasIntegration, intClassTag, intDbTag), -2)
    else if transfStatus < 0 then
      ((true, h.transfDbTag, hasIntegration, intClassTag, intDbTag), -3)
    else if (!hasIntegration || intClassTag != h.intClassTag) && !brokerHasInt then
      ((true, h.transfDbTag, false, intClassTag, intDbTag), -1)
    else
      ((true, h.transfDbTag, true, h.intClassTag, h.intDbTag), if intStatus < 0 then -3 else 0)
  }
}
