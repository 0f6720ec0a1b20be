/** What the distributed-section frame computes from its sections, as functions of the
    integration data (locations xi, weights wt), the basic deformation v and the
    length: the trial strain each section receives, the basic tangent
    sum_i B_i^T ks_i B_i wt_i / L and the basic force sum_i B_i^T s_i wt_i. */
module CubicFrameIntegration {
  import opened LinearAlgebra
  import opened CubicInterpolation
  import opened FrameSections

  /** The trial strain of every section for basic deformation v. */
  function TrialStrains(xi: seq<real>, v: Vector, oneOverL: real): (e: seq<Vector>)
    requires |v| == 6
    ensures |e| == |xi|
    ensures forall i :: 0 <= i < |xi| ==> e[i] == SectionStrain(xi[i], v, oneOverL)
  {
    seq(|xi|, i requires 0 <= i < |xi| => SectionStrain(xi[i], v, oneOverL))
  }

  /** The sections after section i received trial strain e[i]. */
  function WithTrial(secs: seq<Section>, e: seq<Vector>): (r: seq<Section>)
    requires |e| == |secs|
    ensures |r| == |secs|
    ensures forall i :: 0 <= i < |secs| ==> r[i] == secs[i].(trial := e[i])
  {
    seq(|secs|, i requires 0 <= i < |secs| => secs[i].(trial := e[i]))
  }

  /** The status each section returns when it receives its trial strain. */
  function TrialStatuses(beh: SectionBehaviour, secs: seq<Section>, e: seq<Vector>): (r: seq<int>)
    requires |e| == |secs|
    ensures |r| == |secs|
    ensures forall i :: 0 <= i < |secs| ==> r[i] == beh.setTrial(secs[i], e[i])
  {
    seq(|secs|, i requires 0 <= i < |secs| => beh.setTrial(secs[i], e[i]))
  }

  /** The tangent every section reports for the queried state. */
  function Tangents(beh: SectionBehaviour, secs: seq<Section>, state: State): (ks: seq<Mat4>)
    ensures |ks| == |secs|
    ensures forall i :: 0 <= i < |secs| ==> ks[i] == beh.tangent(secs[i], state)
  {
    seq(|secs|, i requires 0 <= i < |secs| => beh.tangent(secs[i], state))
  }

  /** The stress resultant every section reports. */
  function Resultants(beh: SectionBehaviour, secs: seq<Section>): (s: seq<Vec4>)
    ensures |s| == |secs|
    ensures forall i :: 0 <= i < |secs| ==> s[i] == beh.resultant(secs[i])
  {
    seq(|secs|, i requires 0 <= i < |secs| => beh.resultant(secs[i]))
  }

  /** What one section at xi with tangent ks and weight w adds to entry (r, c) of the
      basic tangent: w Coef(r) Coef(c) ks[row r][row c]. */
  function TangentTerm(xi: real, ks: Mat4, w: real, r: nat, c: nat): real
    requires r < 6 && c < 6
  {
    Coef(xi, r) * (Coef(xi, c) * (ks[SectionRow(r)][SectionRow(c)] * w))
  }

  /** The contribution of one section to the basic tangent, entry by entry. */
  function SectionTangent(xi: real, ks: Mat4, w: real): (m: Matrix)
    ensures IsMatrix(m, 6, 6)
    ensures forall r, c :: 0 <= r < 6 && 0 <= c < 6 ==> m[r][c] == TangentTerm(xi, ks, w, r, c)
  {
    seq(6, r requires 0 <= r < 6 => seq(6, c requires 0 <= c < 6 => TangentTerm(xi, ks, w, r, c)))
  }

  /** The sum over the first n sections of their contributions, with weights wt_i / L. */
  function TangentIntegral(xi: seq<real>, wt: seq<real>, ks: seq<Mat4>, oneOverL: real, n: nat): (kb: Matrix)
    requires n <= |xi| && n <= |wt| && n <= |ks|
    ensures IsMatrix(kb, 6, 6)
  {
    if n == 0 then ZeroMatrix(6, 6)
    else
      MatAdd(TangentIntegral(xi, wt, ks, oneOverL, n - 1),
             SectionTangent(xi[n - 1], ks[n - 1], wt[n - 1] * oneOverL), 6, 6)
  }

  /** The same sum as the textbook integral: sum_i (wt_i / L) B(xi_i)^T ks_i B(xi_i). */
  function TripleProductIntegral(xi: seq<real>, wt: seq<real>, ks: seq<Mat4>, oneOverL: real, n: nat): (kb: Matrix)
    requires n <= |xi| && n <= |wt| && n <= |ks|
    ensures IsMatrix(kb, 6, 6)
  {
    if n == 0 then ZeroMatrix(6, 6)
    else
      MatAdd(TripleProductIntegral(xi, wt, ks, oneOverL, n - 1),
             MatScale(wt[n - 1] * oneOverL, TripleProduct(xi[n - 1], ks[n - 1]), 6, 6), 6, 6)
  }

  /** sum over the first n sections of wt_i B(xi_i)^T s_i. */
  function ForceIntegral(xi: seq<real>, wt: seq<real>, s: seq<Vec4>, n: nat): (q: Vector)
    requires n <= |xi| && n <= |wt| && n <= |s|
    ensures |q| == 6
  {
    if n == 0 then ZeroVector(6)
    else VecAdd(ForceIntegral(xi, wt, s, n - 1), VecScale(wt[n - 1], TransposeProduct(xi[n - 1], s[n - 1])))
  }

  lemma Reorder(a: real, b: real, k: real, w: real)
    ensures w * (a * (k * b)) == a * (b * (k * w))
  {
  }

  /** One section's contribution is w B^T ks B. */
  lemma SectionTangentIsTripleProduct(xi: real, ks: Mat4, w: real)
    ensures SectionTangent(xi, ks, w) == MatScale(w, TripleProduct(xi, ks), 6, 6)
  {
    var m := SectionTangent(xi, ks, w);
    var t := MatScale(w, TripleProduct(xi, ks), 6, 6);
    forall r | 0 <= r < 6
      ensures m[r] == t[r]
    {
      forall c | 0 <= c < 6
        ensures m[r][c] == t[r][c]
      {
        WeightedTriple(xi, ks, w, r, c);
      }
    }
  }

  lemma WeightedTriple(xi: real, ks: Mat4, w: real, r: nat, c: nat)
    requires r < 6 && c < 6
    ensures MatScale(w, TripleProduct(xi, ks), 6, 6)[r][c] == TangentTerm(xi, ks, w, r, c)
  {
    TripleProductEntry(xi, ks, r, c);
    Reorder(Coef(xi, r), Coef(xi, c), ks[SectionRow(r)][SectionRow(c)], w);
  }

  /** Hence the element's sum is the textbook integral of B^T ks B. */
  lemma {:induction false} TangentIntegralIsTripleProductIntegral(xi: seq<real>, wt: seq<real>, ks: seq<Mat4>,
                                                                  oneOverL: real, n: nat)
    requires n <= |xi| && n <= |wt| && n <= |ks|
    ensures TangentIntegral(xi, wt, ks, oneOverL, n) == TripleProductIntegral(xi, wt, ks, oneOverL, n)
  {
    if n > 0 {
      TangentIntegralIsTripleProductIntegral(xi, wt, ks, oneOverL, n - 1);
      SectionTangentIsTripleProduct(xi[n - 1], ks[n - 1], wt[n - 1] * oneOverL);
    }
  }

  /** Adding section i changes entry (r, c) of the tangent integral by its term. */
  lemma TangentStep(xi: seq<real>, wt: seq<real>, ks: seq<Mat4>, oneOverL: real, i: nat, ksi: Mat4, wti: real)
    requires i < |xi| && i < |wt| && i < |ks| && ksi == ks[i] && wti == wt[i] * oneOverL
    ensures forall r, c :: 0 <= r < 6 && 0 <= c < 6 ==>
              TangentIntegral(xi, wt, ks, oneOverL, i + 1)[r][c] ==
                TangentIntegral(xi, wt, ks, oneOverL, i)[r][c] + TangentTerm(xi[i], ksi, wti, r, c)
  {
    var n := i + 1;
    assert TangentIntegral(xi, wt, ks, oneOverL, n) ==
             MatAdd(TangentIntegral(xi, wt, ks, oneOverL, n - 1), SectionTangent(xi[i], ks[i], wt[i] * oneOverL), 6, 6);
  }

  /** Adding section i changes entry r of the force integral by wt_i Coef(r) s_i[row r]. */
  lemma ForceStep(xi: seq<real>, wt: seq<real>, s: seq<Vec4>, i: nat, si: Vec4)
    requires i < |xi| && i < |wt| && i < |s| && si == s[i]
    ensures forall r :: 0 <= r < 6 ==>
              ForceIntegral(xi, wt, s, i + 1)[r] ==
                ForceIntegral(xi, wt, s, i)[r] + Coef(xi[i], r) * (si[SectionRow(r)] * wt[i])
  {
    forall r | 0 <= r < 6
      ensures ForceIntegral(xi, wt, s, i + 1)[r] ==
                ForceIntegral(xi, wt, s, i)[r] + Coef(xi[i], r) * (si[SectionRow(r)] * wt[i])
    {
      TransposeProductEntry(xi[i], s[i], r);
    }
  }

  /** A force vector that was the integral over the first i sections, and gained
      section i's contribution entry by entry, is the integral over i + 1 sections. */
  lemma ForceAdvance(xi: seq<real>, wt: seq<real>, s: seq<Vec4>, i: nat, si: Vec4, before: Vector, after: Vector)
    requires i < |xi| && i < |wt| && i < |s| && si == s[i]
    requires before == ForceIntegral(xi, wt, s, i) && |after| == 6
    requires forall r :: 0 <= r < 6 ==> after[r] == before[r] + Coef(xi[i], r) * (si[SectionRow(r)] * wt[i])
    ensures after == ForceIntegral(xi, wt, s, i + 1)
  {
    ForceStep(xi, wt, s, i, si);
    var next := ForceIntegral(xi, wt, s, i + 1);
    forall r | 0 <= r < 6
      ensures after[r] == next[r]
    {
    }
  }

  /** The basic tangent the element assembles from its sections. */
  function BasicTangent(xi: seq<real>, wt: seq<real>, beh: SectionBehaviour, secs: seq<Section>,
                        state: State, oneOverL: real): (kb: Matrix)
    requires |xi| == |secs| && |wt| == |secs|
    ensures IsMatrix(kb, 6, 6)
  {
    TangentIntegral(xi, wt, Tangents(beh, secs, state), oneOverL, |secs|)
  }

  /** The basic force the element assembles alongside the tangent: zero when the
      initial state is queried. */
  function BasicForce(xi: seq<real>, wt: seq<real>, beh: SectionBehaviour, secs: seq<Section>,
                      state: State): (q: Vector)
    requires |xi| == |secs| && |wt| == |secs|
    ensures |q| == 6
  {
    if state == Init then ZeroVector(6) else ForceIntegral(xi, wt, Resultants(beh, secs), |secs|)
  }

  /** The assembled basic tangent is sum_i (wt_i / L) B_i^T ks_i B_i over the sections. */
  lemma BasicTangentIsIntegral(xi: seq<real>, wt: seq<real>, beh: SectionBehaviour, secs: seq<Section>,
                               state: State, oneOverL: real)
    requires |xi| == |secs| && |wt| == |secs|
    ensures BasicTangent(xi, wt, beh, secs, state, oneOverL) ==
              TripleProductIntegral(xi, wt, Tangents(beh, secs, state), oneOverL, |secs|)
  {
    TangentIntegralIsTripleProductIntegral(xi, wt, Tangents(beh, secs, state), oneOverL, |secs|);
  }

  lemma SwapCoefs(a: real, b: real, k: real, w: real)
    ensures a * (b * (k * w)) == b * (a * (k * w))
  {
  }

  /** A section's contribution is symmetric when its tangent is. */
  lemma SectionTangentSymmetric(xi: real, ks: Mat4, w: real)
    requires Symmetric(ks, 4)
    ensures Symmetric(SectionTangent(xi, ks, w), 6)
  {
    forall r, c | 0 <= r < 6 && 0 <= c < 6
      ensures TangentTerm(xi, ks, w, r, c) == TangentTerm(xi, ks, w, c, r)
    {
      assert ks[SectionRow(r)][SectionRow(c)] == ks[SectionRow(c)][SectionRow(r)];
      SwapCoefs(Coef(xi, r), Coef(xi, c), ks[SectionRow(r)][SectionRow(c)], w);
    }
  }

  /** The tangent integral is symmetric whenever every section tangent is. */
  lemma {:induction false} TangentIntegralSymmetric(xi: seq<real>, wt: seq<real>, ks: seq<Mat4>,
                                                    oneOverL: real, n: nat)
    requires n <= |xi| && n <= |wt| && n <= |ks|
    requires forall i :: 0 <= i < n ==> Symmetric(ks[i], 4)
    ensures Symmetric(TangentIntegral(xi, wt, ks, oneOverL, n), 6)
  {
    if n > 0 {
      var prev := TangentIntegral(xi, wt, ks, oneOverL, n - 1);
      var term := SectionTangent(xi[n - 1], ks[n - 1], wt[n - 1] * oneOverL);
      TangentIntegralSymmetric(xi, wt, ks, oneOverL, n - 1);
      SectionTangentSymmetric(xi[n - 1], ks[n - 1], wt[n - 1] * oneOverL);
      var m := TangentIntegral(xi, wt, ks, oneOverL, n);
      assert m == MatAdd(prev, term, 6, 6);
      forall r, c | 0 <= r < 6 && 0 <= c < 6
        ensures m[r][c] == m[c][r]
      {
        assert prev[r][c] == prev[c][r];
        assert term[r][c] == term[c][r];
      }
    }
  }

  /** Hence the assembled basic tangent is symmetric when the sections' are. */
  lemma BasicTangentSymmetric(xi: seq<real>, wt: seq<real>, beh: SectionBehaviour,
                              secs: seq<Section>, state: State, oneOverL: real)
    requires |xi| == |secs| && |wt| == |secs|
    requires forall i :: 0 <= i < |secs| ==> Symmetric(beh.tangent(secs[i], state), 4)
    ensures Symmetric(BasicTangent(xi, wt, beh, secs, state, oneOverL), 6)
  {
    TangentIntegralSymmetric(xi, wt, Tangents(beh, secs, state), oneOverL, |secs|);
  }

  /** The sections' trial statuses sum to zero exactly when every section accepted
      its strain, provided the sections report failures as positive codes. */
  lemma UpdateSucceedsIff(beh: SectionBehaviour, secs: seq<Section>, e: seq<Vector>)
    requires |e| == |secs|
    requires forall i :: 0 <= i < |secs| ==> beh.setTrial(secs[i], e[i]) >= 0
    ensures Sum(TrialStatuses(beh, secs, e)) == 0 <==>
              forall i :: 0 <= i < |secs| ==> beh.setTrial(secs[i], e[i]) == 0
  {
    SumZeroIff(TrialStatuses(beh, secs, e));
  }
}
