# OpenSeesRT frame elements and trapezoidal time-series integrator, in Dafny

This project models three pieces of the OpenSeesRT structural analysis code and
proves properties of them. Doubles are treated as reals throughout.

- **CubicFrame3d** is the distributed-section 3-D frame element with cubic Hermite
  curvature interpolation. It owns one cross-section per integration point.
  - `update` pushes the strain (1/L) B(xi) v to every section.
  - `getBasicTangent` zeroes the 6x6 basic tangent `kb` and the basic force `q`, then
    accumulates sum_i B_i^T ks_i B_i wt_i / L and sum_i B_i^T s_i wt_i in place.
  - The commit and revert calls sum the status codes of the sections and of the
    coordinate transform.
  - `sendSelf`/`recvSelf` carry a 14-entry header and an index array of
    (classTag, dbTag) pairs.
  - `setParameter` routes a parameter name to a section, the integration rule or
    all of them.
  - The sensitivity code pushes strain sensitivities and integrates the sections'
    resultant sensitivities through their response codes.
- **PrismFrame3d** is the prismatic elastic 3-D frame.
  - `formBasicStiffness` is the closed-form stiffness with moment releases.
  - `update` adds the P-Delta correction or applies the stability functions.
  - `getBasicTangent` stores the mass term when `rate == 2`.
  - `setParameter`/`updateParameter` read and write the material constants.
  - The 19-entry data vector is what `sendSelf`/`recvSelf` exchange.
- **TrapezoidalTimeSeriesIntegrator::integrate** fills an array with the
  cumulative trapezoid sums of a load time series.

## Modules

| file | module | contents |
|---|---|---|
| LinearAlgebra.dfy | LinearAlgebra | vectors and matrices as sequences, dot products of sparse vectors |
| Casts.dfy | Casts | the C `(int)` cast (truncation toward zero) |
| Dispatch.dfy | Dispatch | `strstr`, `atoi`, nearest location, "last status that is not -1" |
| FrameSections.dfy | FrameSections | the section state (`Section`), the section's answers (`SectionBehaviour`), and the commit/revert section loops |
| CubicInterpolation.dfy | CubicInterpolation | B(xi), the Hermite factors, entrywise forms of B^T ks B and B^T s |
| CubicFrameIntegration.dfy | CubicFrameIntegration | the strain, tangent and force integrals as functions, and their properties |
| CubicFrameSensitivity.dfy | CubicFrameSensitivity | strain and force sensitivities through response codes |
| CubicFrameData.dfy | CubicFrameData | the header and index-array layout, and the section receive |
| CubicFrame3d.dfy | CubicFrame | class `CubicFrame3d`: `kb` is an `array2`, `q` is an `array`, and the sections are a `seq` field |
| PrismStiffness.dfy | PrismStiffness | `formBasicStiffness` as a function, and the P-Delta matrix |
| PrismFrame3d.dfy | PrismFrame | class `PrismFrame3d`: `km`, `ke`, `kg` and `q` are value fields, as MatrixND and VectorND are value types |
| TrapezoidalIntegrator.dfy | TrapezoidalIntegration | `integrate` filling an `array`, as written and as intended |

The collaborators are parameters: the coordinate transform, the beam integration
rule, the channel, the broker and the section's constitutive model.
- A cross-section's constitutive model is a `SectionBehaviour`, a record of total
  functions: status of setting the trial strain, tangent, resultant, resultant
  sensitivity, commit, revert, revert to start, and set parameter.
- What the element changes in a section is a `Section` value:
  - its class and db tags and its response codes;
  - the trial and committed strain;
  - the last strain sensitivity.
- The transform's answers are method parameters: basic deformation, length,
  `d(1/L)/dh` and statuses. So are the rule's locations and weights.

## Model

| member | source | states |
|---|---|---|
| CubicFrame.CubicFrame3d.constructor | SRC/element/Frame/Basic/CubicFrame3d.cpp:37-63 | every section is a copy of its prototype, q is zero, rho and cMass are stored, and the transform and rule are attached without dbTags |
| CubicFrame.CubicFrame3d.SetNodes | SRC/element/Frame/Basic/CubicFrame3d.cpp:137-152 | a zero initial length gives -1 and leaves xi and wt untouched; otherwise xi and wt are the rule's numSections locations and weights and the base status is returned |
| CubicFrame.CubicFrame3d.Update | SRC/element/Frame/Basic/CubicFrame3d.cpp:155-188 | section i alone changes, and only in its trial strain, which becomes (1/L) B(xi_i) v; the result is the sum of the sections' statuses |
| CubicInterpolation.StrainFormula | SRC/element/Frame/Basic/CubicFrame3d.cpp:171-178 | (1/L) B(xi) v is [v0/L, ((6xi-4)v1+(6xi-2)v2)/L, ((6xi-4)v3+(6xi-2)v4)/L, v5/L] |
| CubicFrameIntegration.UpdateSucceedsIff | SRC/element/Frame/Basic/CubicFrame3d.cpp:170-187 | if section statuses are non-negative, update returns 0 exactly when every section returned 0 |
| CubicFrame.CubicFrame3d.GetBasicTangent | SRC/element/Frame/Basic/CubicFrame3d.cpp:197-270 | kb and q afterwards depend only on the sections, xi, wt, the state and L, never on their previous contents; kb is the tangent integral, and q is the force integral, or zero for the initial state |
| CubicFrame.CubicFrame3d.ZeroIntegrals | SRC/element/Frame/Basic/CubicFrame3d.cpp:202-203 | every entry of kb and q is zero |
| CubicFrame.CubicFrame3d.IntegrateSections | SRC/element/Frame/Basic/CubicFrame3d.cpp:209-267 | after the loop over all sections, kb and q hold the integrals over every section, and q is still zero in the initial state |
| CubicFrame.CubicFrame3d.IntegrateSectionTangent | SRC/element/Frame/Basic/CubicFrame3d.cpp:211-254 | one pass takes kb from the tangent integral over i sections to the integral over i + 1 |
| CubicFrame.CubicFrame3d.AddSectionTangent | SRC/element/Frame/Basic/CubicFrame3d.cpp:221-254 | the truss and beam loops together add exactly w Coef(r) Coef(c) ks[row r][row c] to every entry (r, c) of kb |
| CubicFrame.CubicFrame3d.TrussTerms | SRC/element/Frame/Basic/CubicFrame3d.cpp:224-238 | ka = ks B(x) wti, entry by entry |
| CubicFrame.CubicFrame3d.TrussRow | SRC/element/Frame/Basic/CubicFrame3d.cpp:226-237 | one row of ka gains ks(k, row c) Coef(c) wti in every column c |
| CubicFrame.CubicFrame3d.BeamTerms | SRC/element/Frame/Basic/CubicFrame3d.cpp:240-254 | kb gains B(x)^T ka: entry (r, c) gains Coef(r) ka[row r][c], and nothing else moves |
| CubicFrame.CubicFrame3d.BeamColumn | SRC/element/Frame/Basic/CubicFrame3d.cpp:242-253 | column k of kb gains B^T times column k of ka; every other column is unchanged |
| CubicFrame.CubicFrame3d.IntegrateSectionForce | SRC/element/Frame/Basic/CubicFrame3d.cpp:256-266 | one pass takes q from the force integral over i sections to the integral over i + 1 |
| CubicFrame.CubicFrame3d.AddSectionForce | SRC/element/Frame/Basic/CubicFrame3d.cpp:258-265 | the six updates add wt Coef(r) s[row r] to every entry r of q, i.e. q += wt B^T s |
| CubicFrameIntegration.BasicTangentIsIntegral | SRC/element/Frame/Basic/CubicFrame3d.cpp:221-254 | the assembled basic tangent equals the textbook integral sum_i (wt_i / L) B(xi_i)^T ks_i B(xi_i), built with real matrix products |
| CubicFrameIntegration.TangentIntegralIsTripleProductIntegral | SRC/element/Frame/Basic/CubicFrame3d.cpp:209-254 | for every number of sections, the element's entrywise sum equals the sum of weighted matrix triple products |
| CubicFrameIntegration.SectionTangentIsTripleProduct | SRC/element/Frame/Basic/CubicFrame3d.cpp:221-254 | one section's entrywise contribution is w B^T ks B |
| CubicInterpolation.TripleProductEntry | SRC/element/Frame/Basic/CubicFrame3d.cpp:221-254 | (B^T ks B)[r][c] = Coef(r) ks[row r][row c] Coef(c), because each column of B has one nonzero |
| CubicFrameIntegration.BasicTangentSymmetric | SRC/element/Frame/Basic/CubicFrame3d.cpp:209-267 | kb is symmetric whenever every section tangent is |
| CubicFrameIntegration.TangentIntegralSymmetric | SRC/element/Frame/Basic/CubicFrame3d.cpp:209-267 | the tangent integral over any number of sections is symmetric when the section tangents are |
| CubicInterpolation.TripleProductSymmetric | SRC/element/Frame/Basic/CubicFrame3d.cpp:221 | B^T ks B is symmetric for symmetric ks |
| CubicFrameIntegration.TangentStep | SRC/element/Frame/Basic/CubicFrame3d.cpp:209-254 | adding section i changes each entry of the tangent integral by exactly that section's term |
| CubicFrameIntegration.ForceAdvance | SRC/element/Frame/Basic/CubicFrame3d.cpp:256-266 | a force that gained section i's entrywise contribution is the force integral over i + 1 sections |
| CubicInterpolation.TransposeProductEntry | SRC/element/Frame/Basic/CubicFrame3d.cpp:259-265 | (B^T s)[r] = Coef(r) s[row r] |
| CubicFrame.CubicFrame3d.GetBasicForce | SRC/element/Frame/Basic/CubicFrame3d.cpp:190-194 | returns the six entries q holds |
| CubicFrame.CubicFrame3d.CommitState | SRC/element/Frame/Basic/CubicFrame3d.cpp:89-106 | every section commits its trial strain; the result is the base status plus every section's status plus the transform's |
| CubicFrame.CubicFrame3d.RevertToLastCommit | SRC/element/Frame/Basic/CubicFrame3d.cpp:108-120 | every section drops its trial strain; the result is every section's status plus the transform's |
| CubicFrame.CubicFrame3d.RevertToStart | SRC/element/Frame/Basic/CubicFrame3d.cpp:122-134 | every section returns to its construction state; the result is every section's status plus the transform's |
| FrameSections.CommitSections | SRC/element/Frame/Basic/CubicFrame3d.cpp:100-101 | the loop visits every section once, commits each, and sums their statuses |
| FrameSections.RevertSections | SRC/element/Frame/Basic/CubicFrame3d.cpp:114-115 | the loop visits every section once, reverts each, and sums their statuses |
| FrameSections.RestartSections | SRC/element/Frame/Basic/CubicFrame3d.cpp:128-129 | the loop visits every section once, restarts each, and sums their statuses |
| FrameSections.CommitThenRevert | SRC/element/Frame/Basic/CubicFrame3d.cpp:89-120 | revertToLastCommit right after commitState leaves the sections as committed |
| FrameSections.RestartForgetsHistory | SRC/element/Frame/Basic/CubicFrame3d.cpp:122-134 | after revertToStart, sections that differ only in history are identical |
| FrameSections.SumZeroIff | SRC/element/Frame/Basic/CubicFrame3d.cpp:99-105 | a sum of non-negative statuses is non-negative, and zero exactly when each status is zero |
| CubicFrame.CubicFrame3d.CommitSensitivity | SRC/element/Frame/Basic/CubicFrame3d.cpp:1149-1203 | section i alone changes, and only in its strain sensitivity, which becomes the coded sensitivity at xi_i; the result is 0 |
| CubicFrame.SectionStrainSensitivity | SRC/element/Frame/Basic/CubicFrame3d.cpp:1166-1196 | component j is (1/L) B dvdh + d(1/L)/dh B v for the strain code[j] names, and 0 for codes the interpolation does not feed |
| CubicFrameSensitivity.StrainSensitivityIsDerivative | SRC/element/Frame/Basic/CubicFrame3d.cpp:1174-1195 | along v + t dv and 1/L + t d(1/L), the strain of update equals its value at t = 0, plus t times the committed sensitivity, plus a t^2 term: the sensitivity is the exact derivative |
| CubicFrameSensitivity.StrainComponentLinear | SRC/element/Frame/Basic/CubicFrame3d.cpp:1174-1195 | each coded strain component is linear in the deformation |
| CubicFrameSensitivity.CodedStrainIsSectionStrain | SRC/element/Frame/Basic/CubicFrame3d.cpp:1174-1195 | for the standard component order, the coded strain is the strain update pushes |
| CubicFrame.CubicFrame3d.SectionForceSensitivity | SRC/element/Frame/Basic/CubicFrame3d.cpp:979-1020 | dqdh is the coded force sensitivity summed over every section |
| CubicFrame.CubicFrame3d.AddSectionSensitivity | SRC/element/Frame/Basic/CubicFrame3d.cpp:999-1019 | one section adds the contributions of its components, in order |
| CubicFrame.CubicFrame3d.AddComponentSensitivity | SRC/element/Frame/Basic/CubicFrame3d.cpp:1000-1018 | one component goes to the basic forces its code feeds, through the Hermite factors; other codes add nothing |
| CubicFrameSensitivity.StandardForceSensitivity | SRC/element/Frame/Basic/CubicFrame3d.cpp:984-1020 | with the standard order in every section, the force sensitivity is sum_i wt_i B_i^T dsdh_i, the same integral as the basic force |
| CubicFrameSensitivity.StandardSectionForceSens | SRC/element/Frame/Basic/CubicFrame3d.cpp:999-1019 | with the standard order, one section's coded contribution is wt B^T dsdh |
| CubicFrame.CubicFrame3d.SendSelf | SRC/element/Frame/Basic/CubicFrame3d.cpp:274-363 | transform and rule each take the answer of their own request to the channel when their dbTag is 0; the header encodes the element's fields; any failure of data, transform or rule gives -1 and leaves the sections alone; otherwise sections get dbTags and the index array, and the result is 0 iff the index array and every section sent |
| CubicFrame.CubicFrame3d.AssignSectionIds | SRC/element/Frame/Basic/CubicFrame3d.cpp:331-344 | each section without a dbTag takes the answer of its own request to the channel, and a section with one keeps it; the array holds (classTag, dbTag) of every section in order |
| CubicFrameData.HeaderRoundTrip | SRC/element/Frame/Basic/CubicFrame3d.cpp:381-397 | decoding the 14-entry header that sendSelf writes restores every field |
| CubicFrameData.AssignedDbTag | SRC/element/Frame/Basic/CubicFrame3d.cpp:287-301 | a nonzero dbTag is kept; a zero one takes the channel's |
| CubicFrameData.AssignSectionDbTagsSettles | SRC/element/Frame/Basic/CubicFrame3d.cpp:333-339 | when the channel answers every request with a nonzero tag, every section ends with a dbTag, and a second send changes nothing whatever the channel would answer |
| CubicFrameData.AssignedSectionTagsDistinct | SRC/element/Frame/Basic/CubicFrame3d.cpp:333-339 | with pairwise distinct channel answers that no section already holds, every newly tagged section has a tag different from every other section's |
| CubicFrameData.SectionIdsRoundTrip | SRC/element/Frame/Basic/CubicFrame3d.cpp:509-513 | the receiver reads section i's classTag and dbTag at 2i and 2i+1 |
| CubicFrame.CubicFrame3d.RecvSelf | SRC/element/Frame/Basic/CubicFrame3d.cpp:366-539 | a failed data receive gives -1 and changes nothing; otherwise the header fields are read, then the transform and rule, then the index array and the sections, each failure giving its code |
| CubicFrame.CubicFrame3d.RecvParts | SRC/element/Frame/Basic/CubicFrame3d.cpp:399-456 | the collaborators are taken as ReceiveCollaborators says; on their failure or a failed index array, the sections are untouched |
| CubicFrame.ReceiveCollaborators | SRC/element/Frame/Basic/CubicFrame3d.cpp:399-444 | status 0 exactly when the transform is present and of the header's class and receives, and the rule exists or the broker makes one, and receives; then both carry the header's tags; otherwise -1, -2 or -3 |
| CubicFrame.CubicFrame3d.ReadHeader | SRC/element/Frame/Basic/CubicFrame3d.cpp:381-397 | the tag, nodes, rho, cMass and damping factors hold the header's values |
| CubicFrame.CubicFrame3d.RecvSections | SRC/element/Frame/Basic/CubicFrame3d.cpp:509-535 | the section loop of recvSelf leaves the sections and status that ReceiveSections describes |
| CubicFrameData.ReceiveSectionsSucceedsIff | SRC/element/Frame/Basic/CubicFrame3d.cpp:509-535 | the receive returns 0 exactly when every section has the class the array names and receives itself; each then carries the array's dbTag and nothing else changes; otherwise -1 |
| CubicFrameData.ReceiveSentSections | SRC/element/Frame/Basic/CubicFrame3d.cpp:509-535 | receiving the index array an element sent leaves every section as it was, with status 0 |
| CubicFrame.CubicFrame3d.SetParameter | SRC/element/Frame/Basic/CubicFrame3d.cpp:891-959 | the base status wins unless it is -1; "sectionX" goes to the section nearest argv[1]/L; "section" to section atoi(argv[1]) if 1..numSections, else -1; "integration" to the rule; any other name to all sections and then the rule, reporting the last status that is not -1 |
| CubicFrame.CubicFrame3d.NearestSection | SRC/element/Frame/Basic/CubicFrame3d.cpp:910-917 | the scan returns the first integration point of minimal distance to the location |
| Dispatch.FirstNearestIsFirstMinimum | SRC/element/Frame/Basic/CubicFrame3d.cpp:910-917 | that point is no farther than any other, and strictly nearer than every earlier one |
| CubicFrame.CubicFrame3d.BroadcastParameter | SRC/element/Frame/Basic/CubicFrame3d.cpp:945-952 | the broadcast loop returns the last section status that is not -1 |
| Dispatch.LastAcceptedIsLastClaim | SRC/element/Frame/Basic/CubicFrame3d.cpp:945-958 | the broadcast result is -1 iff every recipient returned -1; otherwise it is the status of a recipient after which all returned -1 |
| Dispatch.LastAcceptedAppend | SRC/element/Frame/Basic/CubicFrame3d.cpp:954-956 | the rule's status wins unless it is -1 |
| Dispatch.ContainsIff | SRC/element/Frame/Basic/CubicFrame3d.cpp:901 | the strstr test holds exactly when the pattern occurs at some offset |
| Dispatch.ContainsPrefix | SRC/element/Frame/Basic/CubicFrame3d.cpp:901-922 | a name matching "sectionX" also matches "section", so the sectionX test must come first |
| Dispatch.AtoiDecimal | SRC/element/Frame/Basic/CubicFrame3d.cpp:928 | atoi reads back the decimal rendering of any natural number after any leading white space |
| Dispatch.AtoiSignedDecimal | SRC/element/Frame/Basic/CubicFrame3d.cpp:928 | the same with a '+' or '-' sign, the latter negating |
| Casts.Trunc | SRC/element/Frame/Basic/CubicFrame3d.cpp:381-392 | the C cast (int)x truncates toward zero, for positive and negative x |
| Casts.TruncOfInt | SRC/element/Frame/Basic/CubicFrame3d.cpp:381-392 | an integer sent as a double is read back unchanged |
| PrismFrame.PrismFrame3d.constructor | SRC/element/Frame/Basic/PrismFrame3d.cpp:36-44 | the constants, releases and mass flag are stored, q is zero, and the transform is attached without a dbTag; the geometry flag, never set in the source, is a parameter |
| PrismStiffness.FormBasicStiffness | SRC/element/Frame/Basic/PrismFrame3d.cpp:111-149 | entry (r, c) is EA/L at (0,0), GJ/L at (5,5), the release-dependent z and y plane bending blocks on 1-2 and 3-4, and zero everywhere else |
| PrismStiffness.Assemble | SRC/element/Frame/Basic/PrismFrame3d.cpp:119-148 | the zeroed matrix with the axial, torsion and two bending blocks written holds BasicEntry everywhere |
| PrismStiffness.BendingBlock | SRC/element/Frame/Basic/PrismFrame3d.cpp:122-133 | for release 0, all four block entries are 4EI/L and 2EI/L; for 1, only (J, J) is 3EI/L; for 2, only (I, I) is 3EI/L; nothing outside the entries written changes |
| PrismStiffness.ElasticSymmetric | SRC/element/Frame/Basic/PrismFrame3d.cpp:111-149 | the elastic stiffness is symmetric for every release code |
| PrismStiffness.ReleasedEndIsFree | SRC/element/Frame/Basic/PrismFrame3d.cpp:128-147 | a released end has a zero row and column in its plane |
| PrismStiffness.StiffnessDependsOnE | SRC/element/Frame/Basic/PrismFrame3d.cpp:114-120 | for nonzero area, two moduli give different stiffness matrices |
| PrismStiffness.GeometricStiffness | SRC/element/Frame/Basic/PrismFrame3d.cpp:191-193 | kg is zero except 4N/L on the z-plane diagonal and -N/L off it |
| PrismFrame.PrismFrame3d.SetNodes | SRC/element/Frame/Basic/PrismFrame3d.cpp:89-108 | a nonzero base status is returned with nothing changed; a zero length is stored and gives -1 with km unchanged; otherwise the result is 0 and km is the elastic stiffness of the constants and L |
| PrismFrame.PrismFrame3d.Update | SRC/element/Frame/Basic/PrismFrame3d.cpp:176-232 | flag 0: ke = km; flag 1: ke = km + kg with kg the P-Delta matrix for N = EA/L v0; flag 2: kg = 0 and ke from the stability functions; other flags keep ke and kg; always q = ke v and the transform's status is returned |
| PrismFrame.StabilityStiffness | SRC/element/Frame/Basic/PrismFrame3d.cpp:197-225 | each plane with psi above 1e-12 takes its stability entries; a y-plane fall-back gives km whole, discarding the z-plane entries; a z-plane fall-back restarts from km before the y-plane entries are set |
| PrismFrame.PrismFrame3d.GetBasicTangent | SRC/element/Frame/Basic/PrismFrame3d.cpp:241-252 | rate 2 stores rho L at kg(0,0), changing no other entry, and returns kg; any other rate returns ke and changes nothing |
| PrismFrame.PrismFrame3d.GetBasicForce | SRC/element/Frame/Basic/PrismFrame3d.cpp:235-239 | returns q |
| PrismFrame.ParameterId | SRC/element/Frame/Basic/PrismFrame3d.cpp:705-736 | E, A, Iz, Iy, G and J, and only they, map to 11 to 16 in that order; every other name to -1 |
| PrismFrame.PrismFrame3d.SetParameter | SRC/element/Frame/Basic/PrismFrame3d.cpp:693-737 | the base status wins unless it is -1; a known name registers its id with the field's current value and returns the parameter's status; otherwise -1 |
| PrismFrame.PrismFrame3d.UpdateParameter | SRC/element/Frame/Basic/PrismFrame3d.cpp:739-776 | ids 11 to 16 set exactly the named constant and return 0, and km keeps its old value; other ids return -1 and change nothing |
| PrismFrame.PrismFrame3d.UpdateParameterAndStiffness | SRC/element/Frame/Basic/PrismFrame3d.cpp:739-776 | the same, and km is then the elastic stiffness of the new constants |
| PrismFrame.PrismFrame3d.SendSelf | SRC/element/Frame/Basic/PrismFrame3d.cpp:254-308 | a zero transform dbTag takes the channel's; the data vector encodes the 19 fields; the result is the data status if it failed, else the sum of both statuses |
| PrismFrame.DataRoundTrip | SRC/element/Frame/Basic/PrismFrame3d.cpp:322-340 | decoding the 19-entry data vector restores every field |
| PrismFrame.PrismFrame3d.RecvSelf | SRC/element/Frame/Basic/PrismFrame3d.cpp:310-374 | a failed receive changes nothing; otherwise every data field is read; a missing transform gives -1, one of another class is dropped with -1, and a matching one takes the dbTag sent, the statuses being summed |
| PrismFrame.PrismFrame3d.ReadData | SRC/element/Frame/Basic/PrismFrame3d.cpp:322-340 | the constants, tags, damping factors and releases hold the data's values |
| TrapezoidalIntegration.Integrate | SRC/domain/pattern/TrapezoidalTimeSeriesIntegrator.cpp:52-110 | no series for delta <= 0 or a missing series; otherwise a path series with step delta whose values are those of the loop as written |
| TrapezoidalIntegration.FillValues | SRC/domain/pattern/TrapezoidalTimeSeriesIntegrator.cpp:71-97 | the array filled in place holds the numSteps values of the recurrence as written |
| TrapezoidalIntegration.FillStep | SRC/domain/pattern/TrapezoidalTimeSeriesIntegrator.cpp:89-97 | one pass extends the filled prefix by one value; the loop time becomes (i+1) delta and the carried factor f(i delta) |
| TrapezoidalIntegration.NumSteps | SRC/domain/pattern/TrapezoidalTimeSeriesIntegrator.cpp:69 | for a non-negative duration there are at least 1 steps, and (n - 1) <= duration / delta < n |
| TrapezoidalIntegration.TimeIsMultiple | SRC/domain/pattern/TrapezoidalTimeSeriesIntegrator.cpp:87-89 | the time accumulated by repeated addition of delta is k delta |
| TrapezoidalIntegration.FirstValue | SRC/domain/pattern/TrapezoidalTimeSeriesIntegrator.cpp:83 | the first value is f(0) delta / 2 |
| TrapezoidalIntegration.IntegratedStart | SRC/domain/pattern/TrapezoidalTimeSeriesIntegrator.cpp:83-94 | value 0 is f(0) delta / 2, and value 1 adds the panel between f(delta) and value 0 itself |
| TrapezoidalIntegration.IntegratedRecurrence | SRC/domain/pattern/TrapezoidalTimeSeriesIntegrator.cpp:89-97 | from the third value on, each adds the panel between f(i delta) and f((i-1) delta) |
| TrapezoidalIntegration.IntegratedPrefix | SRC/domain/pattern/TrapezoidalTimeSeriesIntegrator.cpp:89-97 | a later step never rewrites an earlier value |
| TrapezoidalIntegration.IntegratedClosedForm | SRC/domain/pattern/TrapezoidalTimeSeriesIntegrator.cpp:83-97 | against the composite trapezoid rule, value 0 exceeds it by f(0) delta / 2, and every later value by f(0) delta^2 / 4 |
| TrapezoidalIntegration.TrapezoidStep | SRC/domain/pattern/TrapezoidalTimeSeriesIntegrator.cpp:93-94 | the trapezoid rule over i panels is the rule over i - 1 panels plus the last panel |
| TrapezoidalIntegration.SeedDiscrepancy | SRC/domain/pattern/TrapezoidalTimeSeriesIntegrator.cpp:85 | for f = 1 and delta = 1 the values as written are [0.5, 1.25], where the intended ones are [0.5, 1.5] |
| TrapezoidalIntegration.IntegrateSeeded | SRC/domain/pattern/TrapezoidalTimeSeriesIntegrator.cpp:52-110 | integrate with the carried factor seeded by f(0): the same argument checks, with the intended values |
| TrapezoidalIntegration.FillValuesSeeded | SRC/domain/pattern/TrapezoidalTimeSeriesIntegrator.cpp:71-97 | the array filled in place holds the intended values |
| TrapezoidalIntegration.FillStepSeeded | SRC/domain/pattern/TrapezoidalTimeSeriesIntegrator.cpp:89-97 | one pass of the corrected loop extends the intended prefix by one value |
| TrapezoidalIntegration.FirstValueSeeded | SRC/domain/pattern/TrapezoidalTimeSeriesIntegrator.cpp:83 | the intended first value is f(0) delta / 2 too |
| TrapezoidalIntegration.IntegratedSeededClosedForm | SRC/domain/pattern/TrapezoidalTimeSeriesIntegrator.cpp:83-97 | every intended value is the composite trapezoid rule over [0, i delta] plus the same f(0) delta / 2 |
| TrapezoidalIntegration.SendSelf | SRC/domain/pattern/TrapezoidalTimeSeriesIntegrator.cpp:112-116 | the integrator has no state to send and always reports success |
| TrapezoidalIntegration.RecvSelf | SRC/domain/pattern/TrapezoidalTimeSeriesIntegrator.cpp:118-123 | the integrator has no state to receive and always reports success |

## Left out

- Floating point: doubles are reals, so rounding, overflow, NaN and infinities are not modelled.
- The `float` variables of the "sectionX" branch (`sectionLoc`, `minDistance`) are reals too, so their rounding to single precision is not modelled.
- The coordinate transform and the beam integration rule are foreign classes.
  - Their answers are method parameters: the basic deformation `v`, the length, `xi`/`wt`, `d(1/L)/dh`, `dv/dh` and their status codes.
  - Their own state changes (`update`, `commitState`, `setDbTag`) are not modelled.
- Section constitutive behaviour is outside the model: a section's answers are the total functions of `SectionBehaviour`.
  - A section's own `recvSelf` is modelled only by its status: after a successful receive the section differs from before only in the dbTag the index array names (ReceiveSections).
  - What commit, revert and revert-to-start do to a section's own strain is a modelling choice stated in `FrameSections` (committed := trial; trial := committed; back to the construction state). The element code only calls them.
- Channel, broker and object creation are outside. The send and receive statuses, the channel's answers to `getDbTag`, the data read, and whether the broker can make an integration rule are all parameters. Each `getDbTag` call has its own answer: one for the transform, one for the rule and one per section.
- CubicFrame.CubicFrame3d.RecvSelf: the branch taken when the header's section count differs from the element's does not model the source.
  - In the source that branch fills a newly allocated array whose entries are never set, because the broker calls are commented out. Using them is undefined behaviour.
  - The model instead keeps numSections fixed and returns -1 with the sections untouched.
  - This covers a header count of 0 as well. There the source's loop never runs and the branch is well defined: it deletes every section, sets numSections to 0 and returns 0. The model, whose numSections is fixed at construction, returns -1 and keeps the sections.
  - The same change applies to a section of the wrong class in the matching branch: the source deletes it and then uses the dangling pointer, and the model returns -1.
- CubicFrame.CubicFrame3d.RecvSelf: a missing or mismatched transform cannot be replaced because the broker call is commented out. The model drops it and returns -2, as the source does. It does not model the source then calling through a null transform on a later call.
- CubicFrame.CubicFrame3d.SetParameter:
  - "sectionX" with no sections is modelled as -1. The source reads `xi[0]` out of bounds there.
  - `atof` is not modelled: the location arrives already parsed, as `sectionLoc`.
  - `setState(Init)` is represented only by its status.
  - `atoi` is modelled on arbitrary-precision integers, so overflow of an over-long digit string is not modelled.
- CubicFrame.CubicFrame3d.constructor: the source passes the element's own, not yet initialised `cMass` member to the base class instead of the `cm` argument, so the stored value is not determined by the source. The model stores the cMass it is given and does not model the release flags `rz`/`ry` handed to the base class.
- CubicFrame.CubicFrame3d.constructor: `xi` and `wt` are zero until `setNodes`. The source leaves them unset.
- CubicFrame.CubicFrame3d.constructor: the source ends the process (`exit(-1)`) when the integration rule cannot be copied. The model takes the copy as given, so that path is not modelled.
- Casts.Trunc: total on reals, while the C `(int)` cast is undefined for values outside the `int` range. So the header decode, the prismatic data decode and NumSteps do not model an out-of-range value.
- PrismFrame.PrismFrame3d.constructor: `geom_flag` is a member the source never sets, in this constructor or anywhere else in PrismFrame3d.cpp. The model takes it as a constructor parameter so that every branch of `update` can be stated.
- The public methods of CubicFrame3d that divide by the length (Update, GetBasicTangent, CommitSensitivity) require it to be nonzero. The source divides by it unchecked, producing infinities in floating point; setNodes refuses a zero length.
- CubicFrame.CubicFrame3d.SetParameter: requires a nonzero length only on the "sectionX" path that divides by it: at least three arguments, initial-state status 0 and sections present. Every other branch accepts any length.
- PrismFrame.PrismFrame3d.Update: requires L != 0 for the same reason.
- `getResistingForceSensitivity` has two parts left out:
  - the shape-sensitivity branch (transform-dependent, lines 1029-1139);
  - the final mapping back through the transform.

  Only the section accumulation into dqdh is modelled (SectionForceSensitivity). `getInitialStiffSensitivity` only zeroes a matrix and is not modelled.
- PrismFrame.StabilityStiffness: psi, sin and cos need transcendental functions. Their results (psi and the two stiffness values per plane) are parameters in `Stability`; only the branch structure and the entries written are modelled.
- The section-based PrismFrame3d constructor is not modelled. It reads A, Iz, Iy and Jx from a section's initial tangent, with the GJ = 1e10 fallback.
- PrismFrame3d's `commitState`, `revertToLastCommit` and `revertToStart` are not modelled. They only forward the transform's status, plus the base class status for commit, and change no element state.
- `Print`, `setResponse` and `getResponse` (both frames) and the integrator's `Print` are output formatting and are not modelled.
- The Tcl command files, `TimeSeriesIntegrator.cpp` and `ProfileSPDLinSolver.cpp` are not part of this model. Neither are the headers, which declare only.
- The `static` scratch buffers (`workArea`, `data`, `dqdh`) are locals of the model, so their sharing between calls is not modelled.
- TrapezoidalIntegration.Integrate: requires a non-negative duration. For a negative one the source's step count is 0 or negative, and writing entry 0 is out of bounds.
- TrapezoidalIntegration.Integrate: the time series is a total function `real -> real` with a duration. The `PathSeries` is a value, so its ownership, the freeing of the temporary vector, and the series' tag are not modelled.

## Findings

| source | as written | input that shows it | evidently intended | confidence | as-written member | corrected member |
|---|---|---|---|---|---|---|
| SRC/element/Frame/Basic/PrismFrame3d.cpp:746-775 | every case of the switch returns, so the `formBasicStiffness(km)` after it is unreachable and km keeps the stiffness of the old constants | updateParameter(11, E') with E' != E on an element with A != 0 and L != 0: the next update uses km(0,0) = E A / L instead of E' A / L | after a constant changes, km is formed again from the new constants | medium, not executed | PrismFrame.PrismFrame3d.UpdateParameter, PrismStiffness.StiffnessDependsOnE | PrismFrame.PrismFrame3d.UpdateParameterAndStiffness |
| SRC/domain/pattern/TrapezoidalTimeSeriesIntegrator.cpp:85 | the carried factor is seeded with the first integrated value f(0) delta / 2 instead of the factor f(0), so every value from the second one on differs from the intended one by f(0) delta (delta / 4 - 1 / 2) | f = 1, delta = 1, duration 1: values [0.5, 1.25] instead of [0.5, 1.5] | the carried factor starts at f(0), so that every value is the trapezoid rule plus the same f(0) delta / 2 | high, not executed | TrapezoidalIntegration.Integrate, TrapezoidalIntegration.SeedDiscrepancy, TrapezoidalIntegration.IntegratedClosedForm | TrapezoidalIntegration.IntegrateSeeded, TrapezoidalIntegration.IntegratedSeededClosedForm |
