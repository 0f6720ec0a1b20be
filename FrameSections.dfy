/** The cross-section collaborator of the distributed-section frame, seen from the
    element. A section's own state is a value (the element owns one per integration
    point, never shared); what the section answers to the element's calls is given by
    a `SectionBehaviour`, a record of total functions standing for the section's
    constitutive model, which lies outside this model. */
module FrameSections {
  import opened LinearAlgebra

  type Vec4 = v: Vector | |v| == 4 witness [0.0, 0.0, 0.0, 0.0]
  type Mat4 = m: Matrix | IsMatrix(m, 4, 4) witness ZeroMatrix(4, 4)

  /** Which state the element is asked about: the initial (elastic) state or the
      current trial state. */
  datatype State = Init | Pres

  /** The state a section keeps that the element drives: its type and storage tags,
      the response codes of its strain components (getType), the trial strain the
      element last pushed, the committed strain, and the strain sensitivity the
      element last committed. */
  datatype Section = Section(
    classTag: int,
    dbTag: int,
    codes: seq<int>,
    trial: Vector,
    committed: Vector,
    strainSens: Vector)

  /** What a section returns to each of the element's calls. */
  datatype SectionBehaviour = SectionBehaviour(
    setTrial: (Section, Vector) -> int,
    tangent: (Section, State) -> Mat4,
    resultant: Section -> Vec4,
    resultantSens: (Section, int) -> Vector,
    commit: Section -> int,
    revert: Section -> int,
    revertStart: Section -> int,
    setParameter: (Section, seq<string>) -> int)

  /** A section as constructed: zero strain and history. */
  function FreshSection(classTag: int, dbTag: int, codes: seq<int>): Section
  {
    Section(classTag, dbTag, codes, ZeroVector(4), ZeroVector(4), ZeroVector(|codes|))
  }

  /** commitState: the trial strain becomes the committed one. */
  function Committed(s: Section): Section
  {
    s.(committed := s.trial)
  }

  /** revertToLastCommit: the trial strain is discarded. */
  function Reverted(s: Section): Section
  {
    s.(trial := s.committed)
  }

  /** revertToStart: all history is discarded. */
  function Restarted(s: Section): Section
  {
    FreshSection(s.classTag, s.dbTag, s.codes)
  }

  /** The sum of a sequence of status codes, accumulated front to back. */
  function Sum(s: seq<int>): int
  {
    if |s| == 0 then 0 else Sum(s[..|s| - 1]) + s[|s| - 1]
  }

  lemma SumAppend(s: seq<int>, x: int)
    ensures Sum(s + [x]) == Sum(s) + x
  {
    assert (s + [x])[..|s|] == s;
  }

  /** With non-negative codes the sum is zero exactly when every code is zero. */
  lemma {:induction false} SumZeroIff(s: seq<int>)
    requires forall i :: 0 <= i < |s| ==> s[i] >= 0
    ensures Sum(s) >= 0
    ensures Sum(s) == 0 <==> forall i :: 0 <= i < |s| ==> s[i] == 0
  {
    if |s| > 0 {
      SumZeroIff(s[..|s| - 1]);
      if Sum(s) == 0 {
        forall i | 0 <= i < |s|
          ensures s[i] == 0
        {
          if i < |s| - 1 {
            assert s[..|s| - 1][i] == s[i];
          }
        }
      } else {
        assert Sum(s[..|s| - 1]) > 0 || s[|s| - 1] > 0;
        if Sum(s[..|s| - 1]) > 0 {
          var i :| 0 <= i < |s| - 1 && s[..|s| - 1][i] != 0;
          assert s[i] != 0;
        }
      }
    }
  }

  /** The statuses the sections report when the element commits them. */
  function CommitStatuses(beh: SectionBehaviour, secs: seq<Section>): (r: seq<int>)
    ensures |r| == |secs| && forall i :: 0 <= i < |secs| ==> r[i] == beh.commit(secs[i])
  {
    seq(|secs|, i requires 0 <= i < |secs| => beh.commit(secs[i]))
  }

  function RevertStatuses(beh: SectionBehaviour, secs: seq<Section>): (r: seq<int>)
    ensures |r| == |secs| && forall i :: 0 <= i < |secs| ==> r[i] == beh.revert(secs[i])
  {
    seq(|secs|, i requires 0 <= i < |secs| => beh.revert(secs[i]))
  }

  function RevertStartStatuses(beh: SectionBehaviour, secs: seq<Section>): (r: seq<int>)
    ensures |r| == |secs| && forall i :: 0 <= i < |secs| ==> r[i] == beh.revertStart(secs[i])
  {
    seq(|secs|, i requires 0 <= i < |secs| => beh.revertStart(secs[i]))
  }

  function CommitAll(secs: seq<Section>): (r: seq<Section>)
    ensures |r| == |secs| && forall i :: 0 <= i < |secs| ==> r[i] == Committed(secs[i])
  {
    seq(|secs|, i requires 0 <= i < |secs| => Committed(secs[i]))
  }

  function RevertAll(secs: seq<Section>): (r: seq<Section>)
    ensures |r| == |secs| && forall i :: 0 <= i < |secs| ==> r[i] == Reverted(secs[i])
  {
    seq(|secs|, i requires 0 <= i < |secs| => Reverted(secs[i]))
  }

  function RestartAll(secs: seq<Section>): (r: seq<Section>)
    ensures |r| == |secs| && forall i :: 0 <= i < |secs| ==> r[i] == Restarted(secs[i])
  {
    seq(|secs|, i requires 0 <= i < |secs| => Restarted(secs[i]))
  }

  /** Committing and then reverting to the last commit changes nothing further. */
  lemma CommitThenRevert(secs: seq<Section>)
    ensures RevertAll(CommitAll(secs)) == CommitAll(secs)
  {
  }

  /** After revertToStart every section is in its construction state, whatever its
      history. */
  lemma RestartForgetsHistory(secs: seq<Section>, other: seq<Section>)
    requires |secs| == |other|
    requires forall i :: 0 <= i < |secs| ==>
               secs[i].classTag == other[i].classTag && secs[i].dbTag == other[i].dbTag &&
               secs[i].codes == other[i].codes
    ensures RestartAll(secs) == RestartAll(other)
  {
  }

  /** The section loop of commitState: each section commits in turn and the statuses are summed. */
  method CommitSections(secs0: seq<Section>, beh: SectionBehaviour) returns (secs: seq<Section>, total: int)
    ensures secs == CommitAll(secs0)
    ensures total == Sum(CommitStatuses(beh, secs0))
  {
    ghost var statuses := CommitStatuses(beh, secs0);
    secs := secs0;
    total := 0;
    for i := 0 to |secs0|
      invariant |secs| == |secs0|
      invariant forall k :: 0 <= k < i ==> secs[k] == Committed(secs0[k])
      invariant forall k :: i <= k < |secs0| ==> secs[k] == secs0[k]
      invariant total == Sum(statuses[..i])
    {
      assert statuses[..i + 1] == statuses[..i] + [statuses[i]];
      SumAppend(statuses[..i], statuses[i]);
      total := total + beh.commit(secs[i]);
      secs := secs[i := Committed(secs[i])];
    }
    assert statuses[..|secs0|] == statuses;
  }

  /** The section loop of revertToLastCommit: each section reverts in turn and the statuses are summed. */
  method RevertSections(secs0: seq<Section>, beh: SectionBehaviour) returns (secs: seq<Section>, total: int)
    ensures secs == RevertAll(secs0)
    ensures total == Sum(RevertStatuses(beh, secs0))
  {
    ghost var statuses := RevertStatuses(beh, secs0);
    secs := secs0;
    total := 0;
    for i := 0 to |secs0|
      invariant |secs| == |secs0|
      invariant forall k :: 0 <= k < i ==> secs[k] == Reverted(secs0[k])
      invariant forall k :: i <= k < |secs0| ==> secs[k] == secs0[k]
      invariant total == Sum(statuses[..i])
    {
      assert statuses[..i + 1] == statuses[..i] + [statuses[i]];
      SumAppend(statuses[..i], statuses[i]);
      total := total + beh.revert(secs[i]);
      secs := secs[i := Reverted(secs[i])];
    }
    assert statuses[..|secs0|] == statuses;
  }

  /** The section loop of revertToStart: each section restarts in turn and the statuses are summed. */
  method RestartSections(secs0: seq<Section>, beh: SectionBehaviour) returns (secs: seq<Section>, total: int)
    ensures secs == RestartAll(secs0)
    ensures total == Sum(RevertStartStatuses(beh, secs0))
  {
    ghost var statuses := RevertStartStatuses(beh, secs0);
    secs := secs0;
    total := 0;
    for i := 0 to |secs0|
      invariant |secs| == |secs0|
      invariant forall k :: 0 <= k < i ==> secs[k] == Restarted(secs0[k])
      invariant forall k :: i <= k < |secs0| ==> secs[k] == secs0[k]
      invariant total == Sum(statuses[..i])
    {
      assert statuses[..i + 1] == statuses[..i] + [statuses[i]];
      SumAppend(statuses[..i], statuses[i]);
      total := total + beh.revertStart(secs[i]);
      secs := secs[i := Restarted(secs[i])];
    }
    assert statuses[..|secs0|] == statuses;
  }
}
