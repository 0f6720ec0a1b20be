/** The storage layout of the distributed-section frame: a 14-entry numeric header and
    an index array of (classTag, dbTag) pairs, one pair per section. */
module CubicFrameData {
  import opened Casts
  import opened FrameSections

  /** The fields the header carries, in header order. */
  datatype Header = Header(
    tag: int, node1: int, node2: int, numSections: int,
    transfClassTag: int, transfDbTag: int, intClassTag: int, intDbTag: int,
    rho: real, cMass: int, alphaM: real, betaK: real, betaK0: real, betaKc: real)

  const HeaderSize: nat := 14

  /** The header as the vector of doubles the element sends. */
  function EncodeHeader(h: Header): (d: seq<real>)
    ensures |d| == HeaderSize
  {
    [h.tag as real, h.node1 as real, h.node2 as real, h.numSections as real,
     h.transfClassTag as real, h.transfDbTag as real, h.intClassTag as real, h.intDbTag as real,
     h.rho, h.cMass as real, h.alphaM, h.betaK, h.betaK0, h.betaKc]
  }

  /** The fields the receiving element reads back; integer fields are cast with
      truncation toward zero. */
  function DecodeHeader(d: seq<real>): (h: Header)
    requires |d| == HeaderSize
  {
    Header(Trunc(d[0]), Trunc(d[1]), Trunc(d[2]), Trunc(d[3]),
           Trunc(d[4]), Trunc(d[5]), Trunc(d[6]), Trunc(d[7]),
           d[8], Trunc(d[9]), d[10], d[11], d[12], d[13])
  }

  /** Decoding a sent header restores every field. */
  lemma HeaderRoundTrip(h: Header)
    ensures DecodeHeader(EncodeHeader(h)) == h
  {
    var d := EncodeHeader(h);
    TruncOfInt(h.tag);
    TruncOfInt(h.node1);
    TruncOfInt(h.node2);
    TruncOfInt(h.numSections);
    TruncOfInt(h.transfClassTag);
    TruncOfInt(h.transfDbTag);
    TruncOfInt(h.intClassTag);
    TruncOfInt(h.intDbTag);
    TruncOfInt(h.cMass);
  }

  /** The dbTag a transform or integration rule ends up with when the element is sent:
      an unset (zero) tag is replaced by the channel's, unless that is zero too. */
  function AssignedDbTag(own: int, channelDbTag: int): (t: int)
    ensures own != 0 ==> t == own
    ensures own == 0 ==> t == channelDbTag
  {
    if own == 0 && channelDbTag != 0 then channelDbTag else own
  }

  /** The sections after sending, where tags[i] is the answer the channel gives when
      asked for section i's dbTag: each section without a dbTag takes its own answer
      (even a zero one), and a section with a dbTag keeps it without asking. */
  function AssignSectionDbTags(secs: seq<Section>, tags: seq<int>): (r: seq<Section>)
    requires |tags| == |secs|
    ensures |r| == |secs|
    ensures forall i :: 0 <= i < |secs| ==> r[i].classTag == secs[i].classTag && r[i].codes == secs[i].codes
    ensures forall i :: 0 <= i < |secs| && secs[i].dbTag != 0 ==> r[i] == secs[i]
    ensures forall i :: 0 <= i < |secs| && secs[i].dbTag == 0 ==> r[i] == secs[i].(dbTag := tags[i])
  {
    seq(|secs|, i requires 0 <= i < |secs| =>
          if secs[i].dbTag == 0 then secs[i].(dbTag := tags[i]) else secs[i])
  }

  /** The section index array: classTag and dbTag of section i at 2i and 2i+1. */
  function SectionIds(secs: seq<Section>): (ids: seq<int>)
    ensures |ids| == 2 * |secs|
    ensures forall i :: 0 <= i < |secs| ==> ids[2 * i] == secs[i].classTag && ids[2 * i + 1] == secs[i].dbTag
  {
    if |secs| == 0 then []
    else SectionIds(secs[..|secs| - 1]) + [secs[|secs| - 1].classTag, secs[|secs| - 1].dbTag]
  }

  /** The (classTag, dbTag) pair the receiver reads for section i. */
  function SectionIdAt(ids: seq<int>, i: nat): (int, int)
    requires 2 * i + 1 < |ids|
  {
    (ids[2 * i], ids[2 * i + 1])
  }

  /** Reading the index array back yields every section's tags, in order. */
  lemma SectionIdsRoundTrip(secs: seq<Section>, i: nat)
    requires i < |secs|
    ensures SectionIdAt(SectionIds(secs), i) == (secs[i].classTag, secs[i].dbTag)
  {
  }

  /** When the channel answers every request with a nonzero tag, every section has a
      dbTag after sending, and a second send, whatever the channel would answer then,
      asks for nothing and changes nothing. */
  lemma AssignSectionDbTagsSettles(secs: seq<Section>, tags: seq<int>, later: seq<int>)
    requires |tags| == |secs| && |later| == |secs|
    requires forall i :: 0 <= i < |tags| ==> tags[i] != 0
    ensures forall i :: 0 <= i < |secs| ==> AssignSectionDbTags(secs, tags)[i].dbTag != 0
    ensures AssignSectionDbTags(AssignSectionDbTags(secs, tags), later) == AssignSectionDbTags(secs, tags)
  {
  }

  /** Sections that had no dbTag end with pairwise distinct tags when the channel's
      answers are pairwise distinct and differ from every tag already held. */
  lemma AssignedSectionTagsDistinct(secs: seq<Section>, tags: seq<int>)
    requires |tags| == |secs|
    requires forall i, j :: 0 <= i < j < |tags| ==> tags[i] != tags[j]
    requires forall i, j :: 0 <= i < |tags| && 0 <= j < |secs| && secs[j].dbTag != 0 ==> tags[i] != secs[j].dbTag
    ensures forall i, j :: 0 <= i < j < |secs| && (secs[i].dbTag == 0 || secs[j].dbTag == 0) ==>
              AssignSectionDbTags(secs, tags)[i].dbTag != AssignSectionDbTags(secs, tags)[j].dbTag
  {
  }

  /** What receiving the first n sections leaves, with the status so far: a section
      whose class differs from the one the index array names, or whose own receive
      fails, stops the receive with -1; each section reached before that takes its
      dbTag from the array. */
  function ReceiveSections(secs: seq<Section>, ids: seq<int>, statuses: seq<int>, n: nat)
    : (r: (seq<Section>, int))
    requires n <= |secs| && |ids| == 2 * |secs| && |statuses| == |secs|
    ensures |r.0| == |secs| && forall i :: n <= i < |secs| ==> r.0[i] == secs[i]
    decreases n
  {
    if n == 0 then (secs, 0)
    else
      var (prev, st) := ReceiveSections(secs, ids, statuses, n - 1);
      if st != 0 then (prev, st)
      else if secs[n - 1].classTag != ids[2 * (n - 1)] then (prev, -1)
      else (prev[n - 1 := prev[n - 1].(dbTag := ids[2 * (n - 1) + 1])],
            if statuses[n - 1] < 0 then -1 else 0)
  }

  /** The receive succeeds exactly when every section has the class the array names
      and receives itself; then each section carries the dbTag the array names and
      nothing else about it changes. */
  lemma {:induction false} ReceiveSectionsSucceedsIff(secs: seq<Section>, ids: seq<int>, statuses: seq<int>, n: nat)
    requires n <= |secs| && |ids| == 2 * |secs| && |statuses| == |secs|
    ensures ReceiveSections(secs, ids, statuses, n).1 == 0 <==>
              forall i :: 0 <= i < n ==> secs[i].classTag == ids[2 * i] && statuses[i] >= 0
    ensures ReceiveSections(secs, ids, statuses, n).1 != 0 ==> ReceiveSections(secs, ids, statuses, n).1 == -1
    ensures ReceiveSections(secs, ids, statuses, n).1 == 0 ==>
              forall i :: 0 <= i < |secs| ==>
                ReceiveSections(secs, ids, statuses, n).0[i] ==
                  if i < n then secs[i].(dbTag := ids[2 * i + 1]) else secs[i]
  {
    if n > 0 {
      ReceiveSectionsSucceedsIff(secs, ids, statuses, n - 1);
    }
  }

  /** Receiving the index array an element sent restores every section as it was. */
  lemma ReceiveSentSections(secs: seq<Section>, statuses: seq<int>)
    requires |statuses| == |secs| && forall i :: 0 <= i < |secs| ==> statuses[i] >= 0
    ensures ReceiveSections(secs, SectionIds(secs), statuses, |secs|) == (secs, 0)
  {
    var ids := SectionIds(secs);
    var n := |secs|;
    ReceiveSectionsSucceedsIff(secs, ids, statuses, n);
    var r := ReceiveSections(secs, ids, statuses, n);
    assert r.1 == 0;
    forall i | 0 <= i < n
      ensures r.0[i] == secs[i]
    {
      assert ids[2 * i + 1] == secs[i].dbTag;
    }
    assert r.0 == secs;
  }
}
