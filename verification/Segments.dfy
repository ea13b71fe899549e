/** Prefill segments: how a batch's requests tile the flat token stream. */
module Segments {
  import opened Core
  import opened Sequences

  datatype Segment = Segment(offset: nat, extendLen: int, tableIdx: nat, startPos: nat)

  function LastIndices(reqs: seq<ReqView>): (last: seq<int>)
    requires ValidViews(reqs)
    ensures |last| == |reqs|
  {
    var cu := PrefixSums(ExtendLens(reqs));
    seq(|reqs|, i requires 0 <= i < |reqs| => cu[i + 1] as int - 1)
  }

  /** The prefill branch: a running offset over the batch.  The padded list may carry dummy requests
      after the batch's own; its last rows are the last rows of the segments. */
  method PrepareSegments(reqs: seq<ReqView>, padded: seq<ReqView>) returns (segments: seq<Segment>, last: seq<int>)
    requires reqs <= padded && ValidViews(padded)
    ensures |segments| == |reqs| && |last| == |padded|
    ensures var cu := PrefixSums(ExtendLens(reqs));
            forall i :: 0 <= i < |reqs| ==>
              && segments[i] == Segment(cu[i], reqs[i].ExtendLen(), reqs[i].tableIdx, reqs[i].cachedLen)
              && last[i] == segments[i].offset + segments[i].extendLen - 1
  {
    segments := [];
    last := LastIndices(padded);
    ghost var lens := ExtendLens(reqs);
    ghost var cu := PrefixSums(lens);
    PrefixSumsAtZero(lens);
    var off := 0;
    for i := 0 to |reqs|
      invariant |segments| == i
      invariant i < |reqs| ==> off == cu[i]
      invariant forall k :: 0 <= k < i ==>
                  && segments[k] == Segment(cu[k], reqs[k].ExtendLen(), reqs[k].tableIdx, reqs[k].cachedLen)
                  && last[k] == cu[k] + reqs[k].ExtendLen() - 1
    {
      PrefixSumsStep(lens, i);
      LastOfSegment(reqs, padded, i);
      segments := segments + [Segment(off, reqs[i].ExtendLen(), reqs[i].tableIdx, reqs[i].cachedLen)];
      off := off + reqs[i].ExtendLen();
    }
  }

  lemma LastOfSegment(reqs: seq<ReqView>, padded: seq<ReqView>, i: nat)
    requires reqs <= padded && ValidViews(padded) && i < |reqs|
    ensures LastIndices(padded)[i] == PrefixSums(ExtendLens(reqs))[i] + reqs[i].ExtendLen() - 1
  {
    assert ExtendLens(reqs) <= ExtendLens(padded);
    PrefixSumsStep(ExtendLens(reqs), i);
    PrefixSumsOfPrefix(ExtendLens(reqs), ExtendLens(padded), i + 1);
  }

  /** Running totals do not depend on what comes later. */
  lemma {:induction false} PrefixSumsOfPrefix(a: seq<nat>, b: seq<nat>, i: nat)
    requires a <= b && i <= |a|
    ensures PrefixSums(a)[i] == PrefixSums(b)[i]
  {
    if i > 0 {
      PrefixSumsStep(a, i - 1);
      PrefixSumsStep(b, i - 1);
      PrefixSumsOfPrefix(a, b, i - 1);
    } else {
      PrefixSumsAtZero(a);
      PrefixSumsAtZero(b);
    }
  }

  lemma PrefixSumsAtZero(a: seq<nat>)
    ensures PrefixSums(a)[0] == 0
  {
    if a != [] {
      PrefixSumsStep(a, 0);
    }
  }

  lemma {:induction false} PrefixSumsGrow(lens: seq<nat>, i: nat, j: nat)
    requires i <= j <= |lens|
    ensures PrefixSums(lens)[i] <= PrefixSums(lens)[j]
    decreases j - i
  {
    if i < j {
      PrefixSumsStep(lens, j - 1);
      PrefixSumsGrow(lens, i, j - 1);
    }
  }

  /** Flat token `t` lies in segment `i`. */
  ghost predicate InSegment(lens: seq<nat>, i: nat, t: nat)
    requires i < |lens|
  {
    PrefixSums(lens)[i] <= t < PrefixSums(lens)[i] + lens[i]
  }

  lemma {:induction false} FindSegment(lens: seq<nat>, t: nat, n: nat) returns (i: nat)
    requires 0 < n <= |lens| && t < PrefixSums(lens)[n]
    ensures i < n && InSegment(lens, i, t)
    decreases n
  {
    PrefixSumsStep(lens, n - 1);
    if t >= PrefixSums(lens)[n - 1] {
      i := n - 1;
    } else {
      i := FindSegment(lens, t, n - 1);
    }
  }

  lemma SegmentsDisjoint(lens: seq<nat>, i: nat, j: nat, t: nat)
    requires i < j < |lens| && InSegment(lens, i, t)
    ensures !InSegment(lens, j, t)
  {
    PrefixSumsStep(lens, i);
    PrefixSumsGrow(lens, i + 1, j);
  }

  /** The segments tile the stream: every flat token belongs to exactly one request's segment. */
  lemma SegmentsTile(lens: seq<nat>, t: nat)
    requires lens != [] && t < PrefixSums(lens)[|lens|]
    ensures exists i: nat :: i < |lens| && InSegment(lens, i, t)
    ensures forall i: nat, j: nat | i < |lens| && j < |lens| ::
              InSegment(lens, i, t) && InSegment(lens, j, t) ==> i == j
  {
    var k := FindSegment(lens, t, |lens|);
    forall i: nat, j: nat | i < j < |lens| && InSegment(lens, i, t)
      ensures !InSegment(lens, j, t)
    {
      SegmentsDisjoint(lens, i, j, t);
    }
  }
}
