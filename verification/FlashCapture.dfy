/** FlashAttention metadata and its captured buffers: page tables sliced off the token table,
    refreshed in place at every replay. */
module FlashCapture {
  import opened Sequences
  import opened Arithmetic
  import opened Core
  import opened Matrices
  import opened Paging

  datatype Metadata = Metadata(
    cuSeqlensK: seq<nat>,
    cuSeqlensQ: seq<nat>,
    cacheSeqlens: seq<nat>,
    pageTable: seq<seq<int>>)

  function MaxOf(lens: seq<nat>): (m: nat)
    ensures forall i :: 0 <= i < |lens| ==> lens[i] <= m
    ensures lens != [] ==> m in lens
  {
    if lens == [] then 0 else
    var m := MaxOf(lens[1..]);
    if lens[0] >= m then lens[0] else m
  }

  /** `page_table[ti, : maxLen : pageSize]`, divided down to page numbers. */
  function PageColumns(row: seq<int>, maxLen: nat, pageSize: nat): (cols: seq<int>)
    requires pageSize > 0 && maxLen <= |row|
    ensures |cols| == DivCeil(maxLen, pageSize)
  {
    seq(DivCeil(maxLen, pageSize), c requires 0 <= c < DivCeil(maxLen, pageSize) =>
      ColumnInRow(c, maxLen, pageSize);
      if pageSize > 1 then row[c * pageSize] / pageSize else row[c * pageSize])
  }

  lemma ColumnInRow(c: nat, maxLen: nat, pageSize: nat)
    requires pageSize > 0 && c < DivCeil(maxLen, pageSize)
    ensures 0 <= c * pageSize < maxLen
  {
    var n := DivCeil(maxLen, pageSize);
    assert maxLen + pageSize - 1 == n * pageSize + (maxLen + pageSize - 1) % pageSize;
    MulDistributes(n, c, pageSize);
    MulAtLeast(n - c, pageSize);
    MulAtLeast(c, pageSize);
  }

  lemma PositionHasColumn(p: nat, maxLen: nat, pageSize: nat)
    requires pageSize > 0 && p < maxLen
    ensures 0 <= p / pageSize < DivCeil(maxLen, pageSize)
  {
    DivMonotone(0, p, pageSize);
    DivMonotone(p + pageSize, maxLen + pageSize - 1, pageSize);
    MulDistributes(p / pageSize, 1, pageSize);
    assert p == (p / pageSize) * pageSize + p % pageSize;
    DivModUnique(p + pageSize, p / pageSize + 1, p % pageSize, pageSize);
  }

  // ----- metadata ---------------------------------------------------------------------------

  ghost predicate ValidBatch(reqs: seq<ReqView>, table: seq<seq<int>>) {
    reqs != [] && ValidViews(reqs) && forall i :: 0 <= i < |reqs| ==>
      && reqs[i].tableIdx < |table|
      && forall j :: 0 <= j < |reqs| ==> reqs[j].deviceLen <= |table[reqs[i].tableIdx]|
  }

  function DeviceLens(reqs: seq<ReqView>): (lens: seq<nat>)
    ensures |lens| == |reqs|
  {
    seq(|reqs|, i requires 0 <= i < |reqs| => reqs[i].deviceLen)
  }

  /** The query offsets, with the two shortcuts of the code. */
  function CuSeqlensQ(reqs: seq<ReqView>): seq<nat>
    requires reqs != [] && ValidViews(reqs)
  {
    if MaxOf(ExtendLens(reqs)) == 1 then
      Iota(|reqs| + 1)
    else if forall i :: 0 <= i < |reqs| ==> reqs[i].cachedLen == 0 then
      PrefixSums(DeviceLens(reqs))
    else
      PrefixSums(ExtendLens(reqs))
  }

  function PrepareMetadata(table: seq<seq<int>>, reqs: seq<ReqView>, pageSize: nat): (md: Metadata)
    requires ValidBatch(reqs, table) && pageSize > 0
    ensures |md.pageTable| == |md.cacheSeqlens| == |reqs| && |md.cuSeqlensK| == |reqs| + 1
    ensures forall i :: 0 <= i < |reqs| ==>
              |md.pageTable[i]| == DivCeil(MaxOf(DeviceLens(reqs)), pageSize)
  {
    var lens := DeviceLens(reqs);
    var maxLen := MaxOf(lens);
    Metadata(
      PrefixSums(lens),
      CuSeqlensQ(reqs),
      lens,
      seq(|reqs|, i requires 0 <= i < |reqs| => PageColumns(table[reqs[i].tableIdx], maxLen, pageSize)))
  }

  lemma {:induction false} PrefixSumsOfOnes(lens: seq<nat>)
    requires forall i :: 0 <= i < |lens| ==> lens[i] == 1
    ensures PrefixSums(lens) == Iota(|lens| + 1)
  {
    if lens != [] {
      PrefixSumsOfOnes(lens[..|lens| - 1]);
    }
  }

  /** Both shortcuts give the offsets of the general case: one token each, or no cached prefix. */
  lemma QueryOffsetsAgree(reqs: seq<ReqView>)
    requires reqs != [] && ValidViews(reqs)
    ensures CuSeqlensQ(reqs) == PrefixSums(ExtendLens(reqs))
  {
    if MaxOf(ExtendLens(reqs)) == 1 {
      PrefixSumsOfOnes(ExtendLens(reqs));
    } else if forall i :: 0 <= i < |reqs| ==> reqs[i].cachedLen == 0 {
      assert DeviceLens(reqs) == ExtendLens(reqs);
    }
  }

  /** The offsets a forward is given: from zero, each request's keys and queries in batch order. */
  lemma MetadataOffsets(table: seq<seq<int>>, reqs: seq<ReqView>, pageSize: nat, i: nat)
    requires ValidBatch(reqs, table) && pageSize > 0 && i < |reqs|
    ensures var md := PrepareMetadata(table, reqs, pageSize);
            && |md.cuSeqlensQ| == |md.cuSeqlensK| == |reqs| + 1
            && md.cuSeqlensK[0] == 0 && md.cuSeqlensK[i + 1] == md.cuSeqlensK[i] + reqs[i].deviceLen
            && md.cuSeqlensQ[0] == 0 && md.cuSeqlensQ[i + 1] == md.cuSeqlensQ[i] + reqs[i].ExtendLen()
            && md.cacheSeqlens[i] == reqs[i].deviceLen
  {
    QueryOffsetsAgree(reqs);
    PrefixSumsStep(DeviceLens(reqs), i);
    PrefixSumsStep(ExtendLens(reqs), i);
  }

  /** A page-table row resolves every position below its request's length to the live location. */
  lemma PageColumnsResolve(row: seq<int>, maxLen: nat, pageSize: nat, len: nat, p: nat)
    requires pageSize > 0 && maxLen <= |row| && p < len <= maxLen && Paged(pageSize, row, len)
    ensures 0 <= p / pageSize < DivCeil(maxLen, pageSize)
    ensures PageColumns(row, maxLen, pageSize)[p / pageSize] * pageSize + p % pageSize == row[p]
  {
    PositionHasColumn(p, maxLen, pageSize);
    ColumnInRow(p / pageSize, maxLen, pageSize);
    StartOfPage(p, pageSize);
    assert PagedAt(pageSize, row, p);
    WholeMultiple(row[p - p % pageSize], pageSize);
  }

  lemma StartOfPage(p: nat, n: nat)
    requires n > 0
    ensures (p / n) * n == p - p % n
  {
  }

  lemma WholeMultiple(x: int, n: nat)
    requires n > 0 && x % n == 0
    ensures (x / n) * n == x
  {
  }

  // ----- captured buffers -------------------------------------------------------------------

  /** The captured row after a replay, from whatever they were before. */
  ghost function RefreshedRow(prior: seq<int>, update: seq<int>): seq<int>
    requires |update| <= |prior|
  {
    update + prior[|update|..]
  }

  class Capture {
    const seqLens: array<nat>
    const cuSeqlensK: array<nat>
    const pageTable: array2<int>

    ghost predicate Valid()
    {
      && cuSeqlensK != seqLens
      && cuSeqlensK.Length == seqLens.Length + 1
      && pageTable.Length0 == seqLens.Length
    }

    constructor (maxBs: nat, maxSeqLen: nat, pageSize: nat)
      requires pageSize > 0
      ensures Valid() && seqLens.Length == maxBs && pageTable.Length1 == PagesIn(maxSeqLen, pageSize)
      ensures fresh(seqLens) && fresh(cuSeqlensK) && fresh(pageTable)
      ensures seqLens[..] == seq(maxBs, _ => 1) && cuSeqlensK[..] == Iota(maxBs + 1)
    {
      seqLens := new nat[maxBs](_ => 1);
      cuSeqlensK := new nat[maxBs + 1](i => i);
      pageTable := new int[maxBs, PagesIn(maxSeqLen, pageSize)]((_, _) => 0);
    }

    /** Refresh the captured buffers with a batch's metadata.  The page-table copy fails when the
        batch needs more columns than were captured (a single column is broadcast into an empty
        table without a failure); the two length buffers have been written by then. */
    method PrepareForReplay(md: Metadata, tableLen: nat) returns (ok: bool)
      requires Valid()
      requires |md.cacheSeqlens| == |md.pageTable| <= seqLens.Length
      requires |md.cuSeqlensK| == |md.cacheSeqlens| + 1
      requires forall i :: 0 <= i < |md.pageTable| ==> |md.pageTable[i]| == tableLen
      modifies seqLens, cuSeqlensK, pageTable
      ensures ok <==> tableLen <= pageTable.Length1 || tableLen == 1
      ensures seqLens[..] == md.cacheSeqlens + old(seqLens[|md.cacheSeqlens|..])
      ensures cuSeqlensK[..] == md.cuSeqlensK + old(cuSeqlensK[|md.cuSeqlensK|..])
      ensures forall r :: 0 <= r < pageTable.Length0 ==>
                Row(pageTable, r) == if tableLen <= pageTable.Length1 && r < |md.pageTable|
                                     then RefreshedRow(old(Row(pageTable, r)), md.pageTable[r])
                                     else old(Row(pageTable, r))
    {
      var bs := |md.cacheSeqlens|;
      CopyPrefix(cuSeqlensK, md.cuSeqlensK);
      CopyPrefix(seqLens, md.cacheSeqlens);
      if tableLen > pageTable.Length1 {
        assert forall r :: 0 <= r < pageTable.Length0 ==> Row(pageTable, r) == old(Row(pageTable, r));
        return tableLen == 1;
      }
      CopyRows(pageTable, md.pageTable, tableLen);
      ok := true;
    }
  }

  function PagesIn(maxSeqLen: nat, pageSize: nat): nat
    requires pageSize > 0
  {
    DivMonotone(0, maxSeqLen, pageSize);
    maxSeqLen / pageSize
  }

  /** As many pages as fit the captured length whole. */
  lemma PagesInMeaning(maxSeqLen: nat, pageSize: nat)
    requires pageSize > 0
    ensures PagesIn(maxSeqLen, pageSize) * pageSize <= maxSeqLen < PagesIn(maxSeqLen, pageSize) * pageSize + pageSize
  {
  }

  method CopyPrefix(dst: array<nat>, src: seq<nat>)
    requires |src| <= dst.Length
    modifies dst
    ensures dst[..] == src + old(dst[|src|..])
  {
    for i := 0 to |src|
      invariant dst[..i] == src[..i]
      invariant dst[i..] == old(dst[i..])
    {
      dst[i] := src[i];
    }
  }

  method CopyRows(dst: array2<int>, src: seq<seq<int>>, width: nat)
    requires |src| <= dst.Length0 && width <= dst.Length1
    requires forall i :: 0 <= i < |src| ==> |src[i]| == width
    modifies dst
    ensures forall r :: 0 <= r < dst.Length0 ==>
              Row(dst, r) == if r < |src| then src[r] + old(Row(dst, r))[width..] else old(Row(dst, r))
  {
    for r := 0 to |src|
      invariant forall q :: 0 <= q < r ==> Row(dst, q) == src[q] + old(Row(dst, q))[width..]
      invariant forall q, c :: r <= q < dst.Length0 && 0 <= c < dst.Length1 ==> dst[q, c] == old(dst[q, c])
    {
      label Before:
      for c := 0 to width
        invariant forall b :: 0 <= b < c ==> dst[r, b] == src[r][b]
        invariant forall q, b | 0 <= q < dst.Length0 && 0 <= b < dst.Length1 ::
                    q != r || c <= b ==> dst[q, b] == old@Before(dst[q, b])
      {
        dst[r, c] := src[r][c];
      }
      forall q | 0 <= q < r ensures Row(dst, q) == old@Before(Row(dst, q)) {
        assert forall b :: 0 <= b < dst.Length1 ==> dst[q, b] == old@Before(dst[q, b]);
      }
      assert Row(dst, r) == src[r] + old(Row(dst, r))[width..];
    }
    assert forall r :: |src| <= r < dst.Length0 ==> Row(dst, r) == old(Row(dst, r));
  }

  /** Stale capture contents are never observed.  Whatever an earlier history left in row `r`, after
      a replay every position below the request's length resolves to the location the live table
      held when the batch was prepared; columns past the copied ones may hold old data, but no such
      position reaches them. */
  lemma StaleColumnsUnobserved(table: seq<seq<int>>, reqs: seq<ReqView>, pageSize: nat, r: nat, p: nat,
                               before: seq<int>)
    requires ValidBatch(reqs, table) && pageSize > 0 && r < |reqs| && p < reqs[r].deviceLen
    requires Paged(pageSize, table[reqs[r].tableIdx], reqs[r].deviceLen)
    requires |PrepareMetadata(table, reqs, pageSize).pageTable[r]| <= |before|
    ensures var md := PrepareMetadata(table, reqs, pageSize);
            var captured := RefreshedRow(before, md.pageTable[r]);
            && md.cacheSeqlens[r] == reqs[r].deviceLen
            && 0 <= p / pageSize < |md.pageTable[r]|
            && captured[p / pageSize] * pageSize + p % pageSize == table[reqs[r].tableIdx][p]
  {
    var lens := DeviceLens(reqs);
    assert lens[r] == reqs[r].deviceLen;
    PageColumnsResolve(table[reqs[r].tableIdx], MaxOf(lens), pageSize, reqs[r].deviceLen, p);
  }

  /** A batch fits the captured page table exactly when its longest request fits the whole pages of
      the captured length; a captured length that is not a whole number of pages loses its last
      partial page. */
  lemma ReplayFitsIff(maxLen: nat, maxSeqLen: nat, pageSize: nat)
    requires pageSize > 0
    ensures DivCeil(maxLen, pageSize) <= PagesIn(maxSeqLen, pageSize)
            <==> maxLen <= maxSeqLen - maxSeqLen % pageSize
  {
    var n, w := DivCeil(maxLen, pageSize), PagesIn(maxSeqLen, pageSize);
    assert maxLen + pageSize - 1 == n * pageSize + (maxLen + pageSize - 1) % pageSize;
    MulDistributes(w, n, pageSize);
    MulAtLeast(w - n, pageSize);
    MulDistributes(n, 1, pageSize);
  }
}
