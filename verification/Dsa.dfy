/** GLM-DSA: chunked causal selection at prefill, staged selection at decode. */
module Dsa {
  import opened Options
  import opened Sequences
  import opened Arithmetic
  import opened Ranking
  import opened Attention
  import opened Selection
  import Snapshot

  const PREFILL_SCORE_BYTES := 0x800_0000   // 128 << 20
  const PREFILL_SCORE_CHUNK := 512

  function Max(a: int, b: int): int {
    if a >= b then a else b
  }

  function PrefillChunk(kvLen: nat): (chunk: nat)
    ensures 16 <= chunk <= 512
  {
    Max(16, Min(PREFILL_SCORE_CHUNK, PREFILL_SCORE_BYTES / Max(kvLen * 4, 1)))
  }

  /** The chunk keeps its 32-bit scores within 128 MiB, unless 16 queries already exceed that, and is the
      largest of at most 512 queries that does. */
  lemma PrefillChunkMeaning(kvLen: nat)
    requires kvLen > 0
    ensures var chunk := PrefillChunk(kvLen);
            && 16 <= chunk <= 512
            && (chunk > 16 ==> chunk * (kvLen * 4) <= 128 * 1024 * 1024)
            && (chunk < 512 ==> (chunk + 1) * (kvLen * 4) > 128 * 1024 * 1024)
  {
    var bytes, w := PREFILL_SCORE_BYTES, kvLen * 4;
    var q := bytes / w;
    assert bytes == q * w + bytes % w;
    MulDistributes(q, 1, w);
    MulDistributes(PrefillChunk(kvLen) + 1, q + 1, w);
    MulAtLeast(PrefillChunk(kvLen) + 1 - (q + 1), w);
    MulDistributes(q, PrefillChunk(kvLen), w);
    MulAtLeast(q - PrefillChunk(kvLen), w);
  }

  /** A query's logits as a function of the physical row its key is read from. */
  type Scorer = int -> real

  /** Head-reduced logits of a run of queries over the request's keys. */
  function PrefillLogits(queries: seq<Scorer>, rows: seq<int>): (scores: seq<seq<real>>)
    ensures |scores| == |queries|
    ensures forall s :: 0 <= s < |scores| ==> scores[s] == KeyScores(queries[s], rows)
  {
    seq(|queries|, s requires 0 <= s < |queries| => KeyScores(queries[s], rows))
  }

  /** One query's selection: rank its keys causally and map the picks to physical rows. */
  function SelectRow(query: Scorer, rows: seq<int>, pos: nat, k: nat): (sel: seq<int>)
    ensures |sel| == Min(k, |rows|)
  {
    MapRows(SelectPrefillRow(KeyScores(query, rows), pos, 1, k, 0), rows)
  }

  /** One call of the shared selection, mapped to physical rows. */
  function SelectChunk(queries: seq<Scorer>, rows: seq<int>, start: nat, k: nat): (sel: seq<seq<int>>)
    ensures |sel| == |queries|
    ensures forall s :: 0 <= s < |sel| ==> sel[s] == SelectRow(queries[s], rows, start + s, k)
  {
    var picks := SelectPrefill(PrefillLogits(queries, rows), start, 1, k, 0);
    assert forall s :: 0 <= s < |queries| ==>
        picks[s] == SelectPrefillRow(KeyScores(queries[s], rows), start + s, 1, k, 0);
    seq(|queries|, s requires 0 <= s < |queries| => MapRows(picks[s], rows))
  }

  lemma ChunkOfWhole(queries: seq<Scorer>, rows: seq<int>, start: nat, k: nat, s0: nat, s1: nat)
    requires s0 <= s1 <= |queries|
    ensures SelectChunk(queries[s0..s1], rows, start + s0, k) == SelectChunk(queries, rows, start, k)[s0..s1]
  {
    var part, whole := SelectChunk(queries[s0..s1], rows, start + s0, k), SelectChunk(queries, rows, start, k);
    forall s | 0 <= s < s1 - s0 ensures part[s] == whole[s0..s1][s] {
      assert start + s0 + s == start + (s0 + s);
      assert whole[s0..s1][s] == whole[s0 + s];
    }
  }

  /** Per query, the number of columns the kernel may visit. */
  function Counts(start: nat, m: nat, bound: nat): (cnt: seq<nat>)
    ensures |cnt| == m && forall s :: 0 <= s < m ==> cnt[s] == Min(start + s + 1, bound)
  {
    seq(m, s requires 0 <= s < m => if start + s + 1 <= bound then start + s + 1 else bound)
  }

  /** One request's prefill selection, in query chunks: the same as one call over all queries.  A
      request always extends by at least one token, and its positions are consecutive and end at
      its last key. */
  method SelectPrefillRows(queries: seq<Scorer>, rows: seq<int>, positions: seq<nat>, indexTopk: nat)
    returns (sel: seq<seq<int>>, cnt: seq<nat>)
    requires |positions| == |queries| > 0
    requires forall s :: 0 <= s < |positions| ==> positions[s] == positions[0] + s
    requires positions[0] + |positions| <= |rows|
    ensures sel == SelectChunk(queries, rows, positions[0], Min(indexTopk, |rows|))
    ensures cnt == Counts(positions[0], |queries|, Min(indexTopk, |rows|))
  {
    var kvLen := |rows|;
    var kSel := Min(indexTopk, kvLen);
    var m := |queries|;
    var buf := new seq<int>[m](_ => []);
    var startPos := positions[0];
    var chunk := PrefillChunk(kvLen);
    ghost var whole := SelectChunk(queries, rows, startPos, kSel);
    var s0 := 0;
    while s0 < m
      invariant 0 <= s0 <= m
      invariant buf[..s0] == whole[..s0]
    {
      var s1 := Min(s0 + chunk, m);
      var part := SelectChunk(queries[s0..s1], rows, startPos + s0, kSel);
      ChunkOfWhole(queries, rows, startPos, kSel, s0, s1);
      CopyInto(buf, s0, part);
      assert whole[..s1] == whole[..s0] + whole[s0..s1];
      s0 := s1;
    }
    sel := buf[..];
    cnt := seq(m, s requires 0 <= s < m => Min(positions[s] + 1, kSel));
  }

  lemma SelectRowIs(query: Scorer, rows: seq<int>, pos: nat, k: nat)
    requires pos < |rows| && k <= |rows|
    ensures var scores := MaskDead(KeyScores(query, rows), pos + 1);
            && LiveRow(scores, pos + 1)
            && IsTopK(scores, k, TopK(scores, k))
            && SelectRow(query, rows, pos, k) == MapRows(Sentinel(TopK(scores, k), pos + 1, 0), rows)
  {
  }

  /** What a query row of the selection is: with `live = pos + 1`, its first `min(live, k)` entries
      are the rows of that many different live positions, best first, and every later entry is the
      sentinel. */
  lemma PrefillRowMeaning(query: Scorer, rows: seq<int>, pos: nat, k: nat, scores: seq<Score>, picks: seq<nat>,
                          sel: seq<int>)
    requires pos < |rows| && k <= |rows|
    requires scores == MaskDead(KeyScores(query, rows), pos + 1) && picks == TopK(scores, k)
    requires sel == SelectRow(query, rows, pos, k)
    ensures LiveRow(scores, pos + 1) && Selects(scores, pos + 1, rows, picks, sel)
  {
    SelectRowIs(query, rows, pos, k);
    SelectionMeaning(scores, pos + 1, k, picks, rows);
  }

  /** Cutting a query row at its device-side count loses no selected row. */
  lemma PrefillCountIsExact(query: Scorer, rows: seq<int>, pos: nat, k: nat, q: Query)
    requires pos < |rows| && k <= |rows|
    ensures var sel := SelectRow(query, rows, pos, k);
            Attend(q, sel, Min(pos + 1, k)) == Fold(q, sel)
  {
    var scores := MaskDead(KeyScores(query, rows), pos + 1);
    SelectRowIs(query, rows, pos, k);
    SelectionCountIsExact(q, scores, pos + 1, k, TopK(scores, k), rows);
  }

  /** Rows that differ between live positions stay different in the selection. */
  lemma PrefillRowDistinct(query: Scorer, rows: seq<int>, pos: nat, k: nat)
    requires pos < |rows| && k <= |rows| && Distinct(rows[..pos + 1])
    ensures Distinct(SelectRow(query, rows, pos, k)[..Min(pos + 1, k)])
  {
    var live := pos + 1;
    var scores := MaskDead(KeyScores(query, rows), live);
    var picks := TopK(scores, k);
    var sel := SelectRow(query, rows, pos, k);
    ExposedColumns(scores, live, k, picks, rows);
    var c := Min(live, k);
    forall a, b | 0 <= a < b < c ensures sel[..c][a] != sel[..c][b] {
      assert picks[a] != picks[b];
      assert rows[..live][picks[a]] == RowsAt(picks[..c], rows)[a];
      assert rows[..live][picks[b]] == RowsAt(picks[..c], rows)[b];
    }
  }

  /** While the live length fits `k`, a prefill query's sparse attention is dense causal attention. */
  lemma PrefillRowIsDense(query: Scorer, rows: seq<int>, pos: nat, k: nat, q: Query)
    requires pos < k <= |rows|
    ensures Attend(q, SelectRow(query, rows, pos, k), Min(pos + 1, k)) == Attend(q, rows, pos + 1)
  {
    var scores := MaskDead(KeyScores(query, rows), pos + 1);
    SparseIsDense(q, scores, pos + 1, k, TopK(scores, k), rows);
  }

  // ----- a whole prefill batch --------------------------------------------------------------

  /** One request of a prefill batch: its row list up to `device_len`, the position of its first
      new token, and per new token the indexer query and the attention query. */
  datatype PrefillReq = PrefillReq(rows: seq<int>, start: nat, queries: seq<Scorer>, attn: seq<Query>) {
    ghost predicate Valid() {
      |queries| == |attn| && start + |queries| <= |rows|
    }
  }

  /** Attention of query `s`: the identity selection bounded by the causal count, or the sparse
      selection bounded by the clamped count. */
  function QueryAttention(r: PrefillReq, s: nat, sparse: bool, topk: nat): Acc
    requires r.Valid() && s < |r.queries|
  {
    var pos := r.start + s;
    if sparse then
      var k := Min(topk, |r.rows|);
      var sel := SelectRow(r.queries[s], r.rows, pos, k);
      Attend(r.attn[s], sel, Min(pos + 1, k))
    else
      Attend(r.attn[s], r.rows, pos + 1)
  }

  /** The kernel over one request's queries. */
  function AttendAll(attn: seq<Query>, sel: seq<seq<int>>, cnt: seq<nat>): (o: seq<Acc>)
    requires |attn| == |sel| == |cnt| && forall s :: 0 <= s < |cnt| ==> cnt[s] <= |sel[s]|
    ensures |o| == |attn| && forall s :: 0 <= s < |o| ==> o[s] == Attend(attn[s], sel[s], cnt[s])
  {
    seq(|attn|, s requires 0 <= s < |attn| => Attend(attn[s], sel[s], cnt[s]))
  }

  function RequestAttention(r: PrefillReq, sparse: bool, topk: nat): (o: seq<Acc>)
    requires r.Valid()
    ensures |o| == |r.queries|
  {
    var m, kvLen := |r.queries|, |r.rows|;
    if sparse then
      var k := Min(topk, kvLen);
      AttendAll(r.attn, SelectChunk(r.queries, r.rows, r.start, k), Counts(r.start, m, k))
    else
      AttendAll(r.attn, seq(m, _ => r.rows), Counts(r.start, m, kvLen))
  }

  lemma RequestAttentionAt(r: PrefillReq, s: nat, sparse: bool, topk: nat)
    requires r.Valid() && s < |r.queries|
    ensures RequestAttention(r, sparse, topk)[s] == QueryAttention(r, s, sparse, topk)
  {
  }

  ghost predicate ValidBatch(reqs: seq<PrefillReq>) {
    forall i :: 0 <= i < |reqs| ==> reqs[i].Valid()
  }

  /** The requests' outputs. */
  function Parts(reqs: seq<PrefillReq>, sparse: bool, topk: nat): (parts: seq<seq<Acc>>)
    requires ValidBatch(reqs)
    ensures |parts| == |reqs|
    ensures forall i :: 0 <= i < |reqs| ==> parts[i] == RequestAttention(reqs[i], sparse, topk)
  {
    seq(|reqs|, i requires 0 <= i < |reqs| => RequestAttention(reqs[i], sparse, topk))
  }

  /** The flat output: each request's queries at its own offset, in batch order. */
  function BatchAttention(reqs: seq<PrefillReq>, sparse: bool, topk: nat): seq<Acc>
    requires ValidBatch(reqs)
  {
    Flatten(Parts(reqs, sparse, topk))
  }

  function MaxKvLen(reqs: seq<PrefillReq>): nat {
    if reqs == [] then 0 else Max(|reqs[0].rows|, MaxKvLen(reqs[1..]))
  }

  /** One request longer than `k` is enough. */
  lemma {:induction false} MaxKvLenMeaning(reqs: seq<PrefillReq>, k: nat)
    ensures MaxKvLen(reqs) > k <==> exists i :: 0 <= i < |reqs| && |reqs[i].rows| > k
  {
    if reqs != [] {
      MaxKvLenMeaning(reqs[1..], k);
      if MaxKvLen(reqs[1..]) > k {
        var i :| 0 <= i < |reqs[1..]| && |reqs[1..][i].rows| > k;
        assert |reqs[i + 1].rows| > k;
      }
      if i :| 0 <= i < |reqs| && |reqs[i].rows| > k && i > 0 {
        assert |reqs[1..][i - 1].rows| > k;
      }
    }
  }

  function Offset(reqs: seq<PrefillReq>): nat {
    if reqs == [] then 0 else Offset(reqs[..|reqs| - 1]) + |reqs[|reqs| - 1].queries|
  }

  method PrefillRequest(r: PrefillReq, sparse: bool, indexTopk: nat) returns (part: seq<Acc>)
    requires r.Valid() && (sparse ==> r.queries != [])
    ensures part == RequestAttention(r, sparse, indexTopk)
  {
    var m := |r.queries|;
    if sparse {
      var positions := seq(m, s requires 0 <= s < m => r.start + s);
      var sel, cnt := SelectPrefillRows(r.queries, r.rows, positions, indexTopk);
      assert positions[0] == r.start;
      part := AttendAll(r.attn, sel, cnt);
      return;
    } else {
      part := AttendAll(r.attn, seq(m, _ => r.rows), Counts(r.start, m, |r.rows|));
    }
  }

  lemma BatchNext(reqs: seq<PrefillReq>, i: nat, sparse: bool, topk: nat)
    requires ValidBatch(reqs) && i < |reqs|
    ensures BatchAttention(reqs[..i + 1], sparse, topk)
            == BatchAttention(reqs[..i], sparse, topk) + RequestAttention(reqs[i], sparse, topk)
  {
    assert Parts(reqs[..i + 1], sparse, topk)[..i] == Parts(reqs[..i], sparse, topk);
  }

  /** The loop over the requests, in batch order.  A request without new tokens is skipped on the dense
      path; on the sparse path the selection has no first position to start from and fails. */
  method PrefillRequests(reqs: seq<PrefillReq>, sparse: bool, indexTopk: nat) returns (o: Option<seq<Acc>>)
    requires ValidBatch(reqs)
    ensures o.None? <==> sparse && exists i :: 0 <= i < |reqs| && reqs[i].queries == []
    ensures o.Some? ==> o.value == BatchAttention(reqs, sparse, indexTopk)
  {
    var out: seq<Acc> := [];
    for i := 0 to |reqs|
      invariant out == BatchAttention(reqs[..i], sparse, indexTopk)
      invariant sparse ==> forall k :: 0 <= k < i ==> reqs[k].queries != []
    {
      if sparse && reqs[i].queries == [] {
        return None;
      }
      var part := PrefillRequest(reqs[i], sparse, indexTopk);
      BatchNext(reqs, i, sparse, indexTopk);
      out := out + part;
    }
    assert reqs[..|reqs|] == reqs;
    o := Some(out);
  }

  /** The batch goes sparse as a whole as soon as one request is longer than `indexTopk`. */
  method Prefill(reqs: seq<PrefillReq>, indexTopk: nat) returns (o: Option<seq<Acc>>)
    requires ValidBatch(reqs) && reqs != []
    ensures var sparse := exists i :: 0 <= i < |reqs| && |reqs[i].rows| > indexTopk;
            && (o.None? <==> sparse && exists i :: 0 <= i < |reqs| && reqs[i].queries == [])
            && (o.Some? ==> o.value == BatchAttention(reqs, sparse, indexTopk))
  {
    MaxKvLenMeaning(reqs, indexTopk);
    o := PrefillRequests(reqs, MaxKvLen(reqs) > indexTopk, indexTopk);
  }

  lemma QueryAttends(r: PrefillReq, s: nat, topk: nat, pos: nat, k: nat, sel: seq<int>)
    requires r.Valid() && s < |r.queries| && pos == r.start + s && k == Min(topk, |r.rows|)
    requires sel == SelectRow(r.queries[s], r.rows, pos, k)
    ensures |sel| == k && QueryAttention(r, s, true, topk) == Attend(r.attn[s], sel, Min(pos + 1, k))
  {
  }

  /** On the sparse path a query attends all of its own causal selection, which `PrefillRowMeaning`
      says is the best `topk` of its live rows by its own scorer. */
  lemma SparseQueryAttention(r: PrefillReq, s: nat, topk: nat, pos: nat, k: nat)
    requires r.Valid() && s < |r.queries| && pos == r.start + s && k == Min(topk, |r.rows|)
    ensures QueryAttention(r, s, true, topk) == Fold(r.attn[s], SelectRow(r.queries[s], r.rows, pos, k))
  {
    QueryAttends(r, s, topk, pos, k, SelectRow(r.queries[s], r.rows, pos, k));
    PrefillCountIsExact(r.queries[s], r.rows, pos, k, r.attn[s]);
  }

  /** On the dense path it attends all rows up to its own position. */
  lemma DenseQueryAttention(r: PrefillReq, s: nat, topk: nat)
    requires r.Valid() && s < |r.queries|
    ensures QueryAttention(r, s, false, topk) == Fold(r.attn[s], r.rows[..r.start + s + 1])
  {
  }

  /** The masked scores: the query's own logits up to its position, minus infinity after it. */
  lemma MaskedKeyScores(query: Scorer, rows: seq<int>, live: nat, t: nat)
    requires t < |rows|
    ensures MaskDead(KeyScores(query, rows), live)[t] == if t < live then Fin(query(rows[t])) else NegInf
  {
  }

  lemma {:induction false} BatchLength(reqs: seq<PrefillReq>, sparse: bool, topk: nat)
    requires ValidBatch(reqs)
    ensures |Flatten(Parts(reqs, sparse, topk))| == Offset(reqs)
  {
    if reqs != [] {
      var m := |reqs| - 1;
      BatchLength(reqs[..m], sparse, topk);
      assert Parts(reqs, sparse, topk)[..m] == Parts(reqs[..m], sparse, topk);
    }
  }

  lemma OffsetIsLength(reqs: seq<PrefillReq>, sparse: bool, topk: nat, parts: seq<seq<Acc>>, i: nat)
    requires ValidBatch(reqs) && parts == Parts(reqs, sparse, topk) && i <= |reqs|
    ensures |Flatten(parts[..i])| == Offset(reqs[..i])
  {
    BatchLength(reqs[..i], sparse, topk);
    assert parts[..i] == Parts(reqs[..i], sparse, topk);
  }

  lemma OutputAt(reqs: seq<PrefillReq>, sparse: bool, topk: nat, parts: seq<seq<Acc>>, i: nat, s: nat)
    requires ValidBatch(reqs) && parts == Parts(reqs, sparse, topk) && i < |reqs| && s < |parts[i]|
    ensures |Flatten(parts)| == Offset(reqs) && Offset(reqs[..i]) + s < |Flatten(parts)|
    ensures Flatten(parts)[Offset(reqs[..i]) + s] == parts[i][s]
  {
    BatchLength(reqs, sparse, topk);
    OffsetIsLength(reqs, sparse, topk, parts, i);
    FlattenAt(parts, i, s);
  }

  /** The flat output tiles: query `s` of request `i` is found at the request's offset plus `s`. */
  lemma BatchAttentionAt(reqs: seq<PrefillReq>, sparse: bool, topk: nat, i: nat, s: nat)
    requires ValidBatch(reqs) && i < |reqs| && s < |reqs[i].queries|
    ensures var o := BatchAttention(reqs, sparse, topk);
            && |o| == Offset(reqs)
            && Offset(reqs[..i]) + s < |o|
            && o[Offset(reqs[..i]) + s] == QueryAttention(reqs[i], s, sparse, topk)
  {
    OutputAt(reqs, sparse, topk, Parts(reqs, sparse, topk), i, s);
    RequestAttentionAt(reqs[i], s, sparse, topk);
  }

  /** A query within `topk` gets dense causal attention whichever path its batch took: a longer
      request in the same batch switches everyone to the sparse path without changing a short
      request's result. */
  lemma ShortQueryIsDense(r: PrefillReq, s: nat, sparse: bool, topk: nat)
    requires r.Valid() && s < |r.queries| && r.start + s + 1 <= topk
    ensures QueryAttention(r, s, sparse, topk) == Attend(r.attn[s], r.rows, r.start + s + 1)
  {
    if sparse {
      PrefillRowIsDense(r.queries[s], r.rows, r.start + s, Min(topk, |r.rows|), r.attn[s]);
    }
  }

  // ----- decode ---------------------------------------------------------------------------

  /** The static buffers of the captured decode. */
  class DecodeStaging {
    const capture: Snapshot.CaptureBackend
    const kvlenBuf: array<nat>

    ghost predicate Valid()
      reads this, capture
    {
      && capture.Valid()
      && kvlenBuf.Length == capture.fullSnap.Length0
      && capture.fullSnap.Length1 == capture.table.Length1
    }

    constructor (table: array2<int>, maxBs: nat)
      ensures Valid() && capture.table == table && kvlenBuf.Length == maxBs
    {
      capture := new Snapshot.CaptureBackend(table, maxBs, table.Length1);
      kvlenBuf := new nat[maxBs](_ => 0);
    }

    method StageDecode(tableIdx: seq<nat>, kvLens: seq<nat>)
      requires Valid() && |tableIdx| == |kvLens| <= kvlenBuf.Length
      requires forall i :: 0 <= i < |tableIdx| ==> tableIdx[i] < capture.table.Length0
      modifies capture.fullSnap, kvlenBuf
      ensures Valid()
      ensures Snapshot.Rows(capture.fullSnap) ==
              Snapshot.StageRows(old(Snapshot.Rows(capture.fullSnap)), old(Snapshot.Rows(capture.table)), tableIdx)
      ensures Snapshot.Rows(capture.table) == old(Snapshot.Rows(capture.table))
      ensures kvlenBuf[..] == kvLens + old(kvlenBuf[|kvLens|..])
    {
      capture.PointToCapture(tableIdx);
      for i := 0 to |kvLens|
        invariant kvlenBuf[..i] == kvLens[..i]
        invariant kvlenBuf[i..] == old(kvlenBuf[i..])
        invariant Snapshot.Rows(capture.fullSnap) ==
              Snapshot.StageRows(old(Snapshot.Rows(capture.fullSnap)), old(Snapshot.Rows(capture.table)), tableIdx)
        invariant Snapshot.Rows(capture.table) == old(Snapshot.Rows(capture.table))
      {
        kvlenBuf[i] := kvLens[i];
      }
    }
  }

  /** One request's decode attention off the staged row snapshot: score, rank, map, attend under
      the device-side count. */
  function DecodeAttention(q: Query, scores: seq<Score>, rows: seq<int>, kvlen: nat, topk: nat): Acc
    requires |scores| == |rows|
  {
    var kSel := Min(topk, |scores|);
    var sel := MapRows(SelectDecodeRow(scores, kvlen, kSel, 0), rows);
    Attend(q, sel, Min(kvlen, kSel))
  }

  /** The contract of the decode scoring kernel: finite scores before the live length, masked
      from there on. */
  ghost predicate DecodeScores(scores: seq<Score>, query: Scorer, rows: seq<int>, kvlen: nat) {
    && |scores| == |rows|
    && LiveRow(scores, kvlen)
    && forall t :: 0 <= t < kvlen ==> scores[t] == Fin(query(rows[t]))
  }

  /** Past `topk` too, the last prefill query and the first decode over the same history accumulate
      the same attention. */
  lemma PrefillAndDecodeAttendAlike(query: Scorer, rows: seq<int>, kvlen: nat, topk: nat,
                                    scores: seq<Score>, q: Query)
    requires 0 < kvlen <= |rows| && DecodeScores(scores, query, rows, kvlen)
    ensures var k := Min(topk, kvlen);
            var sel := SelectRow(query, rows[..kvlen], kvlen - 1, k);
            && |sel| == k
            && DecodeAttention(q, scores, rows, kvlen, topk) == Attend(q, sel, Min(kvlen, k))
  {
    PrefillDecodeAgree(query, rows, kvlen, topk, scores);
  }

  lemma ShortDecodeIsDense(query: Scorer, rows: seq<int>, kvlen: nat, topk: nat, scores: seq<Score>, q: Query)
    requires kvlen <= |rows| && kvlen <= topk && DecodeScores(scores, query, rows, kvlen)
    ensures DecodeAttention(q, scores, rows, kvlen, topk) == Attend(q, rows, kvlen)
  {
    var k := Min(topk, |scores|);
    SparseIsDense(q, scores, kvlen, k, TopK(scores, k), rows);
  }

  // ----- every run of the captured decode ---------------------------------------------------

  /** The snapshot machine together with the captured length buffer. */
  datatype State = State(snap: Snapshot.State, lens: seq<nat>)

  /** `kvLens` are the lengths staged along with a batch's rows. */
  datatype Event = Event(e: Snapshot.Event, kvLens: seq<nat>)

  ghost predicate Enabled(s: State, e: Event) {
    Snapshot.Enabled(s.snap, e.e) && (e.e.Stage? ==> |e.kvLens| == |e.e.rows| <= |s.lens|)
  }

  ghost function Step(s: State, e: Event): State
    requires Enabled(s, e)
  {
    State(Snapshot.Step(s.snap, e.e),
          match e.e
          case Alloc(_, _, _) => s.lens
          case Stage(_) => e.kvLens + s.lens[|e.kvLens|..]
          case Rearm(maxBs, _) => seq(maxBs, _ => 0))
  }

  ghost predicate Reaches(s: State, es: seq<Event>, s': State)
    decreases |es|
  {
    if es == [] then s == s' else
    Enabled(s, es[0]) && Reaches(Step(s, es[0]), es[1..], s')
  }

  ghost function SnapshotEvents(es: seq<Event>): (r: seq<Snapshot.Event>)
    ensures |r| == |es|
  {
    if es == [] then [] else [es[0].e] + SnapshotEvents(es[1..])
  }

  /** What a step does to the lengths: staging overwrites the leading ones, re-arming gives a new buffer
      of zeros, an allocation leaves them alone. */
  lemma StepLengths(s: State, e: Event, i: nat)
    requires Enabled(s, e) && i < |Step(s, e).lens|
    ensures match e.e
            case Alloc(_, _, _) => Step(s, e).lens == s.lens
            case Stage(_) =>
              |Step(s, e).lens| == |s.lens| && Step(s, e).lens[i] == if i < |e.kvLens| then e.kvLens[i] else s.lens[i]
            case Rearm(maxBs, _) => |Step(s, e).lens| == maxBs && Step(s, e).lens[i] == 0
  {
  }

  /** The rows follow the snapshot machine; with allocations only, the lengths stay. */
  lemma {:induction false} RunsSnapshot(s: State, es: seq<Event>, s': State)
    requires Reaches(s, es, s')
    ensures Snapshot.Reaches(s.snap, SnapshotEvents(es), s'.snap)
    ensures Snapshot.OnlyAllocs(SnapshotEvents(es)) ==> s'.lens == s.lens
    decreases |es|
  {
    if es != [] {
      var rest := SnapshotEvents(es[1..]);
      RunsSnapshot(Step(s, es[0]), es[1..], s');
      assert SnapshotEvents(es)[1..] == rest;
      if Snapshot.OnlyAllocs(SnapshotEvents(es)) {
        assert SnapshotEvents(es)[0].Alloc?;
        assert forall i :: 0 <= i < |rest| ==> rest[i] == SnapshotEvents(es)[i + 1];
      }
    }
  }

  /** A batch staged after any history, with allocations only up to its replay; the captured width is
      that of the table. */
  ghost predicate Captured(s: State, before: seq<Event>, staged: State, batch: seq<nat>, kvLens: seq<nat>,
                           after: seq<Event>, replay: State, width: nat) {
    && Snapshot.Inv(s.snap, width, width) && Reaches(s, before, staged)
    && Snapshot.WidthAfterRun(SnapshotEvents(before), width) == width
    && Enabled(staged, Event(Snapshot.Stage(batch), kvLens))
    && Reaches(Step(staged, Event(Snapshot.Stage(batch), kvLens)), after, replay)
    && Snapshot.OnlyAllocs(SnapshotEvents(after))
  }

  /** What a replay reads for row `r` of its batch: its own rows and its own length, as staged. */
  lemma ReplayReads(s: State, before: seq<Event>, staged: State, batch: seq<nat>, kvLens: seq<nat>,
                    after: seq<Event>, replay: State, width: nat, r: nat)
    requires Captured(s, before, staged, batch, kvLens, after, replay, width) && r < |batch|
    ensures r < |replay.snap.buf| && r < |replay.lens| && |staged.snap.table[batch[r]]| == width
    ensures replay.snap.buf[r] == staged.snap.table[batch[r]] && replay.lens[r] == kvLens[r]
  {
    var es, as' := SnapshotEvents(before), SnapshotEvents(after);
    RunsSnapshot(s, before, staged);
    RunsSnapshot(Step(staged, Event(Snapshot.Stage(batch), kvLens)), after, replay);
    Snapshot.RunKeepsInv(s.snap, es, staged.snap, width, width);
    Snapshot.ReplayReadsStagedRows(s.snap, es, staged.snap, batch, as', replay.snap, width, width);
    assert replay.snap.buf[..|batch|][r] == staged.snap.table[batch[r]];
  }

  /** From the live table to the attention result.  For every history of stagings, allocations and
      re-captures, a replayed decode -- scored and counted with the length it reads -- accumulates what
      the last prefill query over its request's rows would, as the table and the length stood when the
      batch was staged; within `topk` that is dense attention. */
  lemma CapturedDecodeAttends(s: State, before: seq<Event>, staged: State, batch: seq<nat>, kvLens: seq<nat>,
                              after: seq<Event>, replay: State, width: nat, r: nat, topk: nat, q: Query,
                              query: Scorer, scores: seq<Score>)
    requires Captured(s, before, staged, batch, kvLens, after, replay, width)
    requires r < |batch| && 0 < kvLens[r] <= width
    requires r < |replay.snap.buf| && r < |replay.lens|
    requires DecodeScores(scores, query, replay.snap.buf[r], replay.lens[r])
    ensures |staged.snap.table[batch[r]]| == width && replay.lens[r] == kvLens[r]
    ensures var rows, kvlen := staged.snap.table[batch[r]], kvLens[r];
            var k := Min(topk, kvlen);
            var o := DecodeAttention(q, scores, replay.snap.buf[r], replay.lens[r], topk);
            && o == Attend(q, SelectRow(query, rows[..kvlen], kvlen - 1, k), Min(kvlen, k))
            && (kvlen <= topk ==> o == Attend(q, rows, kvlen))
  {
    ReplayReads(s, before, staged, batch, kvLens, after, replay, width, r);
    PrefillAndDecodeAttendAlike(query, staged.snap.table[batch[r]], kvLens[r], topk, scores, q);
    if kvLens[r] <= topk {
      ShortDecodeIsDense(query, staged.snap.table[batch[r]], kvLens[r], topk, scores, q);
    }
  }
}
