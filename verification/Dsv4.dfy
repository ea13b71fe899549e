/** DSV4 decode, end to end: the staged snapshot, the window ring and the selected compressed
    blocks together attend exactly what the request's own history holds. */
module Dsv4 {
  import opened Sequences
  import opened Arithmetic
  import opened Ranking
  import opened Attention
  import opened Selection
  import WindowRing
  import CompressedRows
  import Snapshot

  /** What one decode query accumulates: the window half is bounded by masking, the compressed half
      by the device-side count. */
  datatype Reading = Reading(window: Acc, compressed: Acc)

  /** The staging grid covers `nStage` blocks of the snapshot row, all live blocks among them. */
  ghost predicate Staged(scores: seq<Score>, pos: nat, ratio: nat, width: nat) {
    && ratio > 0
    && LiveRow(scores, LiveBlocks(pos, ratio))
    && |scores| * ratio <= width
  }

  lemma StagedBlock(n: nat, ratio: nat, width: nat, b: nat)
    requires ratio > 0 && n * ratio <= width && b < n
    ensures 0 <= b * ratio < width
  {
    MulDistributes(n, b, ratio);
    MulAtLeast(n - b, ratio);
    MulAtLeast(b, ratio);
  }

  lemma StagedBlocks(n: nat, ratio: nat, width: nat)
    requires ratio > 0 && n * ratio <= width
    ensures forall b :: 0 <= b < 0 + n ==> 0 <= b * ratio < width
  {
    forall b | 0 <= b < n ensures 0 <= b * ratio < width {
      StagedBlock(n, ratio, width, b);
    }
  }

  /** The rows of the staged blocks: the first `n` of the history. */
  function StagedRows(snap: seq<int>, n: nat, ratio: nat): (rows: seq<int>)
    requires ratio > 0 && n * ratio <= |snap|
    ensures |rows| == n
  {
    StagedBlocks(n, ratio, |snap|);
    CompressedRows.CompressRowsOf(snap, 0, n, ratio)
  }

  /** Compressed rows of a top-k over the staged scores. */
  function SelectedRows(snap: seq<int>, picks: seq<nat>, live: nat, ratio: nat): seq<int>
    requires ratio > 0 && snap != []
    requires forall r :: 0 <= r < |picks| ==> 0 <= picks[r] * ratio < |snap|
  {
    CompressedRows.BlocksToGlobal(Sentinel(picks, live, 0), snap, ratio)
  }

  lemma PicksInSnapshot(scores: seq<Score>, k: nat, picks: seq<nat>, ratio: nat, width: nat)
    requires ratio > 0 && |scores| * ratio <= width && IsTopK(scores, k, picks)
    ensures forall r :: 0 <= r < |picks| ==> 0 <= picks[r] * ratio < width
  {
    forall r | 0 <= r < |picks| ensures 0 <= picks[r] * ratio < width {
      StagedBlock(|scores|, ratio, width, picks[r]);
    }
  }

  /** The block lookup is the shared position-to-row map over the staged block rows. */
  lemma LookupIsMapRows(snap: seq<int>, scores: seq<Score>, k: nat, picks: seq<nat>, live: nat, ratio: nat)
    requires ratio > 0 && snap != [] && |scores| * ratio <= |snap| && IsTopK(scores, k, picks)
    ensures forall r :: 0 <= r < |picks| ==> 0 <= picks[r] * ratio < |snap|
    ensures SelectedRows(snap, picks, live, ratio)
            == MapRows(Sentinel(picks, live, 0), StagedRows(snap, |scores|, ratio))
  {
    PicksInSnapshot(scores, k, picks, ratio, |snap|);
  }

  /** Any top-k over the staged scores: the count cuts exactly the sentinels, and while the live
      blocks fit the selection the compressed half is every live block. */
  lemma CompressedHalf(q: Query, snap: seq<int>, pos: nat, ratio: nat, scores: seq<Score>, k: nat, picks: seq<nat>)
    requires Staged(scores, pos, ratio, |snap|) && snap != [] && IsTopK(scores, k, picks)
    ensures forall r :: 0 <= r < |picks| ==> 0 <= picks[r] * ratio < |snap|
    ensures var live := LiveBlocks(pos, ratio);
            var idx := SelectedRows(snap, picks, live, ratio);
            var rows := StagedRows(snap, |scores|, ratio);
            && |idx| == k
            && Selects(scores, live, rows, picks, idx)
            && Attend(q, idx, Min(live, k)) == Fold(q, idx)
            && (live <= k ==> Attend(q, idx, live) == Attend(q, rows, live))
  {
    var live := LiveBlocks(pos, ratio);
    var rows := StagedRows(snap, |scores|, ratio);
    LookupIsMapRows(snap, scores, k, picks, live, ratio);
    SelectionMeaning(scores, live, k, picks, rows);
    SelectionCountIsExact(q, scores, live, k, picks, rows);
    if live <= k {
      SparseIsDense(q, scores, live, k, picks, rows);
    }
  }

  lemma LiveBlockBelow(pos: nat, ratio: nat, b: nat)
    requires ratio > 0 && b < LiveBlocks(pos, ratio)
    ensures 0 <= b * ratio <= pos
  {
    var n := (pos + 1) / ratio;
    assert pos + 1 == n * ratio + (pos + 1) % ratio;
    StagedBlock(n, ratio, n * ratio, b);
  }

  /** Dense reading of a history: the sliding window over its last positions, and all its finished
      blocks. */
  ghost function DenseReading(qw: Query, qc: Query, row: seq<int>, pos: nat, win: nat, ratio: nat,
                              translate: int -> int): Reading
    requires win > 0 && ratio > 0 && pos < |row|
  {
    assert forall b :: 0 <= b < LiveBlocks(pos, ratio) ==> 0 <= b * ratio < |row| by {
      forall b | 0 <= b < LiveBlocks(pos, ratio) ensures 0 <= b * ratio < |row| {
        LiveBlockBelow(pos, ratio, b);
      }
    }
    Reading(
      Fold(qw, WindowRing.SlotsOf(row, WindowRing.WindowStart(pos, win), pos + 1, translate)),
      Fold(qc, CompressedRows.CompressRowsOf(row, 0, LiveBlocks(pos, ratio), ratio)))
  }

  /** The decode's reading off a snapshot row. */
  ghost function DecodeReading(qw: Query, qc: Query, snap: seq<int>, pos: nat, win: nat, ratio: nat,
                               translate: int -> int, picks: seq<nat>): Reading
    requires win > 0 && ratio > 0 && pos < |snap|
    requires forall r :: 0 <= r < |picks| ==> 0 <= picks[r] * ratio < |snap|
  {
    var live := LiveBlocks(pos, ratio);
    Reading(
      Fold(qw, WindowRing.RingSlots(snap, pos, win, translate)),
      Attend(qc, SelectedRows(snap, picks, live, ratio), Min(live, |picks|)))
  }

  lemma SameHistorySameReading(qw: Query, qc: Query, a: seq<int>, b: seq<int>, pos: nat, win: nat, ratio: nat,
                               translate: int -> int)
    requires win > 0 && ratio > 0 && pos < |a| && pos < |b| && a[..pos + 1] == b[..pos + 1]
    ensures DenseReading(qw, qc, a, pos, win, ratio, translate)
            == DenseReading(qw, qc, b, pos, win, ratio, translate)
  {
    assert forall p :: 0 <= p <= pos ==> a[p] == a[..pos + 1][p] == b[p];
    SameSlots(a, b, WindowRing.WindowStart(pos, win), pos, translate);
    var n := LiveBlocks(pos, ratio);
    forall c | 0 <= c < n ensures 0 <= c * ratio <= pos {
      LiveBlockBelow(pos, ratio, c);
    }
    assert CompressedRows.CompressRowsOf(a, 0, n, ratio) == CompressedRows.CompressRowsOf(b, 0, n, ratio);
  }

  lemma SnapshotDecodeIsDense(qw: Query, qc: Query, snap: seq<int>, pos: nat, win: nat, ratio: nat,
                              translate: int -> int, scores: seq<Score>, k: nat, picks: seq<nat>)
    requires win > 0 && pos < |snap| && Staged(scores, pos, ratio, |snap|) && IsTopK(scores, k, picks)
    requires LiveBlocks(pos, ratio) <= k
    ensures forall r :: 0 <= r < |picks| ==> 0 <= picks[r] * ratio < |snap|
    ensures DecodeReading(qw, qc, snap, pos, win, ratio, translate, picks)
            == DenseReading(qw, qc, snap, pos, win, ratio, translate)
  {
    WindowRing.RingAttendsWindow(qw, snap, pos, win, translate);
    CompressedHalf(qc, snap, pos, ratio, scores, k, picks);
    var live := LiveBlocks(pos, ratio);
    StagedBlocks(|scores|, ratio, |snap|);
    assert StagedRows(snap, |scores|, ratio)[..live] == CompressedRows.CompressRowsOf(snap, 0, live, ratio);
  }

  /** A layer without an indexer lists its staged blocks in order; read through that list, the
      decode is dense too. */
  lemma ListedDecodeIsDense(qw: Query, qc: Query, snap: seq<int>, pos: nat, win: nat, ratio: nat,
                            translate: int -> int, n: nat, picks: seq<nat>)
    requires win > 0 && ratio > 0 && pos < |snap| && LiveBlocks(pos, ratio) <= n && n * ratio <= |snap|
    requires picks == Iota(n)
    ensures forall r :: 0 <= r < |picks| ==> 0 <= picks[r] * ratio < |snap|
    ensures ListedBlocks(n, LiveBlocks(pos, ratio)) == Sentinel(picks, LiveBlocks(pos, ratio), 0)
    ensures DecodeReading(qw, qc, snap, pos, win, ratio, translate, picks)
            == DenseReading(qw, qc, snap, pos, win, ratio, translate)
  {
    var live := LiveBlocks(pos, ratio);
    ListedBlocksAreSelection(n, live);
    SnapshotDecodeIsDense(qw, qc, snap, pos, win, ratio, translate, MaskDead(seq(n, _ => 0.0), live), n, picks);
  }

  /** A replay sees its request's row as it was staged. */
  lemma ReplayedRow(s: Snapshot.State, before: seq<Snapshot.Event>, staged: Snapshot.State, batch: seq<nat>,
                    after: seq<Snapshot.Event>, replay: Snapshot.State, tableWidth: nat, width: nat, r: nat, pos: nat)
    requires Snapshot.Inv(s, tableWidth, width) && Snapshot.Reaches(s, before, staged)
    requires Snapshot.Enabled(staged, Snapshot.Stage(batch))
    requires Snapshot.Reaches(Snapshot.Step(staged, Snapshot.Stage(batch)), after, replay)
    requires Snapshot.OnlyAllocs(after)
    requires r < |batch| && r < |replay.buf| && pos < tableWidth && pos < |replay.buf[r]|
    ensures |staged.table[batch[r]]| == tableWidth
    ensures replay.buf[r][..pos + 1] == staged.table[batch[r]][..pos + 1]
  {
    Snapshot.RunKeepsInv(s, before, staged, tableWidth, width);
    Snapshot.ReplayReadsStagedRows(s, before, staged, batch, after, replay, tableWidth, width);
    assert replay.buf[r] == replay.buf[..|batch|][r];
  }

  /** The composed claim.  For every history of stagings, allocations and re-captures, a replayed
      decode whose live blocks fit the selection reads, for any tie-breaking, exactly the sliding
      window and the finished blocks of its request as the page table stood when the batch was
      staged. */
  lemma CapturedDecodeReadsOwnHistory(s: Snapshot.State, before: seq<Snapshot.Event>, staged: Snapshot.State,
                                      batch: seq<nat>, after: seq<Snapshot.Event>, replay: Snapshot.State,
                                      tableWidth: nat, width: nat, r: nat,
                                      qw: Query, qc: Query, pos: nat, win: nat, ratio: nat,
                                      translate: int -> int, scores: seq<Score>, k: nat, picks: seq<nat>)
    requires Snapshot.Inv(s, tableWidth, width) && Snapshot.Reaches(s, before, staged)
    requires Snapshot.Enabled(staged, Snapshot.Stage(batch))
    requires Snapshot.Reaches(Snapshot.Step(staged, Snapshot.Stage(batch)), after, replay)
    requires Snapshot.OnlyAllocs(after)
    requires r < |batch| && r < |replay.buf|
    requires win > 0 && pos < tableWidth && pos < |replay.buf[r]|
    requires Staged(scores, pos, ratio, |replay.buf[r]|) && IsTopK(scores, k, picks)
    requires LiveBlocks(pos, ratio) <= k
    ensures pos < |staged.table[batch[r]]|
    ensures forall i :: 0 <= i < |picks| ==> 0 <= picks[i] * ratio < |replay.buf[r]|
    ensures DecodeReading(qw, qc, replay.buf[r], pos, win, ratio, translate, picks)
            == DenseReading(qw, qc, staged.table[batch[r]], pos, win, ratio, translate)
  {
    var snap, row := replay.buf[r], staged.table[batch[r]];
    ReplayedRow(s, before, staged, batch, after, replay, tableWidth, width, r, pos);
    SnapshotDecodeIsDense(qw, qc, snap, pos, win, ratio, translate, scores, k, picks);
    SameHistorySameReading(qw, qc, snap, row, pos, win, ratio, translate);
  }

  // ----- prefill queries ------------------------------------------------------------------------------

  /** Block numbers a lookup through a `width`-wide row can resolve. */
  ghost predicate Resolvable(blocks: seq<int>, ratio: nat, width: nat) {
    ratio > 0 && forall i :: 0 <= i < |blocks| && blocks[i] >= 0 ==> 0 <= blocks[i] * ratio < width
  }

  /** What the query at `start + s` of a prefill segment `[start, start + n)` accumulates off the live
      row: its window, and the block list selected for it, both padded with sentinels to the widths of
      the batch. */
  ghost function PrefillReading(qw: Query, qc: Query, row: seq<int>, start: nat, n: nat, s: nat, win: nat, ratio: nat,
                                translate: int -> int, blocks: seq<int>, pads: (nat, nat)): Reading
    requires win > 0 && s < n && start + n <= |row| && Resolvable(blocks, ratio, |row|)
  {
    Reading(
      Fold(qw, WindowRing.PrefillSlots(row, start, n, s, win, pads.0, translate)),
      Fold(qc, CompressedRows.BlocksToGlobal(blocks, row, ratio) + seq(pads.1, _ => -1)))
  }

  /** A list of `c` live blocks and sentinels reads the rows of those blocks, however it is padded. */
  lemma ListReadsBlocks(q: Query, row: seq<int>, ratio: nat, blocks: seq<int>, c: nat, pad: nat)
    requires Resolvable(blocks, ratio, |row|) && row != [] && c <= |blocks|
    requires forall i :: c <= i < |blocks| ==> blocks[i] == -1
    ensures var rows := CompressedRows.BlocksToGlobal(blocks, row, ratio);
            Fold(q, rows + seq(pad, _ => -1)) == Fold(q, rows[..c])
  {
    var rows := CompressedRows.BlocksToGlobal(blocks, row, ratio);
    CountIsExact(q, rows + seq(pad, _ => -1), c);
    assert (rows + seq(pad, _ => -1))[..c] == rows[..c];
  }

  /** The blocks of a prefill selection can be resolved. */
  lemma SelectionResolvable(scores: seq<real>, pos: nat, ratio: nat, k: nat, width: nat)
    requires ratio > 0 && |scores| * ratio <= width
    ensures Resolvable(SelectPrefillRow(scores, pos, ratio, k, 0), ratio, width)
  {
    PrefillSelectionIsCausal(scores, pos, ratio, k, 0);
    var sel := SelectPrefillRow(scores, pos, ratio, k, 0);
    forall i | 0 <= i < |sel| && sel[i] >= 0 ensures 0 <= sel[i] * ratio < width {
      StagedBlock(|scores|, ratio, width, sel[i]);
    }
  }

  /** Histories that agree up to a query have the same rows of its live blocks. */
  lemma SameBlockRows(a: seq<int>, b: seq<int>, pos: nat, ratio: nat, x: seq<int>, y: seq<int>, c: nat)
    requires ratio > 0 && pos < |a| && pos < |b| && a[..pos + 1] == b[..pos + 1]
    requires Resolvable(x, ratio, |a|) && Resolvable(y, ratio, |b|) && c <= |x| && c <= |y| && x[..c] == y[..c]
    requires forall i :: 0 <= i < c ==> 0 <= x[i] < LiveBlocks(pos, ratio)
    ensures CompressedRows.BlocksToGlobal(x, a, ratio)[..c] == CompressedRows.BlocksToGlobal(y, b, ratio)[..c]
  {
    forall i | 0 <= i < c ensures CompressedRows.BlocksToGlobal(x, a, ratio)[i]
      == CompressedRows.BlocksToGlobal(y, b, ratio)[i] {
      LiveBlockBelow(pos, ratio, x[i]);
      assert x[i] == x[..c][i] == y[i];
      assert a[x[i] * ratio] == a[..pos + 1][x[i] * ratio] == b[x[i] * ratio];
    }
  }

  lemma SameSlots(a: seq<int>, b: seq<int>, lo: nat, pos: nat, translate: int -> int)
    requires lo <= pos + 1 && pos < |a| && pos < |b| && a[..pos + 1] == b[..pos + 1]
    ensures WindowRing.SlotsOf(a, lo, pos + 1, translate) == WindowRing.SlotsOf(b, lo, pos + 1, translate)
  {
    forall p | lo <= p <= pos ensures a[p] == b[p] {
      assert a[p] == a[..pos + 1][p];
    }
  }

  /** The window halves of a decode off `snap` and of a prefill query off `row`. */
  lemma SameWindow(q: Query, snap: seq<int>, row: seq<int>, start: nat, n: nat, s: nat, win: nat, pad: nat,
                   translate: int -> int)
    requires win > 0 && s < n && start + n <= |row| && start + s < |snap|
             && snap[..start + s + 1] == row[..start + s + 1]
    ensures Fold(q, WindowRing.RingSlots(snap, start + s, win, translate))
            == Fold(q, WindowRing.PrefillSlots(row, start, n, s, win, pad, translate))
  {
    var pos := start + s;
    var lo := WindowRing.WindowStart(pos, win);
    WindowRing.RingAttendsWindow(q, snap, pos, win, translate);
    WindowRing.PrefillAttendsRing(q, row, start, n, s, win, pad, translate);
    SameSlots(snap, row, lo, pos, translate);
  }

  /** The compressed halves: the same live blocks in the same order at every length, past `k` as well. */
  lemma SameCompressed(q: Query, snap: seq<int>, row: seq<int>, pos: nat, ratio: nat, scores: seq<real>,
                       staged: seq<Score>, k: nat, pad: nat)
    requires Staged(staged, pos, ratio, |snap|) && pos < |snap| && pos < |row| && snap[..pos + 1] == row[..pos + 1]
    requires LiveBlocks(pos, ratio) <= |scores| && |scores| * ratio <= |row|
    requires forall b :: 0 <= b < LiveBlocks(pos, ratio) ==> staged[b] == Fin(scores[b])
    ensures var picks := TopK(staged, Min(k, |staged|));
            var blocks := SelectPrefillRow(scores, pos, ratio, k, 0);
            && (forall r :: 0 <= r < |picks| ==> 0 <= picks[r] * ratio < |snap|)
            && Resolvable(blocks, ratio, |row|)
            && Attend(q, SelectedRows(snap, picks, LiveBlocks(pos, ratio), ratio), Min(LiveBlocks(pos, ratio), |picks|))
               == Fold(q, CompressedRows.BlocksToGlobal(blocks, row, ratio) + seq(pad, _ => -1))
  {
    var live, picks := LiveBlocks(pos, ratio), TopK(staged, Min(k, |staged|));
    var blocks, decoded := SelectPrefillRow(scores, pos, ratio, k, 0), Sentinel(picks, live, 0);
    PicksInSnapshot(staged, |picks|, picks, ratio, |snap|);
    SelectionResolvable(scores, pos, ratio, k, |row|);
    PrefillSelectionIsCausal(scores, pos, ratio, k, 0);
    BlockPicksAgree(scores, staged, pos, ratio, k);
    var c := Min(live, k);
    ListReadsBlocks(q, row, ratio, blocks, c, pad);
    LivePicksArePrefix(staged, live, |picks|, picks);
    SameBlockRows(snap, row, pos, ratio, decoded, blocks, c);
  }

  lemma DecodeReadsAsPrefill(qw: Query, qc: Query, snap: seq<int>, row: seq<int>, start: nat, n: nat, t: nat, win: nat,
                             ratio: nat, translate: int -> int, scores: seq<real>, staged: seq<Score>, k: nat,
                             pads: (nat, nat))
    requires win > 0 && t < n && start + n <= |row| && start + t < |snap|
    requires snap[..start + t + 1] == row[..start + t + 1] && Staged(staged, start + t, ratio, |snap|)
    requires LiveBlocks(start + t, ratio) <= |scores| && |scores| * ratio <= |row|
    requires forall b :: 0 <= b < LiveBlocks(start + t, ratio) ==> staged[b] == Fin(scores[b])
    ensures var picks := TopK(staged, Min(k, |staged|));
            var blocks := SelectPrefillRow(scores, start + t, ratio, k, 0);
            && (forall i :: 0 <= i < |picks| ==> 0 <= picks[i] * ratio < |snap|)
            && Resolvable(blocks, ratio, |row|)
            && DecodeReading(qw, qc, snap, start + t, win, ratio, translate, picks)
               == PrefillReading(qw, qc, row, start, n, t, win, ratio, translate, blocks, pads)
  {
    SameWindow(qw, snap, row, start, n, t, win, pads.0, translate);
    SameCompressed(qc, snap, row, start + t, ratio, scores, staged, k, pads.1);
  }

  /** Prefill and decode read alike.  For every history of stagings, allocations and re-captures, and at
      every length, a replayed decode accumulates, window and compressed half, what a prefill query at
      the same position would off the page table as it stood when the batch was staged, whichever
      segment the position is prefilled in and however the batch is padded. */
  lemma CapturedDecodeReadsAsPrefill(s: Snapshot.State, before: seq<Snapshot.Event>, staged: Snapshot.State,
                                     batch: seq<nat>, after: seq<Snapshot.Event>, replay: Snapshot.State,
                                     tableWidth: nat, width: nat, r: nat,
                                     qw: Query, qc: Query, start: nat, n: nat, t: nat, win: nat, ratio: nat,
                                     translate: int -> int, scores: seq<real>, stagedScores: seq<Score>, k: nat,
                                     pads: (nat, nat))
    requires Snapshot.Inv(s, tableWidth, width) && Snapshot.Reaches(s, before, staged)
    requires Snapshot.Enabled(staged, Snapshot.Stage(batch))
    requires Snapshot.Reaches(Snapshot.Step(staged, Snapshot.Stage(batch)), after, replay)
    requires Snapshot.OnlyAllocs(after)
    requires r < |batch| && r < |replay.buf|
    requires win > 0 && t < n && start + n <= tableWidth && start + t < |replay.buf[r]|
    requires Staged(stagedScores, start + t, ratio, |replay.buf[r]|)
    requires LiveBlocks(start + t, ratio) <= |scores| && |scores| * ratio <= tableWidth
    requires forall b :: 0 <= b < LiveBlocks(start + t, ratio) ==> stagedScores[b] == Fin(scores[b])
    ensures |staged.table[batch[r]]| == tableWidth
    ensures var picks := TopK(stagedScores, Min(k, |stagedScores|));
            var blocks := SelectPrefillRow(scores, start + t, ratio, k, 0);
            && (forall i :: 0 <= i < |picks| ==> 0 <= picks[i] * ratio < |replay.buf[r]|)
            && Resolvable(blocks, ratio, tableWidth)
            && DecodeReading(qw, qc, replay.buf[r], start + t, win, ratio, translate, picks)
               == PrefillReading(qw, qc, staged.table[batch[r]], start, n, t, win, ratio, translate, blocks, pads)
  {
    ReplayedRow(s, before, staged, batch, after, replay, tableWidth, width, r, start + t);
    DecodeReadsAsPrefill(qw, qc, replay.buf[r], staged.table[batch[r]], start, n, t, win, ratio, translate, scores,
                         stagedScores, k, pads);
  }

  /** Without an indexer a prefill query lists every finished block in order: its reading is the dense
      one, as the decode's is. */
  lemma ListedPrefillIsDense(qw: Query, qc: Query, row: seq<int>, start: nat, n: nat, s: nat, win: nat, ratio: nat,
                             translate: int -> int, blocks: nat, pads: (nat, nat))
    requires win > 0 && ratio > 0 && s < n && start + n <= |row|
    requires LiveBlocks(start + s, ratio) <= blocks && blocks * ratio <= |row|
    ensures Resolvable(ListedBlocks(blocks, LiveBlocks(start + s, ratio)), ratio, |row|)
    ensures PrefillReading(qw, qc, row, start, n, s, win, ratio, translate,
                           ListedBlocks(blocks, LiveBlocks(start + s, ratio)), pads)
            == DenseReading(qw, qc, row, start + s, win, ratio, translate)
  {
    var live := LiveBlocks(start + s, ratio);
    var list := ListedBlocks(blocks, live);
    StagedBlocks(blocks, ratio, |row|);
    WindowRing.PrefillAttendsRing(qw, row, start, n, s, win, pads.0, translate);
    ListReadsBlocks(qc, row, ratio, list, live, pads.1);
    assert CompressedRows.BlocksToGlobal(list, row, ratio)[..live]
           == CompressedRows.CompressRowsOf(row, 0, live, ratio);
  }
}
