/** Block selection and the map from selected positions to physical rows, shared by the DSV4
    indexer (compressed blocks) and the GLM-DSA indexer (one-token blocks). */
module Selection {
  import opened Sequences
  import opened Ranking
  import opened Attention
  import opened Arithmetic

  /** Blocks a query at absolute position `pos` may attend. */
  function LiveBlocks(pos: nat, ratio: nat): nat
    requires ratio > 0
  {
    (pos + 1) / ratio
  }

  /** Blocks at or past the live count are masked before ranking. */
  function MaskDead(scores: seq<real>, live: nat): (s: seq<Score>)
    ensures |s| == |scores| && LiveRow(s, Min(live, |scores|))
  {
    seq(|scores|, b requires 0 <= b < |scores| => if b >= live then NegInf else Fin(scores[b]))
  }

  function Sentinel(picks: seq<nat>, live: nat, offset: int): (r: seq<int>) {
    seq(|picks|, i requires 0 <= i < |picks| => if picks[i] >= live then -1 else picks[i] + offset)
  }

  /** One query row of the prefill selection. */
  function SelectPrefillRow(scores: seq<real>, pos: nat, ratio: nat, topk: nat, offset: int): seq<int>
    requires ratio > 0
  {
    var live := LiveBlocks(pos, ratio);
    Sentinel(TopK(MaskDead(scores, live), Min(topk, |scores|)), live, offset)
  }

  /** All query rows: row `s` sits at absolute position `startPos + s`. */
  function SelectPrefill(scores: seq<seq<real>>, startPos: nat, ratio: nat, topk: nat, offset: int): seq<seq<int>>
    requires ratio > 0
  {
    seq(|scores|, s requires 0 <= s < |scores| =>
      SelectPrefillRow(scores[s], startPos + s, ratio, topk, offset))
  }

  /** The decode selection: the scoring kernel has already masked columns past `valid`. */
  function SelectDecodeRow(scores: seq<Score>, valid: nat, topk: nat, offset: int): seq<int> {
    Sentinel(TopK(scores, Min(topk, |scores|)), valid, offset)
  }

  /** Positions to physical rows; the sentinel passes through the clamped gather. */
  function MapRows(picks: seq<int>, rows: seq<int>): seq<int>
    requires forall r :: 0 <= r < |picks| ==> picks[r] < |rows|
    requires picks != [] ==> rows != []
  {
    seq(|picks|, r requires 0 <= r < |picks| =>
      var g := rows[if picks[r] < 0 then 0 else picks[r]];
      if picks[r] < 0 then -1 else g)
  }

  // ----- what a selection exposes ---------------------------------------------------------

  /** `sel` is a causal selection over `live` live rows: its first `min(live, k)` entries are the
      rows at `min(live, k)` different live positions, no live position left out scores better
      than one taken, and every later entry is the sentinel. */
  ghost predicate Selects(scores: seq<Score>, live: nat, rows: seq<int>, picks: seq<nat>, sel: seq<int>)
    requires LiveRow(scores, live) && |scores| <= |rows|
  {
    var c := Min(live, |sel|);
    && |picks| == |sel|
    && Distinct(picks)
    && (forall r :: 0 <= r < c ==> picks[r] < live && sel[r] == rows[picks[r]])
    && (forall r :: c <= r < |sel| ==> sel[r] == -1)
    && (forall j, r :: 0 <= j < live && 0 <= r < c && j !in picks[..c] ==>
          scores[picks[r]].value >= scores[j].value)
    && (forall q, r :: 0 <= q < r < c ==> scores[picks[q]].value >= scores[picks[r]].value)
  }

  /** Holds for every top-k routine, however it breaks ties. */
  lemma SelectionMeaning(scores: seq<Score>, live: nat, k: nat, picks: seq<nat>, rows: seq<int>)
    requires LiveRow(scores, live) && IsTopK(scores, k, picks) && |scores| <= |rows|
    ensures var s := Sentinel(picks, live, 0);
            Selects(scores, live, rows, picks, MapRows(s, rows))
  {
    LivePicksArePrefix(scores, live, k, picks);
    var c := Min(live, k);
    forall j, r | 0 <= j < live && 0 <= r < c && j !in picks[..c]
      ensures Geq(scores[picks[r]], scores[j])
    {
      forall i | 0 <= i < k ensures picks[i] != j {
        assert i < c ==> picks[i] == picks[..c][i];
      }
    }
  }

  function RowsAt(picks: seq<nat>, rows: seq<int>): seq<int>
    requires forall r :: 0 <= r < |picks| ==> picks[r] < |rows|
  {
    seq(|picks|, r requires 0 <= r < |picks| => rows[picks[r]])
  }

  lemma RowsAtPermutation(a: seq<nat>, b: seq<nat>, rows: seq<int>)
    requires multiset(a) == multiset(b)
    requires forall r :: 0 <= r < |a| ==> a[r] < |rows|
    requires forall r :: 0 <= r < |b| ==> b[r] < |rows|
    ensures multiset(RowsAt(a, rows)) == multiset(RowsAt(b, rows))
  {
    var f: nat -> int := (i: nat) => if i < |rows| then rows[i] else -1;
    ApplyPermutation(f, a, b);
    assert RowsAt(a, rows) == Apply(f, a) && RowsAt(b, rows) == Apply(f, b);
  }

  lemma DistinctBelow(picks: seq<nat>, n: nat)
    requires Distinct(picks) && |picks| == n
    requires forall r :: 0 <= r < n ==> picks[r] < n
    ensures multiset(picks) == multiset(Iota(n))
  {
    Pigeonhole(picks, n);
    Pigeonhole(Iota(n), n);
    DistinctElems(picks);
    DistinctElems(Iota(n));
  }

  /** Picking every one of the first `n` positions, in any order, picks the first `n` rows. */
  lemma FullPick(picks: seq<nat>, n: nat, rows: seq<int>)
    requires Distinct(picks) && |picks| == n <= |rows|
    requires forall r :: 0 <= r < n ==> picks[r] < n
    ensures multiset(RowsAt(picks, rows)) == multiset(rows[..n])
  {
    DistinctBelow(picks, n);
    RowsAtPermutation(picks, Iota(n), rows);
    assert RowsAt(Iota(n), rows) == rows[..n];
  }

  /** The columns a selection exposes, for any top-k routine. */
  lemma ExposedColumns(scores: seq<Score>, live: nat, k: nat, picks: seq<nat>, rows: seq<int>)
    requires LiveRow(scores, live) && IsTopK(scores, k, picks) && |scores| <= |rows|
    ensures var c := Min(live, k);
            var sel := MapRows(Sentinel(picks, live, 0), rows);
            && |sel| == k
            && (forall r :: 0 <= r < c ==> picks[r] < live)
            && sel[..c] == RowsAt(picks[..c], rows)
            && (forall r :: c <= r < k ==> sel[r] == -1)
  {
    LivePicksArePrefix(scores, live, k, picks);
  }

  /** Sparse attention is dense attention while the live length fits the selection width: the rows
      exposed by the count are the request's live rows in another order, so the accumulated
      attention is the same, for all scores, every tie-breaking and any padded table width. */
  lemma SparseIsDense(q: Query, scores: seq<Score>, live: nat, k: nat, picks: seq<nat>, rows: seq<int>)
    requires LiveRow(scores, live) && IsTopK(scores, k, picks) && |scores| <= |rows|
    requires live <= k
    ensures var sel := MapRows(Sentinel(picks, live, 0), rows);
            && |sel| == k
            && multiset(sel[..live]) == multiset(rows[..live])
            && Attend(q, sel, live) == Attend(q, rows, live)
  {
    ExposedColumns(scores, live, k, picks, rows);
    FullPick(picks[..live], live, rows);
    var sel := MapRows(Sentinel(picks, live, 0), rows);
    FoldPermutation(q, sel[..live], rows[..live]);
  }

  /** At every live length the count cuts exactly the sentinels: bounding the kernel's loop loses
      no selected row. */
  lemma SelectionCountIsExact(q: Query, scores: seq<Score>, live: nat, k: nat, picks: seq<nat>, rows: seq<int>)
    requires LiveRow(scores, live) && IsTopK(scores, k, picks) && |scores| <= |rows|
    ensures var sel := MapRows(Sentinel(picks, live, 0), rows);
            |sel| == k && Attend(q, sel, Min(live, k)) == Fold(q, sel)
  {
    ExposedColumns(scores, live, k, picks, rows);
    CountIsExact(q, MapRows(Sentinel(picks, live, 0), rows), Min(live, k));
  }

  function KeyScores(logit: int -> real, rows: seq<int>): (s: seq<real>) {
    seq(|rows|, t requires 0 <= t < |rows| => logit(rows[t]))
  }

  /** Prefill and decode agree.  A query at position `kvlen - 1`, ranked by decode over a padded
      row snapshot of any width and by prefill over exactly its `kvlen` keys, is shown the same rows
      in the same order, and the two device-side counts coincide. */
  lemma PrefillDecodeAgree(logit: int -> real, snapshot: seq<int>, kvlen: nat, topk: nat,
                           decodeScores: seq<Score>)
    requires 0 < kvlen <= |snapshot| == |decodeScores|
    requires LiveRow(decodeScores, kvlen)
    requires forall t :: 0 <= t < kvlen ==> decodeScores[t] == Fin(logit(snapshot[t]))
    ensures var rows := snapshot[..kvlen];
            var kp, kd := Min(topk, kvlen), Min(topk, |snapshot|);
            var prefill := MapRows(SelectPrefillRow(KeyScores(logit, rows), kvlen - 1, 1, kp, 0), rows);
            var decode := MapRows(SelectDecodeRow(decodeScores, kvlen, kd, 0), snapshot);
            var count := Min(kvlen, kd);
            && count == Min((kvlen - 1) + 1, kp)
            && |prefill| == kp && |decode| == kd
            && decode[..count] == prefill[..count]
  {
    var rows := snapshot[..kvlen];
    var kp, kd := Min(topk, kvlen), Min(topk, |snapshot|);
    var s := MaskDead(KeyScores(logit, rows), kvlen);
    assert decodeScores[..kvlen] == s;
    TopKIgnoresPadding(s, decodeScores, kd);
    var c := Min(kvlen, kd);
    var pd, pp := TopK(decodeScores, kd), TopK(s, kp);
    assert pd[..c] == TopK(s, kd) == pp;
    ExposedColumns(s, kvlen, kp, pp, rows);
    ExposedColumns(decodeScores, kvlen, kd, pd, snapshot);
    assert RowsAt(pd[..c], snapshot) == RowsAt(pp[..c], rows);
  }

  // ----- any ratio, any offset ----------------------------------------------------------------

  /** A block is live for a query exactly when its last position is at or before the query. */
  lemma LiveBlockIsPast(pos: nat, ratio: nat, b: nat)
    requires ratio > 0
    ensures b < LiveBlocks(pos, ratio) <==> (b + 1) * ratio - 1 <= pos
  {
    var n := LiveBlocks(pos, ratio);
    assert pos + 1 == n * ratio + (pos + 1) % ratio;
    MulDistributes(n, b + 1, ratio);
    MulAtLeast(n - (b + 1), ratio);
  }

  /** The prefill selection is causal and complete at every ratio and offset: its leading entries
      are different blocks that end at or before the query, as many as are live and fit; everything
      after them is the sentinel. */
  lemma PrefillSelectionIsCausal(scores: seq<real>, pos: nat, ratio: nat, topk: nat, offset: nat)
    requires ratio > 0
    ensures var sel := SelectPrefillRow(scores, pos, ratio, topk, offset);
            var c := Min(LiveBlocks(pos, ratio), Min(topk, |scores|));
            && |sel| == Min(topk, |scores|)
            && Distinct(sel[..c])
            && (forall r :: 0 <= r < c ==>
                  offset <= sel[r] < offset + |scores| && (sel[r] - offset + 1) * ratio - 1 <= pos)
            && (forall r :: c <= r < |sel| ==> sel[r] == -1)
  {
    var live := LiveBlocks(pos, ratio);
    var picks := TopK(MaskDead(scores, live), Min(topk, |scores|));
    LivePicksArePrefix(MaskDead(scores, live), Min(live, |scores|), |picks|, picks);
    SentinelEntries(picks, live, Min(live, |picks|), offset);
    forall r | 0 <= r < Min(live, |picks|) ensures (picks[r] + 1) * ratio - 1 <= pos {
      LiveBlockIsPast(pos, ratio, picks[r]);
    }
  }

  lemma SentinelEntries(picks: seq<nat>, live: nat, c: nat, offset: nat)
    requires c <= |picks| && Distinct(picks)
    requires forall r :: 0 <= r < |picks| ==> (picks[r] < live <==> r < c)
    ensures var sel := Sentinel(picks, live, offset);
            && (forall r :: 0 <= r < c ==> sel[r] == picks[r] + offset)
            && (forall r :: c <= r < |sel| ==> sel[r] == -1)
            && Distinct(sel[..c])
  {
  }

  /** At every ratio, prefill and decode pick the same blocks in the same order for the same query,
      however many further blocks either of them has staged. */
  lemma BlockPicksAgree(scores: seq<real>, staged: seq<Score>, pos: nat, ratio: nat, topk: nat)
    requires ratio > 0 && LiveBlocks(pos, ratio) <= |scores|
    requires LiveRow(staged, LiveBlocks(pos, ratio))
    requires forall b :: 0 <= b < LiveBlocks(pos, ratio) ==> staged[b] == Fin(scores[b])
    ensures var live := LiveBlocks(pos, ratio);
            var prefill := SelectPrefillRow(scores, pos, ratio, topk, 0);
            var decode := SelectDecodeRow(staged, live, topk, 0);
            var c := Min(live, topk);
            && c <= |prefill| && c <= |decode|
            && prefill[..c] == decode[..c]
  {
    var live := LiveBlocks(pos, ratio);
    var full := MaskDead(scores, live);
    var s := full[..live];
    assert staged[..live] == s;
    var kp, kd := Min(topk, |scores|), Min(topk, |staged|);
    TopKIgnoresPadding(s, full, kp);
    TopKIgnoresPadding(s, staged, kd);
    var c := Min(live, topk);
    var pp, pd := TopK(full, kp), TopK(staged, kd);
    assert TopK(s, kp) == TopK(s, kd);
    assert forall r :: 0 <= r < c ==> pp[r] == pp[..c][r] && pd[r] == pd[..c][r];
  }

  /** Layers without an indexer list every staged block in order. */
  function ListedBlocks(n: nat, live: nat): (blocks: seq<int>)
    ensures |blocks| == n
  {
    seq(n, b requires 0 <= b < n => if b < live then b else -1)
  }

  /** That list is a top-k of equal scores, so whatever holds of a selection holds of it. */
  lemma ListedBlocksAreSelection(n: nat, live: nat)
    requires live <= n
    ensures var scores := MaskDead(seq(n, _ => 0.0), live);
            && LiveRow(scores, live)
            && IsTopK(scores, n, Iota(n))
            && ListedBlocks(n, live) == Sentinel(Iota(n), live, 0)
  {
    forall j | 0 <= j < n ensures j in Iota(n) {
      assert Iota(n)[j] == j;
    }
  }
}
