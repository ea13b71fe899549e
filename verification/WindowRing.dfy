/** The decode window context: a ring of `win` columns that stands for the sliding window. */
module WindowRing {
  import opened Sequences
  import opened Attention
  import opened Arithmetic

  /** The position ring column `j` holds: the latest one at or before `pos` that is congruent to
      `j`.  Negative early in a sequence. */
  function RingPosition(pos: nat, j: nat, win: nat): int
    requires win > 0
  {
    pos - (pos - j) % win
  }

  /** Column `j` holds a position congruent to `j` among the last `win`, and the two masks of the
      code -- position not negative, column not past `pos` -- are the same mask. */
  lemma RingPositionProperties(pos: nat, j: nat, win: nat)
    requires j < win
    ensures var p := RingPosition(pos, j, win);
            && p % win == j
            && pos - win < p <= pos
            && (p >= 0 <==> j <= pos)
  {
    var k := (pos - j) / win;
    var p := RingPosition(pos, j, win);
    assert p == k * win + j;
    DivModUnique(p, k, j, win);
    MulAtLeast(k, win);
    if j <= pos {
      DivMonotone(0, pos - j, win);
    } else {
      assert k != 0;
      DivMonotone(pos - j, 0, win);
    }
  }

  /** Every position of the window is held, by the column it is congruent to and no other. */
  lemma RingCoversWindow(pos: nat, q: int, j: nat, win: nat)
    requires j < win && pos - win < q <= pos
    ensures RingPosition(pos, j, win) == q <==> j == q % win
  {
    RingPositionProperties(pos, j, win);
    if j == q % win {
      CongruentClose(RingPosition(pos, j, win), q, win);
    }
  }

  /** `window_slots_topk` of one decode row. */
  function RingSlots(snap: seq<int>, pos: nat, win: nat, translate: int -> int): (slots: seq<int>)
    requires win > 0 && pos < |snap|
    ensures |slots| == win
  {
    seq(win, j requires 0 <= j < win =>
      var p := RingPosition(pos, j, win);
      var ws := translate(snap[if p < 0 then 0 else p]);
      var ring := if p >= 0 then ws else -1;
      if j <= pos then ring else -1)
  }

  /** The slots of the positions `[lo, hi)`, in order. */
  function SlotsOf(snap: seq<int>, lo: nat, hi: nat, translate: int -> int): (slots: seq<int>)
    requires lo <= hi <= |snap|
    ensures |slots| == hi - lo && forall i :: 0 <= i < hi - lo ==> slots[i] == translate(snap[lo + i])
  {
    seq(hi - lo, i requires 0 <= i < hi - lo => translate(snap[lo + i]))
  }

  function WindowStart(pos: nat, win: nat): nat {
    if pos + 1 < win then 0 else pos + 1 - win
  }

  /** The column positions, in order: up to the column of `pos` they count up from the last
      multiple of `win`, after it from the multiple before that. */
  lemma RingPositionAt(pos: nat, j: nat, win: nat)
    requires j < win
    ensures var turn := pos - pos % win;
            RingPosition(pos, j, win) == if j <= pos % win then turn + j else turn - win + j
  {
    var k := pos / win;
    assert pos == k * win + pos % win;
    if j <= pos % win {
      DivModUnique(k * win + j, k, j, win);
      RingCoversWindow(pos, k * win + j, j, win);
    } else {
      MulDistributes(k, 1, win);
      DivModUnique((k - 1) * win + j, k - 1, j, win);
      RingCoversWindow(pos, (k - 1) * win + j, j, win);
    }
  }

  /** Before the window is full the ring is the history so far followed by masked columns. */
  lemma EarlyRing(snap: seq<int>, pos: nat, win: nat, translate: int -> int)
    requires pos + 1 < win && pos < |snap|
    ensures var ring := RingSlots(snap, pos, win, translate);
            && ring[..pos + 1] == SlotsOf(snap, 0, pos + 1, translate)
            && forall j :: pos < j < win ==> ring[j] == -1
  {
    DivModUnique(pos, 0, pos, win);
    forall j: nat | j <= pos ensures RingPosition(pos, j, win) == j {
      RingPositionAt(pos, j, win);
    }
  }

  /** The latest multiple of the window's width, and what lies before and after it. */
  lemma TurnInWindow(pos: nat, win: nat)
    requires 0 < win <= pos + 1
    ensures 0 <= pos - pos % win <= pos && pos + 1 - win <= pos - pos % win
  {
    var k := pos / win;
    assert pos == k * win + pos % win;
    DivMonotone(0, pos, win);
    MulAtLeast(k, win);
  }

  lemma FullRingAt(snap: seq<int>, pos: nat, j: nat, win: nat, turn: nat, translate: int -> int)
    requires j < win <= pos + 1 && pos < |snap| && turn == pos - pos % win && pos + 1 - win <= turn <= pos
    ensures RingSlots(snap, pos, win, translate)[j]
            == (SlotsOf(snap, turn, pos + 1, translate) + SlotsOf(snap, pos + 1 - win, turn, translate))[j]
  {
    RingPositionAt(pos, j, win);
    RingPositionProperties(pos, j, win);
  }

  /** From then on it is the sliding window, rotated. */
  lemma FullRing(snap: seq<int>, pos: nat, win: nat, translate: int -> int)
    requires 0 < win <= pos + 1 && pos < |snap|
    ensures var turn := pos - pos % win;
            && pos + 1 - win <= turn <= pos
            && 0 <= turn
            && RingSlots(snap, pos, win, translate)
               == SlotsOf(snap, turn, pos + 1, translate) + SlotsOf(snap, pos + 1 - win, turn, translate)
  {
    TurnInWindow(pos, win);
    var turn := pos - pos % win;
    forall j: nat | j < win
      ensures RingSlots(snap, pos, win, translate)[j]
              == (SlotsOf(snap, turn, pos + 1, translate) + SlotsOf(snap, pos + 1 - win, turn, translate))[j]
    {
      FullRingAt(snap, pos, j, win, turn, translate);
    }
  }

  /** Attending over the ring is attending over the sliding window. */
  lemma RingAttendsWindow(q: Query, snap: seq<int>, pos: nat, win: nat, translate: int -> int)
    requires win > 0 && pos < |snap|
    ensures Fold(q, RingSlots(snap, pos, win, translate))
            == Fold(q, SlotsOf(snap, WindowStart(pos, win), pos + 1, translate))
  {
    var lo := WindowStart(pos, win);
    if pos + 1 < win {
      EarlyRing(snap, pos, win, translate);
      CountIsExact(q, RingSlots(snap, pos, win, translate), pos + 1);
    } else {
      FullRing(snap, pos, win, translate);
      var turn := pos - pos % win;
      var a, b := SlotsOf(snap, turn, pos + 1, translate), SlotsOf(snap, lo, turn, translate);
      assert SlotsOf(snap, lo, pos + 1, translate) == b + a;
      FoldPermutation(q, a + b, b + a);
    }
  }

  // ----- the window of a prefill query --------------------------------------------------------------

  /** The first position a segment's candidates can reach back to. */
  function SegmentLow(start: nat, win: nat): nat
    requires win > 0
  {
    if start + 1 < win then 0 else start - win + 1
  }

  /** Window columns of the query at `start + s` of a segment `[start, start + n)`: a cold prompt counts
      from its own first token, an extend over the retained prefix and the new tokens. */
  function PrefillColumns(start: nat, n: nat, s: nat, win: nat): (cols: seq<int>)
    requires win > 0
    ensures |cols| == if start == 0 then Min(n, win) else win
  {
    if start == 0 then
      seq(Min(n, win), t =>
        var col := (if s + 1 < win then 0 else s - win + 1) + t;
        if col > s then -1 else col)
    else
      seq(win, t =>
        var lo := SegmentLow(start, win);
        var p := start + s;
        var cand := (if p - win + 1 < lo then lo else p - win + 1) + t;
        if cand > p then -1 else cand - lo)
  }

  lemma ColumnsInSegment(start: nat, n: nat, s: nat, win: nat)
    requires win > 0 && s < n
    ensures forall t :: 0 <= t < |PrefillColumns(start, n, s, win)| ==>
              PrefillColumns(start, n, s, win)[t] < start + n - SegmentLow(start, win)
  {
  }

  /** Their slots: the clamped gather off the segment's slots, the sentinel passed through; `pad`
      sentinels widen the list to the batch's width. */
  function PrefillSlots(row: seq<int>, start: nat, n: nat, s: nat, win: nat, pad: nat,
                        translate: int -> int): (slots: seq<int>)
    requires win > 0 && s < n && start + n <= |row|
    ensures |slots| == |PrefillColumns(start, n, s, win)| + pad
  {
    var lut := SlotsOf(row, SegmentLow(start, win), start + n, translate);
    var cols := PrefillColumns(start, n, s, win);
    ColumnsInSegment(start, n, s, win);
    seq(|cols|, t requires 0 <= t < |cols| =>
      var g := lut[if cols[t] < 0 then 0 else cols[t]];
      if cols[t] < 0 then -1 else g)
    + seq(pad, _ => -1)
  }

  /** The columns count from the start of the query's window, and end with it. */
  lemma ColumnsOfWindow(start: nat, n: nat, s: nat, win: nat)
    requires win > 0 && s < n
    ensures var cols := PrefillColumns(start, n, s, win);
            var lo := WindowStart(start + s, win);
            var w := start + s + 1 - lo;
            && w <= |cols| && SegmentLow(start, win) <= lo
            && (forall t :: 0 <= t < w ==> cols[t] == lo - SegmentLow(start, win) + t)
            && (forall t :: w <= t < |cols| ==> cols[t] == -1)
  {
  }

  /** A prefill query is shown its sliding window in order, then sentinels only. */
  lemma PrefillShowsWindow(row: seq<int>, start: nat, n: nat, s: nat, win: nat, pad: nat, translate: int -> int)
    requires win > 0 && s < n && start + n <= |row|
    ensures var p := start + s;
            var slots := PrefillSlots(row, start, n, s, win, pad, translate);
            var w := p + 1 - WindowStart(p, win);
            && w <= |slots|
            && slots[..w] == SlotsOf(row, WindowStart(p, win), p + 1, translate)
            && forall t :: w <= t < |slots| ==> slots[t] == -1
  {
    ColumnsOfWindow(start, n, s, win);
    var p, lo := start + s, WindowStart(start + s, win);
    var slots := PrefillSlots(row, start, n, s, win, pad, translate);
    forall t | 0 <= t < p + 1 - lo ensures slots[t] == translate(row[lo + t]) {
      assert PrefillColumns(start, n, s, win)[t] == lo - SegmentLow(start, win) + t;
    }
  }

  /** Prefill and decode read the same window: for every segment a position can be prefilled in, its
      query attends what the decode ring at that position would. */
  lemma PrefillAttendsRing(q: Query, row: seq<int>, start: nat, n: nat, s: nat, win: nat, pad: nat,
                           translate: int -> int)
    requires win > 0 && s < n && start + n <= |row|
    ensures Fold(q, PrefillSlots(row, start, n, s, win, pad, translate))
            == Fold(q, SlotsOf(row, WindowStart(start + s, win), start + s + 1, translate))
            == Fold(q, RingSlots(row, start + s, win, translate))
  {
    PrefillShowsWindow(row, start, n, s, win, pad, translate);
    CountIsExact(q, PrefillSlots(row, start, n, s, win, pad, translate), start + s + 1 - WindowStart(start + s, win));
    RingAttendsWindow(q, row, start + s, win, translate);
  }
}
