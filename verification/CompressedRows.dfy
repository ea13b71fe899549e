/** The compressed tier: which pool row holds a block, where a decode step stores, and what stays
    readable across steps. */
module CompressedRows {
  import opened Sequences
  import opened Arithmetic
  import opened Paging

  /** Page size and compression ratio; a page is a whole number of blocks. */
  datatype Geometry = Geometry(page: nat, ratio: nat) {
    ghost predicate Valid() {
      page > 0 && ratio > 0 && page % ratio == 0
    }
  }

  function CmpRow(loc: int, ratio: nat): int
    requires ratio > 0
  {
    loc / ratio
  }

  /** Row `r` stands for the full locations `[r * ratio, (r + 1) * ratio)`. */
  lemma RowSpans(loc: int, ratio: nat, r: int)
    requires ratio > 0
    ensures CmpRow(loc, ratio) == r <==> r * ratio <= loc < r * ratio + ratio
  {
    if r * ratio <= loc < r * ratio + ratio {
      DivModUnique(loc, r, loc - r * ratio, ratio);
    }
  }

  /** Block `b` lives at the row of its first position. */
  function BlockRow(locs: seq<int>, b: nat, ratio: nat): int
    requires ratio > 0 && b * ratio < |locs|
  {
    CmpRow(locs[b * ratio], ratio)
  }

  lemma PageIsWholeBlocks(g: Geometry, x: int)
    requires g.Valid() && x % g.page == 0
    ensures x % g.ratio == 0
  {
    var n, m := x / g.page, g.page / g.ratio;
    assert x == n * g.page && g.page == m * g.ratio;
    assert x == (n * m) * g.ratio by {
      assert n * (m * g.ratio) == (n * m) * g.ratio;
    }
    DivModUnique(x, n * m, 0, g.ratio);
  }

  lemma SumMod(a: int, b: int, w: nat)
    requires w > 0 && a % w == 0
    ensures (a + b) % w == b % w
    ensures (a + b) / w == a / w + b / w
  {
    assert a + b == (a / w) * w + (b / w) * w + b % w;
    MulDistributes(a / w, b / w, w);
    DivModUnique(a + b, a / w + b / w, b % w, w);
  }

  lemma PageStartIsWholeBlocks(g: Geometry, p: nat)
    requires g.Valid()
    ensures var start := p - p % g.page;
            start % g.page == 0 && start % g.ratio == 0 && p == start + p % g.page
  {
    var start := p - p % g.page;
    assert p == (p / g.page) * g.page + p % g.page;
    DivModUnique(start, p / g.page, 0, g.page);
    PageIsWholeBlocks(g, start);
  }

  /** A position and its full location sit at the same offset of their blocks. */
  lemma LocOffset(g: Geometry, locs: seq<int>, len: nat, p: nat)
    requires g.Valid() && Paged(g.page, locs, len) && p < len
    ensures locs[p] >= 0 && locs[p] % g.ratio == p % g.ratio
  {
    assert PagedAt(g.page, locs, p);
    PageStartIsWholeBlocks(g, p);
    var start := p - p % g.page;
    PageIsWholeBlocks(g, locs[start]);
    SumMod(start, p % g.page, g.ratio);
    SumMod(locs[start], p % g.page, g.ratio);
  }

  lemma RoundDown(d: int, w: nat)
    requires w > 0 && d >= 0
    ensures 0 <= d - d % w <= d
  {
    assert d == (d / w) * w + d % w;
    DivMonotone(0, d, w);
    MulAtLeast(d / w, w);
  }

  /** A block never straddles a page: block start and position share a page start. */
  lemma BlockInPage(g: Geometry, p: nat)
    requires g.Valid()
    ensures var start := p - p % g.ratio;
            0 <= start <= p && start - start % g.page == p - p % g.page
  {
    var d := p % g.page;
    var page := p - d;
    PageStartIsWholeBlocks(g, p);
    SumMod(page, d, g.ratio);
    RoundDown(d, g.ratio);
    SumMod(page, d - d % g.ratio, g.page);
    DivModUnique(d - d % g.ratio, 0, d - d % g.ratio, g.page);
    RoundDown(p, g.page);
  }

  /** The positions of a block occupy consecutive full locations. */
  lemma BlockContiguous(g: Geometry, locs: seq<int>, len: nat, p: nat)
    requires g.Valid() && Paged(g.page, locs, len) && p < len
    ensures var start := p - p % g.ratio;
            0 <= start <= p && locs[start] == locs[p] - p % g.ratio
  {
    BlockInPage(g, p);
    assert PagedAt(g.page, locs, p);
    assert PagedAt(g.page, locs, p - p % g.ratio);
  }

  /** Every position of a block is addressed to the block's row. */
  lemma BlockSharesRow(g: Geometry, locs: seq<int>, len: nat, p: nat)
    requires g.Valid() && Paged(g.page, locs, len) && p < len
    ensures (p / g.ratio) * g.ratio <= p
    ensures CmpRow(locs[p], g.ratio) == BlockRow(locs, p / g.ratio, g.ratio) >= 0
  {
    BlockContiguous(g, locs, len, p);
    LocOffset(g, locs, len, p);
    var start := p - p % g.ratio;
    assert start == (p / g.ratio) * g.ratio;
    var q := locs[p] / g.ratio;
    assert locs[start] == q * g.ratio;
    DivModUnique(locs[start], q, 0, g.ratio);
    DivMonotone(0, locs[p], g.ratio);
  }

  /** Two locations at the same block offset share a row only when they are the same location. */
  lemma SameRowSameLoc(a: int, b: int, ratio: nat)
    requires ratio > 0 && a % ratio == b % ratio
    ensures CmpRow(a, ratio) == CmpRow(b, ratio) <==> a == b
  {
    assert a == (a / ratio) * ratio + a % ratio && b == (b / ratio) * ratio + b % ratio;
  }

  // ----- decode store destinations ---------------------------------------------------------

  /** One decode row: its local index into the snapshot, its position. */
  function Completed(pos: nat, ratio: nat): bool
    requires ratio > 0
  {
    (pos + 1) % ratio == 0
  }

  function DecodeDest(snap: seq<seq<int>>, row: nat, pos: nat, ratio: nat, scratchBase: nat): int
    requires ratio > 0 && row < |snap| && pos < |snap[row]|
  {
    var rowOfBlock := CmpRow(snap[row][pos], ratio);
    var scratch := row + scratchBase;
    if Completed(pos, ratio) then rowOfBlock else scratch
  }

  /** Row `i` decodes position `pos[i]`: its pages are laid out, and its locations lie below the pool's
      scratch rows. */
  ghost predicate RequestRow(g: Geometry, locs: seq<int>, pos: nat, scratchBase: nat)
    requires g.Valid()
  {
    Paged(g.page, locs, pos + 1) && CmpRow(locs[pos], g.ratio) < scratchBase
  }

  /** A row that pads the batch stays at a position that finishes no block. */
  ghost predicate PaddingRow(g: Geometry, locs: seq<int>, pos: nat)
    requires g.Valid()
  {
    pos < |locs| && !Completed(pos, g.ratio)
  }

  /** A decode batch in the snapshot: `live` requests, then padding. */
  ghost predicate DecodeBatch(g: Geometry, snap: seq<seq<int>>, pos: seq<nat>, live: nat, scratchBase: nat) {
    && g.Valid()
    && live <= |snap| == |pos|
    && (forall i :: 0 <= i < live ==> RequestRow(g, snap[i], pos[i], scratchBase))
    && (forall i :: live <= i < |pos| ==> PaddingRow(g, snap[i], pos[i]))
  }

  lemma CompletedOffset(pos: nat, ratio: nat)
    requires ratio > 0
    ensures Completed(pos, ratio) <==> pos % ratio == ratio - 1
  {
    var q, r := pos / ratio, pos % ratio;
    assert pos + 1 == q * ratio + (r + 1);
    if r + 1 < ratio {
      DivModUnique(pos + 1, q, r + 1, ratio);
    } else {
      MulDistributes(q, 1, ratio);
      DivModUnique(pos + 1, q + 1, 0, ratio);
    }
  }

  /** Where one row stores: a finished block at exactly the row the block lookup reads, an
      unfinished one at the row's own scratch row, past every real row. */
  lemma DestMeaning(g: Geometry, snap: seq<seq<int>>, pos: seq<nat>, live: nat, scratchBase: nat, i: nat)
    requires DecodeBatch(g, snap, pos, live, scratchBase) && i < |pos|
    ensures var d := DecodeDest(snap, i, pos[i], g.ratio, scratchBase);
            if Completed(pos[i], g.ratio) then
              && i < live
              && (pos[i] / g.ratio) * g.ratio <= pos[i]
              && 0 <= d == BlockRow(snap[i], pos[i] / g.ratio, g.ratio) < scratchBase
            else
              d == scratchBase + i
  {
    if i < live {
      assert RequestRow(g, snap[i], pos[i], scratchBase);
      BlockSharesRow(g, snap[i], pos[i] + 1, pos[i]);
    } else {
      assert PaddingRow(g, snap[i], pos[i]);
    }
  }

  function Dests(snap: seq<seq<int>>, pos: seq<nat>, ratio: nat, scratchBase: nat): (d: seq<int>)
    requires ratio > 0 && |snap| == |pos|
    requires forall i :: 0 <= i < |pos| ==> pos[i] < |snap[i]|
    ensures |d| == |pos|
  {
    seq(|pos|, i requires 0 <= i < |pos| => DecodeDest(snap, i, pos[i], ratio, scratchBase))
  }

  lemma DestsInPool(g: Geometry, snap: seq<seq<int>>, pos: seq<nat>, live: nat, scratchBase: nat)
    requires DecodeBatch(g, snap, pos, live, scratchBase)
    ensures var d := Dests(snap, pos, g.ratio, scratchBase);
            forall i :: 0 <= i < |d| ==> 0 <= d[i] < scratchBase + |pos|
  {
    forall i | 0 <= i < |pos| ensures 0 <= DecodeDest(snap, i, pos[i], g.ratio, scratchBase) < scratchBase + |pos| {
      DestMeaning(g, snap, pos, live, scratchBase, i);
    }
  }

  /** The stores of a decode step collide exactly when two rows finish a block at the same full
      location; unfinished rows never collide with anything, and no destination is negative. */
  lemma DestsDistinctIff(g: Geometry, snap: seq<seq<int>>, pos: seq<nat>, live: nat, scratchBase: nat)
    requires DecodeBatch(g, snap, pos, live, scratchBase)
    ensures var d := Dests(snap, pos, g.ratio, scratchBase);
            && (forall i :: 0 <= i < |d| ==> 0 <= d[i] < scratchBase + |pos|)
            && (Distinct(d) <==>
                forall i, j :: 0 <= i < j < |pos| && Completed(pos[i], g.ratio) && Completed(pos[j], g.ratio) ==>
                  snap[i][pos[i]] != snap[j][pos[j]])
  {
    var d := Dests(snap, pos, g.ratio, scratchBase);
    DestsInPool(g, snap, pos, live, scratchBase);
    forall i, j | 0 <= i < j < |pos|
      ensures d[i] == d[j] <==>
        Completed(pos[i], g.ratio) && Completed(pos[j], g.ratio) && snap[i][pos[i]] == snap[j][pos[j]]
    {
      DestMeaning(g, snap, pos, live, scratchBase, i);
      DestMeaning(g, snap, pos, live, scratchBase, j);
      if Completed(pos[i], g.ratio) && Completed(pos[j], g.ratio) {
        CompletedOffset(pos[i], g.ratio);
        CompletedOffset(pos[j], g.ratio);
        LocOffset(g, snap[i], pos[i] + 1, pos[i]);
        LocOffset(g, snap[j], pos[j] + 1, pos[j]);
        SameRowSameLoc(snap[i][pos[i]], snap[j][pos[j]], g.ratio);
      }
    }
  }

  // ----- the pool, written in place ---------------------------------------------------------

  method ScatterCompressed<T>(pool: array<T>, dest: seq<int>, kv: seq<T>)
    requires |dest| == |kv| && forall i :: 0 <= i < |dest| ==> 0 <= dest[i] < pool.Length
    modifies pool
    ensures pool[..] == Scatter(old(pool[..]), dest, kv)
  {
    for i := 0 to |dest|
      invariant pool[..] == Scatter(old(pool[..]), dest[..i], kv[..i])
    {
      assert dest[..i + 1][..i] == dest[..i] && kv[..i + 1][..i] == kv[..i];
      pool[dest[i]] := kv[i];
    }
    assert dest[..|dest|] == dest && kv[..|kv|] == kv;
  }

  /** Block `b` is stored at its row, below the scratch rows. */
  ghost predicate StoredAt<T>(g: Geometry, pool: seq<T>, cap: nat, locs: seq<int>, b: nat, v: T)
    requires g.Valid() && cap <= |pool|
  {
    var at := b * g.ratio;
    0 <= at < |locs| && 0 <= CmpRow(locs[at], g.ratio) < cap && pool[CmpRow(locs[at], g.ratio)] == v
  }

  /** Every finished block of a `len`-token history is stored. */
  ghost predicate BlocksStored<T>(g: Geometry, pool: seq<T>, cap: nat, locs: seq<int>, len: nat, value: nat -> T)
    requires g.Valid() && cap <= |pool|
  {
    forall b: nat :: (b + 1) * g.ratio <= len ==> StoredAt(g, pool, cap, locs, b, value(b))
  }

  /** The decode pages are private: the location at which a row finishes a block is no other live
      location of the batch. */
  ghost predicate PrivateWrites(g: Geometry, snap: seq<seq<int>>, pos: seq<nat>, live: nat)
    requires g.Valid() && live <= |snap| == |pos|
  {
    (forall i :: 0 <= i < live ==> pos[i] < |snap[i]|) &&
    forall i, j, p | 0 <= i < live && 0 <= j < live && 0 <= p <= pos[j] && Completed(pos[i], g.ratio) ::
      i != j || p != pos[i] ==> snap[j][p] != snap[i][pos[i]]
  }

  lemma LastOfBlock(g: Geometry, locs: seq<int>, len: nat, b: nat)
    requires g.Valid() && Paged(g.page, locs, len) && (b + 1) * g.ratio <= len
    ensures var last := (b + 1) * g.ratio - 1;
            && 0 <= b * g.ratio <= last < len
            && last / g.ratio == b && last % g.ratio == g.ratio - 1
            && CmpRow(locs[last], g.ratio) == BlockRow(locs, b, g.ratio) >= 0
  {
    var last := (b + 1) * g.ratio - 1;
    MulDistributes(b, 1, g.ratio);
    MulAtLeast(b, g.ratio);
    DivModUnique(last, b, g.ratio - 1, g.ratio);
    BlockSharesRow(g, locs, len, last);
  }

  /** No row of a decode batch stores over an earlier block of the batch. */
  lemma OwnRowOnly(g: Geometry, snap: seq<seq<int>>, pos: seq<nat>, live: nat, scratchBase: nat, i: nat, j: nat,
                   last: nat)
    requires DecodeBatch(g, snap, pos, live, scratchBase) && PrivateWrites(g, snap, pos, live)
    requires i < |pos| && j < live && last < pos[j] && last % g.ratio == g.ratio - 1
    requires CmpRow(snap[j][last], g.ratio) < scratchBase
    ensures DecodeDest(snap, i, pos[i], g.ratio, scratchBase) != CmpRow(snap[j][last], g.ratio)
  {
    DestMeaning(g, snap, pos, live, scratchBase, i);
    if Completed(pos[i], g.ratio) {
      CompletedOffset(pos[i], g.ratio);
      LocOffset(g, snap[i], pos[i] + 1, pos[i]);
      LocOffset(g, snap[j], pos[j] + 1, last);
      SameRowSameLoc(snap[i][pos[i]], snap[j][last], g.ratio);
    }
  }

  /** `after` is the pool with the values at their destinations. */
  ghost predicate Scattered<T>(pool: seq<T>, after: seq<T>, dest: seq<int>, kv: seq<T>) {
    && |after| == |pool| && |kv| == |dest|
    && (forall i :: 0 <= i < |dest| ==> 0 <= dest[i] < |pool| && after[dest[i]] == kv[i])
    && (forall x :: 0 <= x < |pool| && x !in dest ==> after[x] == pool[x])
  }

  lemma StoredAfterStep<T>(g: Geometry, snap: seq<seq<int>>, pos: seq<nat>, live: nat, scratchBase: nat,
                           pool: seq<T>, after: seq<T>, kv: seq<T>, value: nat -> T, j: nat, b: nat)
    requires DecodeBatch(g, snap, pos, live, scratchBase) && PrivateWrites(g, snap, pos, live)
    requires j < live && scratchBase <= |pool| && BlocksStored(g, pool, scratchBase, snap[j], pos[j], value)
    requires Scattered(pool, after, Dests(snap, pos, g.ratio, scratchBase), kv)
    requires FinishedValue(kv[j], value, pos[j], g.ratio)
    requires (b + 1) * g.ratio <= pos[j] + 1
    ensures StoredAt(g, after, scratchBase, snap[j], b, value(b))
  {
    var d := Dests(snap, pos, g.ratio, scratchBase);
    var last := (b + 1) * g.ratio - 1;
    assert RequestRow(g, snap[j], pos[j], scratchBase);
    LastOfBlock(g, snap[j], pos[j] + 1, b);
    var row := BlockRow(snap[j], b, g.ratio);
    if last == pos[j] {
      CompletedOffset(pos[j], g.ratio);
      DestMeaning(g, snap, pos, live, scratchBase, j);
      assert d[j] == row;
    } else {
      assert StoredAt(g, pool, scratchBase, snap[j], b, value(b));
      forall i | 0 <= i < |d| ensures d[i] != row {
        OwnRowOnly(g, snap, pos, live, scratchBase, i, j, last);
      }
    }
  }

  /** Every request of the batch can read back the finished blocks of its first `pos[i]` positions. */
  ghost predicate RowsStored<T>(g: Geometry, pool: seq<T>, cap: nat, snap: seq<seq<int>>, pos: seq<nat>, live: nat,
                                value: seq<nat -> T>) {
    && g.Valid() && cap <= |pool| && |value| == live <= |snap| == |pos|
    && forall i :: 0 <= i < live ==> BlocksStored(g, pool, cap, snap[i], pos[i], value[i])
  }

  /** If position `p` finishes a block, `v` is that block's value. */
  ghost predicate FinishedValue<T>(v: T, value: nat -> T, p: nat, ratio: nat)
    requires ratio > 0
  {
    Completed(p, ratio) ==> v == value(p / ratio)
  }

  /** A step stores the value of each block it finishes. */
  ghost predicate StepStores<T>(kv: seq<T>, value: seq<nat -> T>, pos: seq<nat>, live: nat, ratio: nat) {
    && ratio > 0 && |value| == live <= |kv| == |pos|
    && forall i :: 0 <= i < live ==> FinishedValue(kv[i], value[i], pos[i], ratio)
  }

  ghost predicate Within(dest: seq<int>, size: nat) {
    forall i :: 0 <= i < |dest| ==> 0 <= dest[i] < size
  }

  /** One decode step keeps every co-tenant's blocks and adds the ones it finishes: if each request's
      finished blocks were stored before the step, and the step stores each newly finished block's
      value, then all finished blocks of the extended histories are stored after it. */
  lemma DecodeStepKeepsBlocks<T>(g: Geometry, snap: seq<seq<int>>, pos: seq<nat>, live: nat, scratchBase: nat,
                                 pool: seq<T>, kv: seq<T>, value: seq<nat -> T>)
    requires DecodeBatch(g, snap, pos, live, scratchBase) && PrivateWrites(g, snap, pos, live)
    requires scratchBase + |pos| <= |pool| && RowsStored(g, pool, scratchBase, snap, pos, live, value)
    requires StepStores(kv, value, pos, live, g.ratio)
    ensures var d := Dests(snap, pos, g.ratio, scratchBase);
            && Distinct(d) && Within(d, |pool|)
            && RowsStored(g, Scatter(pool, d, kv), scratchBase, snap, Advance(pos, live, 1), live, value)
  {
    var d := Dests(snap, pos, g.ratio, scratchBase);
    DestsDistinctIff(g, snap, pos, live, scratchBase);
    ScatterMeaning(pool, d, kv);
    forall j | 0 <= j < live
      ensures BlocksStored(g, Scatter(pool, d, kv), scratchBase, snap[j], pos[j] + 1, value[j])
    {
      RowKeepsBlocks(g, snap, pos, live, scratchBase, pool, Scatter(pool, d, kv), kv, value[j], j);
    }
  }

  lemma RowKeepsBlocks<T>(g: Geometry, snap: seq<seq<int>>, pos: seq<nat>, live: nat, scratchBase: nat,
                          pool: seq<T>, after: seq<T>, kv: seq<T>, value: nat -> T, j: nat)
    requires DecodeBatch(g, snap, pos, live, scratchBase) && PrivateWrites(g, snap, pos, live)
    requires j < live && scratchBase <= |pool| && BlocksStored(g, pool, scratchBase, snap[j], pos[j], value)
    requires Scattered(pool, after, Dests(snap, pos, g.ratio, scratchBase), kv)
    requires FinishedValue(kv[j], value, pos[j], g.ratio)
    ensures BlocksStored(g, after, scratchBase, snap[j], pos[j] + 1, value)
  {
    forall b: nat | (b + 1) * g.ratio <= pos[j] + 1
      ensures StoredAt(g, after, scratchBase, snap[j], b, value(b))
    {
      StoredAfterStep(g, snap, pos, live, scratchBase, pool, after, kv, value, j, b);
    }
  }

  /** Positions after `k` steps: the requests advance, the padding stays. */
  function Advance(pos: seq<nat>, live: nat, k: nat): (r: seq<nat>)
    ensures |r| == |pos| && forall i :: 0 <= i < |pos| ==> r[i] == if i < live then pos[i] + k else pos[i]
  {
    seq(|pos|, i requires 0 <= i < |pos| => if i < live then pos[i] + k else pos[i])
  }

  lemma AdvanceOnce(pos: seq<nat>, live: nat, n: nat)
    ensures Advance(pos, live, 0) == pos
    ensures n > 0 ==> Advance(Advance(pos, live, n - 1), live, 1) == Advance(pos, live, n)
  {
  }

  /** What the rows store in step `k`: a finished block's value, or a partial result bound for
      scratch. */
  function StepValues<T>(kv: (nat, nat) -> T, rows: nat, k: nat): (r: seq<T>)
    ensures |r| == rows && forall i :: 0 <= i < rows ==> r[i] == kv(i, k)
  {
    seq(rows, i requires 0 <= i < rows => kv(i, k))
  }

  /** The steps `0 .. n` of a decode run are well formed: pages laid out, write pages private. */
  ghost predicate DecodeRun(g: Geometry, snap: seq<seq<int>>, pos: seq<nat>, live: nat, scratchBase: nat, n: nat) {
    g.Valid() && live <= |snap| == |pos| &&
    forall k: nat :: k < n ==>
      && DecodeBatch(g, snap, Advance(pos, live, k), live, scratchBase)
      && PrivateWrites(g, snap, Advance(pos, live, k), live)
  }

  /** Any batch that can run can run padded to any size: at position 0 a padding row finishes no block,
      as every ratio is above 1. */
  lemma PaddedBatchRuns(g: Geometry, snap: seq<seq<int>>, pos: seq<nat>, scratchBase: nat, n: nat,
                        padding: seq<seq<int>>)
    requires DecodeRun(g, snap, pos, |pos|, scratchBase, n) && g.ratio > 1
    requires forall i :: 0 <= i < |padding| ==> padding[i] != []
    ensures DecodeRun(g, snap + padding, pos + seq(|padding|, _ => 0), |pos|, scratchBase, n)
  {
    var padded := pos + seq(|padding|, _ => 0);
    forall k: nat | k < n
      ensures DecodeBatch(g, snap + padding, Advance(padded, |pos|, k), |pos|, scratchBase)
      ensures PrivateWrites(g, snap + padding, Advance(padded, |pos|, k), |pos|)
    {
      var at, was := Advance(padded, |pos|, k), Advance(pos, |pos|, k);
      assert DecodeBatch(g, snap, was, |pos|, scratchBase) && PrivateWrites(g, snap, was, |pos|);
      assert forall i :: 0 <= i < |pos| ==> at[i] == was[i] && (snap + padding)[i] == snap[i];
      forall i | |pos| <= i < |padded| ensures PaddingRow(g, (snap + padding)[i], at[i]) {
        assert (snap + padding)[i] == padding[i - |pos|] && at[i] == 0;
      }
    }
  }

  ghost function PoolAfter<T>(g: Geometry, snap: seq<seq<int>>, pos: seq<nat>, live: nat, scratchBase: nat,
                              pool: seq<T>, kv: (nat, nat) -> T, n: nat): (r: seq<T>)
    requires DecodeRun(g, snap, pos, live, scratchBase, n) && scratchBase + |pos| <= |pool|
    ensures |r| == |pool|
  {
    if n == 0 then pool else
    var before := PoolAfter(g, snap, pos, live, scratchBase, pool, kv, n - 1);
    var at := Advance(pos, live, n - 1);
    DestsInPool(g, snap, at, live, scratchBase);
    Scatter(before, Dests(snap, at, g.ratio, scratchBase), StepValues(kv, |pos|, n - 1))
  }

  /** The steps of a run store the values of the blocks they finish. */
  ghost predicate RunStores<T>(kv: (nat, nat) -> T, value: seq<nat -> T>, pos: seq<nat>, live: nat, ratio: nat,
                               n: nat) {
    forall k: nat :: k < n ==> StepStores(StepValues(kv, |pos|, k), value, Advance(pos, live, k), live, ratio)
  }

  lemma RunStepKeepsBlocks<T>(g: Geometry, snap: seq<seq<int>>, pos: seq<nat>, live: nat, scratchBase: nat,
                              pool: seq<T>, kv: (nat, nat) -> T, value: seq<nat -> T>, n: nat)
    requires n > 0 && DecodeRun(g, snap, pos, live, scratchBase, n) && scratchBase + |pos| <= |pool|
    requires RowsStored(g, PoolAfter(g, snap, pos, live, scratchBase, pool, kv, n - 1), scratchBase, snap,
                        Advance(pos, live, n - 1), live, value)
    requires StepStores(StepValues(kv, |pos|, n - 1), value, Advance(pos, live, n - 1), live, g.ratio)
    ensures RowsStored(g, PoolAfter(g, snap, pos, live, scratchBase, pool, kv, n), scratchBase, snap,
                       Advance(pos, live, n), live, value)
  {
    AdvanceOnce(pos, live, n);
    DecodeStepKeepsBlocks(g, snap, Advance(pos, live, n - 1), live, scratchBase,
                          PoolAfter(g, snap, pos, live, scratchBase, pool, kv, n - 1),
                          StepValues(kv, |pos|, n - 1), value);
  }

  /** Over a decode run of any length, every co-tenant can read back every block it has finished,
      however many padding rows run along. */
  lemma {:induction false} DecodeRunKeepsBlocks<T>(g: Geometry, snap: seq<seq<int>>, pos: seq<nat>, live: nat,
                                                   scratchBase: nat, pool: seq<T>, kv: (nat, nat) -> T,
                                                   value: seq<nat -> T>, n: nat)
    requires DecodeRun(g, snap, pos, live, scratchBase, n) && scratchBase + |pos| <= |pool|
    requires RowsStored(g, pool, scratchBase, snap, pos, live, value) && RunStores(kv, value, pos, live, g.ratio, n)
    ensures RowsStored(g, PoolAfter(g, snap, pos, live, scratchBase, pool, kv, n), scratchBase, snap,
                       Advance(pos, live, n), live, value)
  {
    if n > 0 {
      DecodeRunKeepsBlocks(g, snap, pos, live, scratchBase, pool, kv, value, n - 1);
      RunStepKeepsBlocks(g, snap, pos, live, scratchBase, pool, kv, value, n);
    } else {
      AdvanceOnce(pos, live, 0);
    }
  }

  /** No row of the run finishes a block at pool row `row`. */
  ghost predicate NotWritten(g: Geometry, snap: seq<seq<int>>, pos: seq<nat>, live: nat, scratchBase: nat, n: nat,
                             row: nat)
    requires DecodeRun(g, snap, pos, live, scratchBase, n)
  {
    && row < scratchBase
    && forall k: nat, i :: k < n && 0 <= i < |pos| ==>
         DecodeDest(snap, i, Advance(pos, live, k)[i], g.ratio, scratchBase) != row
  }

  lemma StepKeepsOtherRow<T>(g: Geometry, snap: seq<seq<int>>, at: seq<nat>, live: nat, scratchBase: nat,
                             pool: seq<T>, kv: seq<T>, row: nat)
    requires DecodeBatch(g, snap, at, live, scratchBase) && scratchBase + |at| <= |pool| && |kv| == |at|
    requires row < scratchBase
    requires forall i :: 0 <= i < |at| ==> DecodeDest(snap, i, at[i], g.ratio, scratchBase) != row
    ensures Within(Dests(snap, at, g.ratio, scratchBase), |pool|)
    ensures Scatter(pool, Dests(snap, at, g.ratio, scratchBase), kv)[row] == pool[row]
  {
    DestsInPool(g, snap, at, live, scratchBase);
    ScatterMisses(pool, Dests(snap, at, g.ratio, scratchBase), kv, row);
  }

  /** Such a row keeps its value. */
  lemma {:induction false} RunKeepsOtherRows<T>(g: Geometry, snap: seq<seq<int>>, pos: seq<nat>, live: nat,
                                                scratchBase: nat, pool: seq<T>, kv: (nat, nat) -> T, n: nat, row: nat)
    requires DecodeRun(g, snap, pos, live, scratchBase, n) && scratchBase + |pos| <= |pool|
    requires NotWritten(g, snap, pos, live, scratchBase, n, row)
    ensures PoolAfter(g, snap, pos, live, scratchBase, pool, kv, n)[row] == pool[row]
  {
    if n > 0 {
      RunKeepsOtherRows(g, snap, pos, live, scratchBase, pool, kv, n - 1, row);
      StepKeepsOtherRow(g, snap, Advance(pos, live, n - 1), live, scratchBase,
                        PoolAfter(g, snap, pos, live, scratchBase, pool, kv, n - 1), StepValues(kv, |pos|, n - 1), row);
    }
  }

  // ----- prefill stores and block lookup ----------------------------------------------------

  /** Rows of the blocks `[first, first + count)` off the request's live locations. */
  function CompressRowsOf(locs: seq<int>, first: nat, count: nat, ratio: nat): (rows: seq<int>)
    requires ratio > 0 && forall b :: first <= b < first + count ==> 0 <= b * ratio < |locs|
    ensures |rows| == count && forall i :: 0 <= i < count ==> rows[i] == BlockRow(locs, first + i, ratio)
  {
    seq(count, i requires 0 <= i < count => CmpRow(locs[(first + i) * ratio], ratio))
  }

  /** Selected blocks to pool rows; the sentinel passes through the clamped gather. */
  function BlocksToGlobal(blocks: seq<int>, locs: seq<int>, ratio: nat): (rows: seq<int>)
    requires ratio > 0 && locs != []
    requires forall i :: 0 <= i < |blocks| && blocks[i] >= 0 ==> 0 <= blocks[i] * ratio < |locs|
    ensures |rows| == |blocks|
  {
    seq(|blocks|, i requires 0 <= i < |blocks| =>
      var safe := if blocks[i] < 0 then 0 else blocks[i];
      var g := CmpRow(locs[safe * ratio], ratio);
      if blocks[i] < 0 then -1 else g)
  }

  /** A lookup through the snapshot reads the values that prefill and decode stored. */
  lemma LookupReadsStored<T>(g: Geometry, pool: seq<T>, cap: nat, locs: seq<int>, len: nat,
                             value: nat -> T, blocks: seq<int>)
    requires g.Valid() && cap <= |pool| && locs != [] && BlocksStored(g, pool, cap, locs, len, value)
    requires forall i :: 0 <= i < |blocks| && blocks[i] >= 0 ==>
               0 <= blocks[i] * g.ratio < |locs| && (blocks[i] + 1) * g.ratio <= len
    ensures var rows := BlocksToGlobal(blocks, locs, g.ratio);
            forall i :: 0 <= i < |blocks| ==>
              if blocks[i] < 0 then rows[i] == -1 else 0 <= rows[i] < cap && pool[rows[i]] == value(blocks[i])
  {
    forall i | 0 <= i < |blocks| && blocks[i] >= 0
      ensures StoredAt(g, pool, cap, locs, blocks[i], value(blocks[i]))
    {
    }
  }

  lemma BlockWithin(g: Geometry, b: nat, n: nat)
    requires g.Valid() && b < n
    ensures 0 <= b * g.ratio < (b + 1) * g.ratio <= n * g.ratio
  {
    MulDistributes(b, 1, g.ratio);
    MulAtLeast(b, g.ratio);
    MulDistributes(n, b + 1, g.ratio);
    MulAtLeast(n - (b + 1), g.ratio);
  }

  lemma BlockRowsDiffer(g: Geometry, locs: seq<int>, n: nat, a: nat, b: nat)
    requires g.Valid() && a < b < n && n * g.ratio <= |locs| && Paged(g.page, locs, n * g.ratio)
    requires Distinct(locs[..n * g.ratio])
    ensures 0 <= a * g.ratio < b * g.ratio < |locs|
    ensures BlockRow(locs, a, g.ratio) != BlockRow(locs, b, g.ratio)
  {
    BlockWithin(g, a, b);
    BlockWithin(g, b, n);
    DivModUnique(a * g.ratio, a, 0, g.ratio);
    DivModUnique(b * g.ratio, b, 0, g.ratio);
    LocOffset(g, locs, n * g.ratio, a * g.ratio);
    LocOffset(g, locs, n * g.ratio, b * g.ratio);
    SameRowSameLoc(locs[a * g.ratio], locs[b * g.ratio], g.ratio);
    assert locs[..n * g.ratio][a * g.ratio] == locs[a * g.ratio];
    assert locs[..n * g.ratio][b * g.ratio] == locs[b * g.ratio];
  }

  /** The first `n` blocks of a request have laid-out pages, their own locations, and rows inside
      the pool. */
  ghost predicate OwnBlocks(g: Geometry, locs: seq<int>, n: nat, cap: nat) {
    && g.Valid()
    && n * g.ratio <= |locs|
    && Paged(g.page, locs, n * g.ratio)
    && Distinct(locs[..n * g.ratio])
    && forall p :: 0 <= p < n * g.ratio ==> CmpRow(locs[p], g.ratio) < cap
  }

  lemma OwnBlockRow(g: Geometry, locs: seq<int>, n: nat, cap: nat, b: nat)
    requires OwnBlocks(g, locs, n, cap) && b < n
    ensures 0 <= b * g.ratio < |locs| && 0 <= BlockRow(locs, b, g.ratio) < cap
  {
    BlockWithin(g, b, n);
    LastOfBlock(g, locs, n * g.ratio, b);
    assert CmpRow(locs[b * g.ratio], g.ratio) < cap;
  }

  /** The rows a prefill of the blocks `[first, first + count)` stores to: inside the pool, all
      different, and block `b`'s row is among them exactly when `b` is one of these blocks. */
  lemma OwnBlockRows(g: Geometry, locs: seq<int>, cap: nat, first: nat, count: nat)
    requires OwnBlocks(g, locs, first + count, cap)
    ensures forall b :: first <= b < first + count ==> 0 <= b * g.ratio < |locs|
    ensures var rows := CompressRowsOf(locs, first, count, g.ratio);
            && Distinct(rows)
            && forall i :: 0 <= i < count ==> 0 <= rows[i] < cap
  {
    forall b: nat | b < first + count
      ensures 0 <= b * g.ratio < |locs| && 0 <= BlockRow(locs, b, g.ratio) < cap
    {
      OwnBlockRow(g, locs, first + count, cap, b);
    }
    var rows := CompressRowsOf(locs, first, count, g.ratio);
    forall i, j | 0 <= i < j < count ensures rows[i] != rows[j] {
      BlockRowsDiffer(g, locs, first + count, first + i, first + j);
    }
  }

  lemma OwnBlockRowAt(g: Geometry, locs: seq<int>, cap: nat, first: nat, count: nat, b: nat, i: nat)
    requires OwnBlocks(g, locs, first + count, cap) && b < first + count && i < count
    ensures 0 <= b * g.ratio < |locs| && 0 <= (first + i) * g.ratio < |locs|
    ensures BlockRow(locs, first + i, g.ratio) == BlockRow(locs, b, g.ratio) <==> b == first + i
  {
    if b < first + i {
      BlockRowsDiffer(g, locs, first + count, b, first + i);
    } else if first + i < b {
      BlockRowsDiffer(g, locs, first + count, first + i, b);
    } else {
      OwnBlockRow(g, locs, first + count, cap, b);
    }
  }

  /** Of the rows a prefill stores to, a block's row is the one at its index, if any. */
  lemma OwnRowAmong(g: Geometry, locs: seq<int>, cap: nat, first: nat, count: nat, b: nat)
    requires OwnBlocks(g, locs, first + count, cap) && b < first + count
    ensures forall c :: first <= c < first + count ==> 0 <= c * g.ratio < |locs|
    ensures 0 <= b * g.ratio < |locs| && 0 <= BlockRow(locs, b, g.ratio) < cap
    ensures var rows := CompressRowsOf(locs, first, count, g.ratio);
            forall i :: 0 <= i < count ==> (rows[i] == BlockRow(locs, b, g.ratio) <==> b == first + i)
  {
    OwnBlockRows(g, locs, cap, first, count);
    OwnBlockRow(g, locs, first + count, cap, b);
    var rows := CompressRowsOf(locs, first, count, g.ratio);
    forall i | 0 <= i < count ensures rows[i] == BlockRow(locs, b, g.ratio) <==> b == first + i {
      OwnBlockRowAt(g, locs, cap, first, count, b, i);
    }
  }

  /** A prefill of whole blocks extends what is stored: scattering the values of the blocks
      `[first, first + count)` at their rows stores every block up to there and keeps the earlier
      ones. */
  lemma PrefillStoresBlocks<T>(g: Geometry, pool: seq<T>, cap: nat, locs: seq<int>, first: nat, count: nat,
                               value: nat -> T, kv: seq<T>, b: nat)
    requires OwnBlocks(g, locs, first + count, cap) && cap <= |pool| && |kv| == count
    requires forall c: nat :: c < first ==> StoredAt(g, pool, cap, locs, c, value(c))
    requires forall i :: 0 <= i < count ==> kv[i] == value(first + i)
    requires b < first + count
    ensures forall c :: first <= c < first + count ==> 0 <= c * g.ratio < |locs|
    ensures var rows := CompressRowsOf(locs, first, count, g.ratio);
            && (forall i :: 0 <= i < count ==> 0 <= rows[i] < cap)
            && StoredAt(g, Scatter(pool, rows, kv), cap, locs, b, value(b))
  {
    OwnBlockRows(g, locs, cap, first, count);
    OwnRowAmong(g, locs, cap, first, count, b);
    var rows, row := CompressRowsOf(locs, first, count, g.ratio), BlockRow(locs, b, g.ratio);
    if b >= first {
      assert rows[b - first] == row;
    } else {
      assert StoredAt(g, pool, cap, locs, b, value(b));
    }
    ScatterAt(pool, rows, kv, row, value(b));
  }
}
