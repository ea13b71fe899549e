/** Serving: the compressor's blocks in the compressed pool.  Any interleaving of the prefill chunks of
    any requests, and decode runs of a batch, keep every request's finished blocks readable and every
    request resumable. */
module CompressorServing {
  import opened Sequences
  import opened Arithmetic
  import opened CarryRing
  import opened Compressor
  import opened CompressorPaths
  import opened CompressorRuns
  import opened Paging
  import CompressedRows

  /** A request: its tokens so far and the full locations of its positions.  Those past its tokens
      are the ones it is going to get; nothing said of a served request depends on them. */
  datatype Request = Request(toks: seq<Token>, locs: seq<int>)

  /** How a block's start and pooled input become a pool row: norm, rotary, quantisation. */
  type Finish<!T> = (nat, seq<Row>) -> T

  /** The value of block `b` of a history. */
  ghost function BlockValue<T>(finish: Finish<T>, toks: seq<Token>, ape: seq<seq<real>>, cfg: Config): nat -> T {
    (b: nat) => finish(Nth(b, |ape|), if HasBlock(toks, b, |ape|) then BlockInput(toks, b, ape, cfg) else [])
  }

  lemma ValueIs<T>(finish: Finish<T>, start: nat, input: seq<Row>, toks: seq<Token>, b: nat,
                   ape: seq<seq<real>>, cfg: Config)
    requires HasBlock(toks, b, |ape|) && start == Nth(b, |ape|) && input == BlockInput(toks, b, ape, cfg)
    ensures finish(start, input) == BlockValue(finish, toks, ape, cfg)(b)
  {
  }

  // ----- the pool half of a chunk ---------------------------------------------------------------

  lemma FinishedCount(toks: seq<Token>, lo: nat, hi: nat, ape: seq<seq<real>>, cfg: Config)
    requires ape != [] && lo <= hi <= |toks|
    ensures |FinishedIn(toks, lo, hi, ape, cfg)| == BlockOf(hi, |ape|) - BlockOf(lo, |ape|)
  {
    FinishedMeaning(toks, lo, ape, cfg);
    FinishedMeaning(toks, hi, ape, cfg);
    FinishedSplit(toks, 0, lo, hi, ape, cfg);
  }

  /** The blocks finished between two lengths are those from the first unfinished one on. */
  lemma FinishedBetween(toks: seq<Token>, lo: nat, hi: nat, ape: seq<seq<real>>, cfg: Config, k: nat)
    requires ape != [] && lo <= hi <= |toks| && k < |FinishedIn(toks, lo, hi, ape, cfg)|
    ensures IsBlock(FinishedIn(toks, lo, hi, ape, cfg)[k], toks, BlockOf(lo, |ape|) + k, ape, cfg)
  {
    FinishedMeaning(toks, lo, ape, cfg);
    FinishedMeaning(toks, hi, ape, cfg);
    FinishedSplit(toks, 0, lo, hi, ape, cfg);
    Appended(FinishedIn(toks, 0, lo, ape, cfg), FinishedIn(toks, lo, hi, ape, cfg), FinishedIn(toks, 0, hi, ape, cfg),
             k);
    assert IsBlock(FinishedIn(toks, 0, hi, ape, cfg)[BlockOf(lo, |ape|) + k], toks, BlockOf(lo, |ape|) + k, ape, cfg);
  }

  lemma Appended<T>(a: seq<T>, b: seq<T>, all: seq<T>, k: nat)
    requires all == a + b && k < |b|
    ensures |a| + k < |all| && all[|a| + k] == b[k]
  {
  }

  /** `out` are the blocks of a history from the `first`-th on. */
  ghost predicate BlocksFrom(out: seq<Finished>, toks: seq<Token>, first: nat, ape: seq<seq<real>>, cfg: Config) {
    forall k: nat :: k < |out| ==> IsBlock(out[k], toks, first + k, ape, cfg)
  }

  lemma FinishedFrom(toks: seq<Token>, lo: nat, hi: nat, ape: seq<seq<real>>, cfg: Config)
    requires ape != [] && lo <= hi <= |toks|
    ensures var out := FinishedIn(toks, lo, hi, ape, cfg);
            && BlockOf(lo, |ape|) + |out| == BlockOf(hi, |ape|)
            && BlocksFrom(out, toks, BlockOf(lo, |ape|), ape, cfg)
  {
    FinishedCount(toks, lo, hi, ape, cfg);
    var out := FinishedIn(toks, lo, hi, ape, cfg);
    forall k: nat | k < |out| ensures IsBlock(out[k], toks, BlockOf(lo, |ape|) + k, ape, cfg) {
      FinishedBetween(toks, lo, hi, ape, cfg, k);
    }
  }

  /** The pool rows of finished blocks: the row of their first position. */
  function RowsOf(out: seq<Finished>, locs: seq<int>, ratio: nat): (rows: seq<int>)
    requires ratio > 0 && forall k :: 0 <= k < |out| ==> out[k].start < |locs|
    ensures |rows| == |out|
  {
    seq(|out|, k requires 0 <= k < |out| => CompressedRows.CmpRow(locs[out[k].start], ratio))
  }

  function ValuesOf<T>(out: seq<Finished>, finish: Finish<T>): (kv: seq<T>)
    ensures |kv| == |out|
  {
    seq(|out|, k requires 0 <= k < |out| => finish(out[k].start, out[k].input))
  }

  lemma BlocksInLocations(first: nat, count: nat, ratio: nat, size: nat)
    requires ratio > 0 && Nth(first + count, ratio) <= size
    ensures forall b: nat :: first <= b < first + count ==> 0 <= b * ratio < size
  {
    forall b: nat | first <= b < first + count ensures 0 <= b * ratio < size {
      NthIsProduct(b, ratio);
      NthBelow(b, first + count, ratio);
    }
  }

  lemma StartIs(f: Finished, toks: seq<Token>, c: nat, end: nat, size: nat, ape: seq<seq<real>>, cfg: Config)
    requires ape != [] && IsBlock(f, toks, c, ape, cfg) && c < end && Nth(end, |ape|) <= size
    ensures f.start == c * |ape| < size
  {
    NthBelow(c, end, |ape|);
    NthIsProduct(c, |ape|);
  }

  /** These are the rows of the blocks `[first, first + |out|)` of the request. */
  lemma RowsAre(out: seq<Finished>, toks: seq<Token>, locs: seq<int>, first: nat, ape: seq<seq<real>>,
                cfg: Config)
    requires ape != [] && Nth(first + |out|, |ape|) <= |locs| && BlocksFrom(out, toks, first, ape, cfg)
    ensures forall k :: 0 <= k < |out| ==> out[k].start < |locs|
    ensures forall b :: first <= b < first + |out| ==> 0 <= b * |ape| < |locs|
    ensures RowsOf(out, locs, |ape|) == CompressedRows.CompressRowsOf(locs, first, |out|, |ape|)
  {
    BlocksInLocations(first, |out|, |ape|, |locs|);
    forall k: nat | k < |out| ensures out[k].start == (first + k) * |ape| < |locs| {
      assert IsBlock(out[k], toks, first + k, ape, cfg);
      StartIs(out[k], toks, first + k, first + |out|, |locs|, ape, cfg);
    }
  }

  /** And these their values. */
  lemma ValuesAre<T>(out: seq<Finished>, toks: seq<Token>, first: nat, finish: Finish<T>,
                     ape: seq<seq<real>>, cfg: Config)
    requires BlocksFrom(out, toks, first, ape, cfg)
    ensures forall k :: 0 <= k < |out| ==> ValuesOf(out, finish)[k] == BlockValue(finish, toks, ape, cfg)(first + k)
  {
    forall k: nat | k < |out| ensures ValuesOf(out, finish)[k] == BlockValue(finish, toks, ape, cfg)(first + k) {
      assert IsBlock(out[k], toks, first + k, ape, cfg);
      ValueIs(finish, out[k].start, out[k].input, toks, first + k, ape, cfg);
    }
  }

  lemma BlockInHistory(b: nat, n: nat, ratio: nat)
    requires ratio > 0
    ensures (b + 1) * ratio <= n <==> b < BlockOf(n, ratio)
  {
    NthIsProduct(b + 1, ratio);
    var c := BlockOf(n, ratio);
    if b < c {
      NthBelow(b, c, ratio);
    } else if c < b {
      NthBelow(c, b, ratio);
    }
  }

  /** The pool holds block `b` of the history. */
  ghost predicate HoldsBlock<T>(g: CompressedRows.Geometry, pool: seq<T>, cap: nat, r: Request, b: nat,
                                finish: Finish<T>, ape: seq<seq<real>>, cfg: Config)
    requires g.Valid() && cap <= |pool|
  {
    CompressedRows.StoredAt(g, pool, cap, r.locs, b, BlockValue(finish, r.toks, ape, cfg)(b))
  }

  /** The pool holds every finished block of the request, at locations of its own. */
  ghost predicate PoolHolds<T>(g: CompressedRows.Geometry, pool: seq<T>, cap: nat, r: Request, finish: Finish<T>,
                               ape: seq<seq<real>>, cfg: Config) {
    && ape != [] && g.ratio == |ape| && cap <= |pool|
    && CompressedRows.OwnBlocks(g, r.locs, BlockOf(|r.toks|, |ape|), cap)
    && forall b: nat :: b < BlockOf(|r.toks|, |ape|) ==> HoldsBlock(g, pool, cap, r, b, finish, ape, cfg)
  }

  /** In the terms of the pool itself. */
  lemma PoolHoldsMeaning<T>(g: CompressedRows.Geometry, pool: seq<T>, cap: nat, r: Request, finish: Finish<T>,
                            ape: seq<seq<real>>, cfg: Config)
    requires PoolHolds(g, pool, cap, r, finish, ape, cfg)
    ensures CompressedRows.BlocksStored(g, pool, cap, r.locs, |r.toks|, BlockValue(finish, r.toks, ape, cfg))
  {
    forall b: nat | (b + 1) * g.ratio <= |r.toks|
      ensures CompressedRows.StoredAt(g, pool, cap, r.locs, b, BlockValue(finish, r.toks, ape, cfg)(b))
    {
      BlockInHistory(b, |r.toks|, |ape|);
      assert HoldsBlock(g, pool, cap, r, b, finish, ape, cfg);
    }
  }

  lemma BlockOfMonotone(m: nat, n: nat, ratio: nat)
    requires ratio > 0 && m <= n
    ensures BlockOf(m, ratio) <= BlockOf(n, ratio)
  {
    var a, b := BlockOf(m, ratio), BlockOf(n, ratio);
    if b < a {
      NthBelow(b, a, ratio);
    }
  }

  /** The value of a finished block stays the same as the history grows. */
  lemma ValueOfPrefix<T>(finish: Finish<T>, past: seq<Token>, toks: seq<Token>, b: nat, ape: seq<seq<real>>,
                         cfg: Config)
    requires ape != [] && past <= toks && b < BlockOf(|past|, |ape|)
    ensures BlockValue(finish, past, ape, cfg)(b) == BlockValue(finish, toks, ape, cfg)(b)
  {
    NthBelow(b, BlockOf(|past|, |ape|), |ape|);
    assert BlockRows(past, b, ape) == BlockRows(toks, b, ape);
    assert SeedRows(past, b, ape, cfg) == SeedRows(toks, b, ape, cfg);
  }

  /** Storing the blocks a chunk finished, at their rows. */
  ghost function PoolAfterChunk<T>(pool: seq<T>, cap: nat, locs: seq<int>, out: seq<Finished>, finish: Finish<T>,
                                   ape: seq<seq<real>>): (after: seq<T>)
    requires StoresInto(locs, out, cap, ape) && cap <= |pool|
    ensures |after| == |pool|
  {
    Scatter(pool, RowsOf(out, locs, |ape|), ValuesOf(out, finish))
  }

  ghost predicate StoresInto(locs: seq<int>, out: seq<Finished>, cap: nat, ape: seq<seq<real>>) {
    && ape != []
    && (forall k :: 0 <= k < |out| ==> out[k].start < |locs|)
    && (forall k :: 0 <= k < |out| ==> 0 <= RowsOf(out, locs, |ape|)[k] < cap)
  }

  lemma ChunkRows(g: CompressedRows.Geometry, cap: nat, locs: seq<int>, out: seq<Finished>, toks: seq<Token>,
                  first: nat, ape: seq<seq<real>>, cfg: Config)
    requires ape != [] && g.ratio == |ape| && BlocksFrom(out, toks, first, ape, cfg)
    requires CompressedRows.OwnBlocks(g, locs, first + |out|, cap)
    ensures StoresInto(locs, out, cap, ape) && Distinct(RowsOf(out, locs, |ape|))
  {
    NthIsProduct(first + |out|, |ape|);
    RowsAre(out, toks, locs, first, ape, cfg);
    CompressedRows.OwnBlockRows(g, locs, cap, first, |out|);
  }

  /** The request's own blocks: the earlier ones stay, the finished ones are stored. */
  lemma ChunkStoresOwn<T>(g: CompressedRows.Geometry, pool: seq<T>, cap: nat, r: Request, toks: seq<Token>,
                                             out: seq<Finished>, finish: Finish<T>, ape: seq<seq<real>>, cfg: Config)
    requires PoolHolds(g, pool, cap, r, finish, ape, cfg) && r.toks <= toks
    requires BlocksFrom(out, toks, BlockOf(|r.toks|, |ape|), ape, cfg)
    requires BlockOf(|r.toks|, |ape|) + |out| == BlockOf(|toks|, |ape|)
    requires CompressedRows.OwnBlocks(g, r.locs, BlockOf(|toks|, |ape|), cap)
    ensures StoresInto(r.locs, out, cap, ape)
    ensures PoolHolds(g, PoolAfterChunk(pool, cap, r.locs, out, finish, ape), cap, Request(toks, r.locs), finish, ape,
                      cfg)
  {
    ChunkRows(g, cap, r.locs, out, toks, BlockOf(|r.toks|, |ape|), ape, cfg);
    forall b: nat | b < BlockOf(|toks|, |ape|)
      ensures HoldsBlock(g, PoolAfterChunk(pool, cap, r.locs, out, finish, ape), cap, Request(toks, r.locs), b, finish,
                         ape, cfg)
    {
      ChunkStoresBlock(g, pool, cap, r, toks, out, BlockOf(|r.toks|, |ape|), b, finish, ape, cfg);
    }
  }

  lemma ChunkStoresBlock<T>(g: CompressedRows.Geometry, pool: seq<T>, cap: nat, r: Request, toks: seq<Token>,
                            out: seq<Finished>, first: nat, b: nat, finish: Finish<T>,
                            ape: seq<seq<real>>, cfg: Config)
    requires PoolHolds(g, pool, cap, r, finish, ape, cfg) && r.toks <= toks && first == BlockOf(|r.toks|, |ape|)
    requires BlocksFrom(out, toks, first, ape, cfg) && StoresInto(r.locs, out, cap, ape)
    requires CompressedRows.OwnBlocks(g, r.locs, first + |out|, cap) && b < first + |out|
    ensures HoldsBlock(g, PoolAfterChunk(pool, cap, r.locs, out, finish, ape), cap, Request(toks, r.locs), b, finish,
                       ape, cfg)
  {
    NthIsProduct(first + |out|, |ape|);
    RowsAre(out, toks, r.locs, first, ape, cfg);
    ValuesAre(out, toks, first, finish, ape, cfg);
    EarlierHeld(g, pool, cap, r, toks, finish, ape, cfg);
    CompressedRows.PrefillStoresBlocks(g, pool, cap, r.locs, first, |out|, BlockValue(finish, toks, ape, cfg),
                                       ValuesOf(out, finish), b);
  }

  lemma EarlierHeld<T>(g: CompressedRows.Geometry, pool: seq<T>, cap: nat, r: Request, toks: seq<Token>,
                       finish: Finish<T>, ape: seq<seq<real>>, cfg: Config)
    requires PoolHolds(g, pool, cap, r, finish, ape, cfg) && r.toks <= toks
    ensures forall c: nat :: c < BlockOf(|r.toks|, |ape|) ==>
              CompressedRows.StoredAt(g, pool, cap, r.locs, c, BlockValue(finish, toks, ape, cfg)(c))
  {
    forall c: nat | c < BlockOf(|r.toks|, |ape|)
      ensures CompressedRows.StoredAt(g, pool, cap, r.locs, c, BlockValue(finish, toks, ape, cfg)(c))
    {
      assert HoldsBlock(g, pool, cap, r, c, finish, ape, cfg);
      ValueOfPrefix(finish, r.toks, toks, c, ape, cfg);
    }
  }

  /** The full locations a chunk writes blocks at -- from its first unfinished block on -- are no live
      locations of another request. */
  ghost predicate PrivateTo(locs: seq<int>, lo: nat, hi: nat, other: Request) {
    && hi <= |locs| && |other.toks| <= |other.locs|
    && forall p, q :: 0 <= p < |other.toks| && lo <= q < hi ==> other.locs[p] != locs[q]
  }

  /** Two blocks at different locations have different rows. */
  lemma RowsDiffer(g: CompressedRows.Geometry, a: seq<int>, m: nat, i: nat, b: seq<int>, n: nat, j: nat, cap: nat)
    requires CompressedRows.OwnBlocks(g, a, m, cap) && CompressedRows.OwnBlocks(g, b, n, cap) && i < m && j < n
    requires 0 <= Nth(i, g.ratio) < |a| && 0 <= Nth(j, g.ratio) < |b| && a[Nth(i, g.ratio)] != b[Nth(j, g.ratio)]
    ensures CompressedRows.CmpRow(a[Nth(i, g.ratio)], g.ratio) != CompressedRows.CmpRow(b[Nth(j, g.ratio)], g.ratio)
  {
    StartOffset(g, a, m, i, cap);
    StartOffset(g, b, n, j, cap);
    CompressedRows.SameRowSameLoc(a[Nth(i, g.ratio)], b[Nth(j, g.ratio)], g.ratio);
  }

  lemma StartOffset(g: CompressedRows.Geometry, locs: seq<int>, n: nat, b: nat, cap: nat)
    requires CompressedRows.OwnBlocks(g, locs, n, cap) && b < n
    ensures 0 <= Nth(b, g.ratio) < |locs| && locs[Nth(b, g.ratio)] % g.ratio == 0
  {
    NthIsProduct(b, g.ratio);
    NthIsProduct(n, g.ratio);
    NthBelow(b, n, g.ratio);
    InBlock(Nth(b, g.ratio), b, g.ratio);
    CompressedRows.LocOffset(g, locs, n * g.ratio, Nth(b, g.ratio));
  }

  lemma {:induction false} ElsewhereThan(locs: seq<int>, f: Finished, toks: seq<Token>, first: nat, c: nat,
                                         other: Request, b: nat,
                                         ape: seq<seq<real>>, cfg: Config)
    requires ape != [] && IsBlock(f, toks, c, ape, cfg) && first <= c
    requires PrivateTo(locs, Nth(first, |ape|), |toks|, other) && b < BlockOf(|other.toks|, |ape|)
    ensures f.start == Nth(c, |ape|) < |locs| && Nth(b, |ape|) < |other.locs|
    ensures other.locs[Nth(b, |ape|)] != locs[f.start]
  {
    NthBelow(b, BlockOf(|other.toks|, |ape|), |ape|);
    NthAdds(first, c - first, |ape|);
  }

  lemma {:induction false} OtherRowKept(g: CompressedRows.Geometry, cap: nat, locs: seq<int>, out: seq<Finished>,
                                        toks: seq<Token>, first: nat,
                                        other: Request, b: nat, ape: seq<seq<real>>, cfg: Config)
    requires ape != [] && g.ratio == |ape| && BlocksFrom(out, toks, first, ape, cfg)
    requires CompressedRows.OwnBlocks(g, locs, first + |out|, cap)
    requires StoresInto(locs, out, cap, ape) && PrivateTo(locs, Nth(first, |ape|), |toks|, other)
    requires CompressedRows.OwnBlocks(g, other.locs, BlockOf(|other.toks|, |ape|), cap)
             && b < BlockOf(|other.toks|, |ape|)
    ensures 0 <= Nth(b, |ape|) < |other.locs|
    ensures CompressedRows.CmpRow(other.locs[Nth(b, |ape|)], |ape|) !in RowsOf(out, locs, |ape|)
  {
    StartOffset(g, other.locs, BlockOf(|other.toks|, |ape|), b, cap);
    forall k: nat | k < |out|
      ensures RowsOf(out, locs, |ape|)[k] != CompressedRows.CmpRow(other.locs[Nth(b, |ape|)], |ape|)
    {
      ElsewhereThan(locs, out[k], toks, first, first + k, other, b, ape, cfg);
      RowsDiffer(g, locs, first + |out|, first + k, other.locs, BlockOf(|other.toks|, |ape|), b, cap);
    }
  }

  /** Another request's blocks stay. */
  lemma ChunkKeepsOther<T>(g: CompressedRows.Geometry, pool: seq<T>, cap: nat, locs: seq<int>, out: seq<Finished>,
                           toks: seq<Token>, first: nat, other: Request, finish: Finish<T>, ape: seq<seq<real>>,
                           cfg: Config)
    requires PoolHolds(g, pool, cap, other, finish, ape, cfg) && BlocksFrom(out, toks, first, ape, cfg)
    requires first + |out| == BlockOf(|toks|, |ape|) && CompressedRows.OwnBlocks(g, locs, first + |out|, cap)
    requires StoresInto(locs, out, cap, ape) && PrivateTo(locs, Nth(first, |ape|), |toks|, other)
    ensures PoolHolds(g, PoolAfterChunk(pool, cap, locs, out, finish, ape), cap, other, finish, ape, cfg)
  {
    ChunkRows(g, cap, locs, out, toks, first, ape, cfg);
    forall b: nat | b < BlockOf(|other.toks|, |ape|)
      ensures HoldsBlock(g, PoolAfterChunk(pool, cap, locs, out, finish, ape), cap, other, b, finish, ape, cfg)
    {
      assert HoldsBlock(g, pool, cap, other, b, finish, ape, cfg);
      OtherRowKept(g, cap, locs, out, toks, first, other, b, ape, cfg);
      NthIsProduct(b, |ape|);
      ScatterMeaning(pool, RowsOf(out, locs, |ape|), ValuesOf(out, finish));
    }
  }

  // ----- all requests -----------------------------------------------------------------------------

  /** The request can be continued: from the page of its last token, when it has one. */
  ghost predicate CanContinue(ring: seq<Row>, r: Request, ape: seq<seq<real>>, cfg: Config) {
    Shaped(cfg, ape) && (r.toks != [] ==> CarryAt(ring, r.toks[|r.toks| - 1].slot, r.toks, |r.toks|, ape, cfg))
  }

  ghost predicate Served<T>(ring: seq<Row>, pool: seq<T>, r: Request, g: CompressedRows.Geometry, cap: nat,
                            finish: Finish<T>, ape: seq<seq<real>>, cfg: Config) {
    CanContinue(ring, r, ape, cfg) && PoolHolds(g, pool, cap, r, finish, ape, cfg)
  }

  ghost predicate Continuing(ring: seq<Row>, reqs: seq<Request>, ape: seq<seq<real>>, cfg: Config) {
    forall i :: 0 <= i < |reqs| ==> CanContinue(ring, reqs[i], ape, cfg)
  }

  ghost predicate Holding<T>(pool: seq<T>, reqs: seq<Request>, g: CompressedRows.Geometry, cap: nat, finish: Finish<T>,
                             ape: seq<seq<real>>, cfg: Config) {
    forall i :: 0 <= i < |reqs| ==> PoolHolds(g, pool, cap, reqs[i], finish, ape, cfg)
  }

  /** Every request's finished blocks are readable, and every request can be continued. */
  ghost predicate Serving<T>(ring: seq<Row>, pool: seq<T>, reqs: seq<Request>, g: CompressedRows.Geometry, cap: nat,
                             finish: Finish<T>, ape: seq<seq<real>>, cfg: Config) {
    Continuing(ring, reqs, ape, cfg) && Holding(pool, reqs, g, cap, finish, ape, cfg)
  }

  /** A scheduled chunk: the allocator has put its tokens on window pages of their own, none of them
      the page another request continues from, and its blocks at locations of its own. */
  datatype Job = Job(req: nat, added: seq<Token>, capture: bool)

  ghost predicate JobOk(reqs: seq<Request>, job: Job, g: CompressedRows.Geometry, cap: nat, size: nat,
                        ape: seq<seq<real>>, cfg: Config) {
    && Shaped(cfg, ape) && job.req < |reqs| && job.added != []
    && var r := reqs[job.req];
       var end := |r.toks| + |job.added|;
       && PageWise(|r.toks|, job.added, cfg.page) && SlotsFit(job.added, cfg, size)
       && CompressedRows.OwnBlocks(g, r.locs, BlockOf(end, |ape|), cap)
       && forall j :: 0 <= j < |reqs| && j != job.req ==>
            && OffPages(reqs[j], job.added, cfg)
            && PrivateTo(r.locs, BlockStart(|r.toks|, |ape|), end, reqs[j])
  }

  ghost predicate OffPages(other: Request, added: seq<Token>, cfg: Config)
    requires cfg.page > 0
  {
    other.toks != [] ==> forall i :: 0 <= i < |added| ==>
      added[i].slot / cfg.page != other.toks[|other.toks| - 1].slot / cfg.page
  }

  function AfterJob(reqs: seq<Request>, job: Job): (r: seq<Request>)
    requires job.req < |reqs|
    ensures |r| == |reqs|
  {
    reqs[job.req := Request(reqs[job.req].toks + job.added, reqs[job.req].locs)]
  }

  lemma OtherContinues(before: seq<Row>, after: seq<Row>, other: Request, added: seq<Token>, ape: seq<seq<real>>,
                       cfg: Config)
    requires CanContinue(before, other, ape, cfg) && OffPages(other, added, cfg)
    requires |before| == |after| && OthersKept(before, after, added, cfg)
    ensures CanContinue(after, other, ape, cfg)
  {
  }

  lemma ContinueFrom(ring: seq<Row>, r: Request, toks: seq<Token>, ape: seq<seq<real>>, cfg: Config)
    requires CanContinue(ring, r, ape, cfg) && r.toks != [] && r.toks <= toks
    ensures CarryAt(ring, r.toks[|r.toks| - 1].slot, toks, |r.toks|, ape, cfg)
  {
    CarryOfPrefix(GetBlock(ring, PageBase(r.toks[|r.toks| - 1].slot, cfg), cfg.ringSize), r.toks, toks, |r.toks|, ape,
                  cfg);
  }

  /** What the compressor half of a job has done. */
  ghost predicate Compressed(before: seq<Row>, ring: seq<Row>, r: Request, added: seq<Token>, out: seq<Finished>,
                             ape: seq<seq<real>>, cfg: Config) {
    && Shaped(cfg, ape) && added != [] && |before| == |ring|
    && OthersKept(before, ring, added, cfg)
    && out == FinishedIn(r.toks + added, |r.toks|, |r.toks| + |added|, ape, cfg)
    && CarryAt(ring, added[|added| - 1].slot, r.toks + added, |r.toks| + |added|, ape, cfg)
  }

  /** The compressor half of a job: reset or resume, and finish the chunk's blocks. */
  method CompressChunk(reg: Register, ring: CompressStateRing, r: Request, added: seq<Token>, capture: bool,
                       ape: seq<seq<real>>)
    returns (out: seq<Finished>)
    requires reg.Valid(ape) && reg.cfg.page % reg.cfg.ratio == 0
    requires ring.item == reg.cfg.item && ring.buffer != reg.state
    requires CanContinue(ring.buffer[..], r, ape, reg.cfg) && added != []
    requires PageWise(|r.toks|, added, reg.cfg.page) && SlotsFit(added, reg.cfg, ring.buffer.Length)
    modifies reg.state, ring.buffer
    ensures Compressed(old(ring.buffer[..]), ring.buffer[..], r, added, out, ape, reg.cfg)
    ensures Resumable(ring.buffer[..], |r.toks|, added, |r.toks + added|, r.toks + added, ape, reg.cfg)
  {
    var start, tailSlot := |r.toks|, 0;
    var toks := r.toks + added;
    assert added == toks[start..];
    if start == 0 {
      reg.Reset();
      ResetIsCarry(reg.state[..], toks, ape, reg.cfg);
    } else {
      tailSlot := r.toks[start - 1].slot;
      ContinueFrom(ring.buffer[..], r, toks, ape, reg.cfg);
    }
    out := Prefill(reg, ring, start, added, tailSlot, capture, toks, ape);
    CompressedIntro(old(ring.buffer[..]), ring.buffer[..], r, added, toks, out, ape, reg.cfg);
  }

  lemma CompressedIntro(before: seq<Row>, ring: seq<Row>, r: Request, added: seq<Token>, toks: seq<Token>,
                        out: seq<Finished>, ape: seq<seq<real>>, cfg: Config)
    requires Shaped(cfg, ape) && added != [] && |before| == |ring| && toks == r.toks + added
    requires OthersKept(before, ring, added, cfg) && out == FinishedIn(toks, |r.toks|, |toks|, ape, cfg)
    requires CarryAt(ring, SlotAt(|toks|, |r.toks|, added), toks, |toks|, ape, cfg)
    ensures Compressed(before, ring, r, added, out, ape, cfg)
  {
    assert SlotAt(|toks|, |r.toks|, added) == added[|added| - 1].slot && |toks| == |r.toks| + |added|;
  }

  /** The blocks a job has finished, and where they go. */
  ghost predicate NewBlocks(r: Request, toks: seq<Token>, out: seq<Finished>, g: CompressedRows.Geometry, cap: nat,
                            ape: seq<seq<real>>, cfg: Config) {
    && ape != [] && g.ratio == |ape| && r.toks <= toks
    && BlocksFrom(out, toks, BlockOf(|r.toks|, |ape|), ape, cfg)
    && BlockOf(|r.toks|, |ape|) + |out| == BlockOf(|toks|, |ape|)
    && CompressedRows.OwnBlocks(g, r.locs, BlockOf(|toks|, |ape|), cap)
    && StoresInto(r.locs, out, cap, ape)
  }

  lemma {:induction false} JobFinishes(before: seq<Row>, ring: seq<Row>, r: Request, added: seq<Token>,
                                       toks: seq<Token>,
                                       out: seq<Finished>, g: CompressedRows.Geometry, cap: nat, ape: seq<seq<real>>,
                                       cfg: Config)
    requires Compressed(before, ring, r, added, out, ape, cfg) && toks == r.toks + added && g.ratio == |ape|
    requires CompressedRows.OwnBlocks(g, r.locs, BlockOf(|r.toks| + |added|, |ape|), cap)
    ensures NewBlocks(r, toks, out, g, cap, ape, cfg)
  {
    FinishedFrom(toks, |r.toks|, |toks|, ape, cfg);
    ChunkRows(g, cap, r.locs, out, toks, BlockOf(|r.toks|, |ape|), ape, cfg);
  }

  /** The pool half: of the request itself, and of another one. */
  lemma PoolAfterJob<T>(pool: seq<T>, reqs: seq<Request>, job: Job, toks: seq<Token>, out: seq<Finished>,
                        r': Request, g: CompressedRows.Geometry, cap: nat, finish: Finish<T>,
                        ape: seq<seq<real>>, cfg: Config, i: nat)
    requires i < |reqs| && job.req < |reqs| && r' == AfterJob(reqs, job)[i] && toks == reqs[job.req].toks + job.added
    requires NewBlocks(reqs[job.req], toks, out, g, cap, ape, cfg) && PoolHolds(g, pool, cap, reqs[i], finish, ape, cfg)
    requires i != job.req ==> PrivateTo(reqs[job.req].locs, BlockStart(|reqs[job.req].toks|, |ape|), |toks|, reqs[i])
    ensures PoolHolds(g, PoolAfterChunk(pool, cap, reqs[job.req].locs, out, finish, ape), cap, r', finish, ape, cfg)
  {
    var r := reqs[job.req];
    if i == job.req {
      ChunkStoresOwn(g, pool, cap, r, toks, out, finish, ape, cfg);
      assert r' == Request(toks, r.locs);
    } else {
      assert r' == reqs[i];
      ChunkKeepsOther(g, pool, cap, r.locs, out, toks, BlockOf(|r.toks|, |ape|), reqs[i], finish, ape, cfg);
    }
  }

  /** The carry half: of the request itself, and of another one. */
  lemma OwnContinues(before: seq<Row>, ring: seq<Row>, r: Request, added: seq<Token>, out: seq<Finished>,
                     ape: seq<seq<real>>, cfg: Config)
    requires Compressed(before, ring, r, added, out, ape, cfg)
    ensures CanContinue(ring, Request(r.toks + added, r.locs), ape, cfg)
  {
    LastOf(r.toks, added);
    assert CarryAt(ring, added[|added| - 1].slot, r.toks + added, |r.toks + added|, ape, cfg);
  }

  lemma LastOf(past: seq<Token>, added: seq<Token>)
    requires added != []
    ensures |past + added| == |past| + |added|
    ensures (past + added)[|past + added| - 1] == added[|added| - 1]
  {
  }

  lemma RingAfterJob(before: seq<Row>, after: seq<Row>, reqs: seq<Request>, job: Job, out: seq<Finished>,
                     r': Request, ape: seq<seq<real>>, cfg: Config, i: nat)
    requires i < |reqs| && job.req < |reqs| && r' == AfterJob(reqs, job)[i]
    requires Compressed(before, after, reqs[job.req], job.added, out, ape, cfg)
    requires CanContinue(before, reqs[i], ape, cfg) && (i != job.req ==> OffPages(reqs[i], job.added, cfg))
    ensures CanContinue(after, r', ape, cfg)
  {
    if i == job.req {
      OwnContinues(before, after, reqs[i], job.added, out, ape, cfg);
      assert r' == Request(reqs[i].toks + job.added, reqs[i].locs);
    } else {
      assert r' == reqs[i];
      OtherContinues(before, after, reqs[i], job.added, ape, cfg);
    }
  }

  lemma AllContinueAfterJob(before: seq<Row>, ring: seq<Row>, reqs: seq<Request>, job: Job,
                            out: seq<Finished>, g: CompressedRows.Geometry, cap: nat,
                            ape: seq<seq<real>>, cfg: Config)
    requires JobOk(reqs, job, g, cap, |ring|, ape, cfg)
    requires Continuing(before, reqs, ape, cfg)
    requires Compressed(before, ring, reqs[job.req], job.added, out, ape, cfg)
    ensures Continuing(ring, AfterJob(reqs, job), ape, cfg)
  {
    forall i: nat | i < |reqs| ensures CanContinue(ring, AfterJob(reqs, job)[i], ape, cfg) {
      RingAfterJob(before, ring, reqs, job, out, AfterJob(reqs, job)[i], ape, cfg, i);
    }
  }

  lemma AllHeldAfterJob<T>(pool: seq<T>, reqs: seq<Request>, job: Job, toks: seq<Token>, out: seq<Finished>,
                           size: nat, g: CompressedRows.Geometry, cap: nat, finish: Finish<T>,
                           ape: seq<seq<real>>, cfg: Config)
    requires JobOk(reqs, job, g, cap, size, ape, cfg) && toks == reqs[job.req].toks + job.added && cap <= |pool|
    requires Holding(pool, reqs, g, cap, finish, ape, cfg)
    requires NewBlocks(reqs[job.req], toks, out, g, cap, ape, cfg)
    ensures Holding(PoolAfterChunk(pool, cap, reqs[job.req].locs, out, finish, ape), AfterJob(reqs, job), g, cap,
                    finish, ape, cfg)
  {
    forall i: nat | i < |reqs|
      ensures PoolHolds(g, PoolAfterChunk(pool, cap, reqs[job.req].locs, out, finish, ape), cap, AfterJob(reqs, job)[i],
                        finish, ape, cfg)
    {
      PoolAfterJob(pool, reqs, job, toks, out, AfterJob(reqs, job)[i], g, cap, finish, ape, cfg, i);
    }
  }

  lemma JobBlocks<T>(before: seq<Row>, ring: seq<Row>, pool: seq<T>, reqs: seq<Request>, job: Job,
                     toks: seq<Token>, out: seq<Finished>, g: CompressedRows.Geometry, cap: nat,
                     finish: Finish<T>, ape: seq<seq<real>>, cfg: Config)
    requires JobOk(reqs, job, g, cap, |ring|, ape, cfg) && toks == reqs[job.req].toks + job.added
    requires PoolHolds(g, pool, cap, reqs[job.req], finish, ape, cfg)
    requires Compressed(before, ring, reqs[job.req], job.added, out, ape, cfg)
    ensures NewBlocks(reqs[job.req], toks, out, g, cap, ape, cfg) && cap <= |pool|
    ensures StoresInto(reqs[job.req].locs, out, cap, ape)
  {
    JobFinishes(before, ring, reqs[job.req], job.added, toks, out, g, cap, ape, cfg);
  }

  lemma JobServes<T>(before: seq<Row>, ring: seq<Row>, pool: seq<T>, reqs: seq<Request>, job: Job,
                     toks: seq<Token>, out: seq<Finished>, g: CompressedRows.Geometry, cap: nat,
                     finish: Finish<T>, ape: seq<seq<real>>, cfg: Config)
    requires JobOk(reqs, job, g, cap, |ring|, ape, cfg) && toks == reqs[job.req].toks + job.added
    requires Serving(before, pool, reqs, g, cap, finish, ape, cfg)
    requires Compressed(before, ring, reqs[job.req], job.added, out, ape, cfg)
    ensures StoresInto(reqs[job.req].locs, out, cap, ape) && cap <= |pool|
    ensures Serving(ring, PoolAfterChunk(pool, cap, reqs[job.req].locs, out, finish, ape), AfterJob(reqs, job), g, cap,
                    finish, ape, cfg)
  {
    assert PoolHolds(g, pool, cap, reqs[job.req], finish, ape, cfg);
    JobBlocks(before, ring, pool, reqs, job, toks, out, g, cap, finish, ape, cfg);
    AllContinueAfterJob(before, ring, reqs, job, out, g, cap, ape, cfg);
    AllHeldAfterJob(pool, reqs, job, toks, out, |ring|, g, cap, finish, ape, cfg);
  }

  /** The request as far as its boundary `x`, as the prefix tree keeps it. */
  ghost function UpTo(r: Request, job: Job, x: nat): Request {
    Request((r.toks + job.added)[..Min(x, |r.toks| + |job.added|)], r.locs)
  }

  /** Every window page the job has closed can be hit. */
  ghost predicate ClosedServed<T>(ring: seq<Row>, pool: seq<T>, r: Request, job: Job, g: CompressedRows.Geometry,
                                  cap: nat, finish: Finish<T>, ape: seq<seq<real>>, cfg: Config)
    requires cfg.page > 0
  {
    forall x: nat :: IsBoundary(x, |r.toks|, |r.toks| + |job.added|, cfg.page) ==>
      Served(ring, pool, UpTo(r, job, x), g, cap, finish, ape, cfg)
  }

  lemma BoundaryInLocations(g: CompressedRows.Geometry, locs: seq<int>, n: nat, cap: nat, x: nat, cfg: Config)
    requires cfg.Valid() && cfg.page % cfg.ratio == 0 && x % cfg.page == 0 && x <= n
    requires g.ratio == cfg.ratio && CompressedRows.OwnBlocks(g, locs, BlockOf(n, cfg.ratio), cap)
    ensures x <= |locs|
  {
    PageIsBlocks(x, cfg);
    NthIsProduct(BlockOf(n, cfg.ratio), cfg.ratio);
    BlockOfMonotone(x, n, cfg.ratio);
    NthAdds(BlockOf(x, cfg.ratio), BlockOf(n, cfg.ratio) - BlockOf(x, cfg.ratio), cfg.ratio);
  }

  lemma ClosedPageServed<T>(ring: seq<Row>, pool: seq<T>, r: Request, job: Job, g: CompressedRows.Geometry,
                                               cap: nat, finish: Finish<T>, ape: seq<seq<real>>, cfg: Config)
    requires Shaped(cfg, ape) && cfg.page % cfg.ratio == 0
    requires Resumable(ring, |r.toks|, job.added, |r.toks + job.added|, r.toks + job.added, ape, cfg)
    requires PoolHolds(g, pool, cap, Request(r.toks + job.added, r.locs), finish, ape, cfg)
    ensures ClosedServed(ring, pool, r, job, g, cap, finish, ape, cfg)
  {
    var toks := r.toks + job.added;
    forall x: nat | IsBoundary(x, |r.toks|, |r.toks| + |job.added|, cfg.page)
      ensures Served(ring, pool, UpTo(r, job, x), g, cap, finish, ape, cfg)
    {
      assert CarryAt(ring, SlotAt(x, |r.toks|, job.added), toks, x, ape, cfg);
      assert toks[x - 1] == job.added[x - 1 - |r.toks|];
      BoundaryInLocations(g, r.locs, |toks|, cap, x, cfg);
      PrefixHitServed(ring, pool, Request(toks, r.locs), x, r.locs, g, cap, finish, ape, cfg);
    }
  }

  /** One scheduled chunk: compress, then store the finished blocks at their rows. */
  method ServeChunk<T>(reg: Register, ring: CompressStateRing, pool: array<T>, reqs: seq<Request>, job: Job,
                       finish: Finish<T>, ghost g: CompressedRows.Geometry, ghost cap: nat, ape: seq<seq<real>>)
    returns (reqs': seq<Request>)
    requires reg.Valid(ape) && reg.cfg.page % reg.cfg.ratio == 0
    requires ring.item == reg.cfg.item && ring.buffer != reg.state
    requires (pool as object) != ring.buffer && (pool as object) != reg.state
    requires JobOk(reqs, job, g, cap, ring.buffer.Length, ape, reg.cfg)
    requires Serving(ring.buffer[..], pool[..], reqs, g, cap, finish, ape, reg.cfg)
    modifies reg.state, ring.buffer, pool
    ensures reqs' == AfterJob(reqs, job)
    ensures Serving(ring.buffer[..], pool[..], reqs', g, cap, finish, ape, reg.cfg)
    ensures ClosedServed(ring.buffer[..], pool[..], reqs[job.req], job, g, cap, finish, ape, reg.cfg)
  {
    var r := reqs[job.req];
    assert CanContinue(ring.buffer[..], r, ape, reg.cfg);
    ghost var ringBefore, poolBefore := ring.buffer[..], pool[..];
    var out := CompressChunk(reg, ring, r, job.added, job.capture, ape);
    assert pool[..] == poolBefore;
    JobServes(ringBefore, ring.buffer[..], poolBefore, reqs, job, r.toks + job.added, out, g, cap, finish, ape,
              reg.cfg);
    CompressedRows.ScatterCompressed(pool, RowsOf(out, r.locs, |ape|), ValuesOf(out, finish));
    reqs' := AfterJob(reqs, job);
    assert PoolHolds(g, pool[..], cap, reqs'[job.req], finish, ape, reg.cfg);
    ClosedPageServed(ring.buffer[..], pool[..], r, job, g, cap, finish, ape, reg.cfg);
  }

  /** The jobs of a schedule, each acceptable where it comes. */
  ghost predicate ScheduleOk(reqs: seq<Request>, jobs: seq<Job>, g: CompressedRows.Geometry, cap: nat, size: nat,
                             ape: seq<seq<real>>, cfg: Config)
    decreases |jobs|
  {
    jobs != [] ==>
      && JobOk(reqs, jobs[0], g, cap, size, ape, cfg)
      && ScheduleOk(AfterJob(reqs, jobs[0]), jobs[1..], g, cap, size, ape, cfg)
  }

  ghost function AfterJobs(reqs: seq<Request>, jobs: seq<Job>): (r: seq<Request>)
    requires forall k :: 0 <= k < |jobs| ==> jobs[k].req < |reqs|
    ensures |r| == |reqs|
    decreases |jobs|
  {
    if jobs == [] then reqs else AfterJobs(AfterJob(reqs, jobs[0]), jobs[1..])
  }

  lemma ScheduleIndices(reqs: seq<Request>, jobs: seq<Job>, g: CompressedRows.Geometry, cap: nat, size: nat,
                        ape: seq<seq<real>>, cfg: Config)
    requires ScheduleOk(reqs, jobs, g, cap, size, ape, cfg)
    ensures forall k :: 0 <= k < |jobs| ==> jobs[k].req < |reqs|
    decreases |jobs|
  {
    if jobs != [] {
      ScheduleIndices(AfterJob(reqs, jobs[0]), jobs[1..], g, cap, size, ape, cfg);
      assert forall k :: 1 <= k < |jobs| ==> jobs[k] == jobs[1..][k - 1];
    }
  }

  /** Continuous batching: over any interleaving of the chunks of any requests through one register,
      one state ring and one pool, every request's finished blocks stay readable at their rows, with
      the values of its own tokens alone, and every request stays resumable. */
  method ServeSchedule<T>(reg: Register, ring: CompressStateRing, pool: array<T>, reqs: seq<Request>, jobs: seq<Job>,
                          finish: Finish<T>, ghost g: CompressedRows.Geometry, ghost cap: nat, ape: seq<seq<real>>)
    returns (reqs': seq<Request>)
    requires reg.Valid(ape) && reg.cfg.page % reg.cfg.ratio == 0
    requires ring.item == reg.cfg.item && ring.buffer != reg.state
    requires (pool as object) != ring.buffer && (pool as object) != reg.state
    requires ScheduleOk(reqs, jobs, g, cap, ring.buffer.Length, ape, reg.cfg)
    requires Serving(ring.buffer[..], pool[..], reqs, g, cap, finish, ape, reg.cfg)
    modifies reg.state, ring.buffer, pool
    ensures forall k :: 0 <= k < |jobs| ==> jobs[k].req < |reqs|
    ensures reqs' == AfterJobs(reqs, jobs)
    ensures Serving(ring.buffer[..], pool[..], reqs', g, cap, finish, ape, reg.cfg)
  {
    ScheduleIndices(reqs, jobs, g, cap, ring.buffer.Length, ape, reg.cfg);
    reqs' := reqs;
    var todo := jobs;
    while todo != []
      invariant ScheduleOk(reqs', todo, g, cap, ring.buffer.Length, ape, reg.cfg)
      invariant Serving(ring.buffer[..], pool[..], reqs', g, cap, finish, ape, reg.cfg)
      invariant |reqs'| == |reqs| && forall k :: 0 <= k < |todo| ==> todo[k].req < |reqs|
      invariant AfterJobs(reqs', todo) == AfterJobs(reqs, jobs)
      decreases |todo|
    {
      reqs' := ServeChunk(reg, ring, pool, reqs', todo[0], finish, g, cap, ape);
      todo := todo[1..];
    }
  }

  // ----- new requests -----------------------------------------------------------------------------

  lemma NothingYet(ratio: nat)
    requires ratio > 0
    ensures BlockOf(0, ratio) == 0
  {
    BlockOfUnique(0, 0, ratio);
  }

  /** A request without tokens is served. */
  lemma NewRequestServed<T>(ring: seq<Row>, pool: seq<T>, locs: seq<int>, g: CompressedRows.Geometry, cap: nat,
                            finish: Finish<T>, ape: seq<seq<real>>, cfg: Config)
    requires Shaped(cfg, ape) && g.Valid() && g.ratio == |ape| && cap <= |pool|
    ensures Served(ring, pool, Request([], locs), g, cap, finish, ape, cfg)
  {
    NothingYet(|ape|);
  }

  /** A prefix hit is served by value: a request that shares the first `x` tokens of another and their
      locations is served as soon as the page of token `x - 1` holds the carry there -- as every page a
      prefill has closed does. */
  lemma PrefixHitServed<T>(ring: seq<Row>, pool: seq<T>, r: Request, x: nat, locs: seq<int>, g: CompressedRows.Geometry,
                           cap: nat, finish: Finish<T>, ape: seq<seq<real>>, cfg: Config)
    requires Shaped(cfg, ape) && PoolHolds(g, pool, cap, r, finish, ape, cfg)
    requires 0 < x <= |r.toks| && x <= |r.locs| && x <= |locs| && locs[..x] == r.locs[..x]
    requires CarryAt(ring, r.toks[x - 1].slot, r.toks, x, ape, cfg)
    ensures Served(ring, pool, Request(r.toks[..x], locs), g, cap, finish, ape, cfg)
  {
    var hit := Request(r.toks[..x], locs);
    CarryOfPrefix(GetBlock(ring, PageBase(r.toks[x - 1].slot, cfg), cfg.ringSize), hit.toks, r.toks, x, ape, cfg);
    BlockOfMonotone(x, |r.toks|, |ape|);
    SharedLocations(g, r.locs, locs, x, BlockOf(|r.toks|, |ape|), cap);
    forall b: nat | b < BlockOf(x, |ape|) ensures HoldsBlock(g, pool, cap, hit, b, finish, ape, cfg) {
      assert HoldsBlock(g, pool, cap, r, b, finish, ape, cfg);
      ValueOfPrefix(finish, hit.toks, r.toks, b, ape, cfg);
      NthIsProduct(b, |ape|);
      NthBelow(b, BlockOf(x, |ape|), |ape|);
      assert locs[Nth(b, |ape|)] == locs[..x][Nth(b, |ape|)] == r.locs[Nth(b, |ape|)];
    }
  }

  /** The blocks of a shared prefix are the request's own blocks too. */
  lemma SharedLocations(g: CompressedRows.Geometry, a: seq<int>, b: seq<int>, x: nat, n: nat, cap: nat)
    requires CompressedRows.OwnBlocks(g, a, n, cap) && x <= |a| && x <= |b| && b[..x] == a[..x]
    requires g.ratio > 0 && BlockOf(x, g.ratio) <= n
    ensures CompressedRows.OwnBlocks(g, b, BlockOf(x, g.ratio), cap)
  {
    var m := BlockOf(x, g.ratio);
    NthIsProduct(m, g.ratio);
    NthIsProduct(n, g.ratio);
    if m < n {
      NthBelow(m, n, g.ratio);
    }
    var len := m * g.ratio;
    forall p | 0 <= p < len ensures b[p] == a[p] && CompressedRows.CmpRow(b[p], g.ratio) < cap {
      assert b[..x][p] == a[..x][p];
    }
    SharedPages(g.page, a, b, len);
    assert b[..len] == a[..n * g.ratio][..len];
  }

  lemma SharedPages(page: nat, a: seq<int>, b: seq<int>, len: nat)
    requires page > 0 && len <= |b| && Paged(page, a, len) && forall p :: 0 <= p < len ==> b[p] == a[p]
    ensures Paged(page, b, len)
  {
    forall p: nat | p < len ensures PagedAt(page, b, p) {
      assert PagedAt(page, a, p);
      CompressedRows.RoundDown(p, page);
    }
  }

  // ----- requests re-pointed to a cached copy -----------------------------------------------------

  /** The value of a block does not depend on where its tokens sit. */
  lemma SameValue<T>(finish: Finish<T>, a: seq<Token>, b: seq<Token>, blk: nat, ape: seq<seq<real>>, cfg: Config)
    requires SameContent(a, b)
    ensures BlockValue(finish, a, ape, cfg)(blk) == BlockValue(finish, b, ape, cfg)(blk)
  {
    if HasBlock(a, blk, |ape|) {
      SameInput(a, b, blk, ape, cfg);
    }
  }

  /** A request whose first `x` positions are re-pointed to those of a cached copy. */
  ghost function Repointed(r: Request, copy: Request, x: nat): Request
    requires x <= |r.toks| && x <= |copy.toks| && x <= |r.locs| && x <= |copy.locs|
  {
    Request(copy.toks[..x] + r.toks[x..], copy.locs[..x] + r.locs[x..])
  }

  /** The copy holds the same tokens up to a page boundary `x`, and the pages it brings are none of the
      request's own further on; a request re-pointed as a whole goes on from the copy's last page. */
  ghost predicate CanRepoint(r: Request, copy: Request, x: nat, g: CompressedRows.Geometry, cap: nat,
                             ape: seq<seq<real>>, cfg: Config) {
    && ape != [] && g.ratio == |ape| && x % |ape| == 0
    && x <= |r.toks| && x <= |copy.toks| && x <= |r.locs| && x <= |copy.locs|
    && SameContent(copy.toks[..x], r.toks[..x])
    && (x == |r.toks| ==> x == |copy.toks|)
    && CompressedRows.OwnBlocks(g, Repointed(r, copy, x).locs, BlockOf(|r.toks|, |ape|), cap)
  }

  /** The copy's locations and slots up to `x`, the request's own from there on. */
  lemma RepointedMeaning(r: Request, copy: Request, x: nat, p: nat)
    requires x <= |r.toks| && x <= |copy.toks| && x <= |r.locs| && x <= |copy.locs|
    ensures var to := Repointed(r, copy, x);
            && |to.toks| == |r.toks| && |to.locs| == |r.locs|
            && (p < |r.toks| ==> to.toks[p] == if p < x then copy.toks[p] else r.toks[p])
            && (p < |r.locs| ==> to.locs[p] == if p < x then copy.locs[p] else r.locs[p])
  {
  }

  lemma RepointedContent(r: Request, copy: Request, x: nat)
    requires x <= |r.toks| && x <= |copy.toks| && x <= |r.locs| && x <= |copy.locs|
    requires SameContent(copy.toks[..x], r.toks[..x])
    ensures SameContent(r.toks, Repointed(r, copy, x).toks)
  {
    var toks := Repointed(r, copy, x).toks;
    forall i | 0 <= i < |r.toks| ensures r.toks[i].kv == toks[i].kv && r.toks[i].score == toks[i].score {
      if i < x {
        assert copy.toks[..x][i].kv == r.toks[..x][i].kv && copy.toks[..x][i].score == r.toks[..x][i].score;
      }
    }
  }

  lemma ContentContinues(ring: seq<Row>, r: Request, other: Request, ape: seq<seq<real>>, cfg: Config)
    requires CanContinue(ring, r, ape, cfg) && SameContent(r.toks, other.toks)
    requires r.toks != [] ==> other.toks[|r.toks| - 1].slot == r.toks[|r.toks| - 1].slot
    ensures CanContinue(ring, other, ape, cfg)
  {
    if r.toks != [] {
      var slot := r.toks[|r.toks| - 1].slot;
      SameCarry(GetBlock(ring, PageBase(slot, cfg), cfg.ringSize), r.toks, other.toks, |r.toks|, ape, cfg);
    }
  }

  lemma RepointedContinues(ring: seq<Row>, r: Request, copy: Request, x: nat, ape: seq<seq<real>>, cfg: Config)
    requires CanContinue(ring, r, ape, cfg) && CanContinue(ring, copy, ape, cfg)
    requires x <= |r.toks| && x <= |copy.toks| && x <= |r.locs| && x <= |copy.locs|
    requires SameContent(copy.toks[..x], r.toks[..x]) && (x == |r.toks| ==> x == |copy.toks|)
    ensures CanContinue(ring, Repointed(r, copy, x), ape, cfg)
  {
    var to := Repointed(r, copy, x);
    RepointedContent(r, copy, x);
    if x == |r.toks| {
      assert to.toks == copy.toks;
      ContentContinues(ring, copy, to, ape, cfg);
    } else {
      ContentContinues(ring, r, to, ape, cfg);
    }
  }

  /** Blocks end at or before `x`, or start at or after it. */
  lemma BlockEitherSide(b: nat, x: nat, n: nat, ratio: nat)
    requires ratio > 0 && x % ratio == 0 && x <= n && b < BlockOf(n, ratio)
    ensures Nth(b, ratio) + ratio <= n
    ensures if b < BlockOf(x, ratio) then Nth(b, ratio) + ratio <= x else x <= Nth(b, ratio)
  {
    AlignedStart(x, ratio);
    NthBelow(b, BlockOf(n, ratio), ratio);
    if b < BlockOf(x, ratio) {
      NthBelow(b, BlockOf(x, ratio), ratio);
    } else {
      NthAdds(BlockOf(x, ratio), b - BlockOf(x, ratio), ratio);
    }
  }

  /** A block another request holds at the same location, with the same value. */
  lemma SharedBlock<T>(g: CompressedRows.Geometry, pool: seq<T>, cap: nat, r: Request, other: Request, b: nat,
                       finish: Finish<T>, ape: seq<seq<real>>, cfg: Config)
    requires g.Valid() && cap <= |pool| && HoldsBlock(g, pool, cap, r, b, finish, ape, cfg)
    requires 0 <= b * g.ratio < |r.locs| && b * g.ratio < |other.locs| && other.locs[b * g.ratio] == r.locs[b * g.ratio]
    requires BlockValue(finish, other.toks, ape, cfg)(b) == BlockValue(finish, r.toks, ape, cfg)(b)
    ensures HoldsBlock(g, pool, cap, other, b, finish, ape, cfg)
  {
  }

  lemma RepointedValue<T>(r: Request, copy: Request, x: nat, b: nat, finish: Finish<T>, ape: seq<seq<real>>,
                          cfg: Config)
    requires ape != [] && x <= |r.toks| && x <= |copy.toks| && x <= |r.locs| && x <= |copy.locs|
    requires SameContent(copy.toks[..x], r.toks[..x])
    ensures BlockValue(finish, Repointed(r, copy, x).toks, ape, cfg)(b) == BlockValue(finish, r.toks, ape, cfg)(b)
    ensures b < BlockOf(x, |ape|) ==>
              BlockValue(finish, Repointed(r, copy, x).toks, ape, cfg)(b) == BlockValue(finish, copy.toks, ape, cfg)(b)
  {
    var toks := Repointed(r, copy, x).toks;
    RepointedContent(r, copy, x);
    SameValue(finish, r.toks, toks, b, ape, cfg);
    if b < BlockOf(x, |ape|) {
      ValueOfPrefix(finish, copy.toks[..x], copy.toks, b, ape, cfg);
      ValueOfPrefix(finish, copy.toks[..x], toks, b, ape, cfg);
    }
  }

  lemma RepointedLocation(r: Request, copy: Request, x: nat, b: nat, at: nat, ratio: nat)
    requires ratio > 0 && x % ratio == 0 && b < BlockOf(|r.toks|, ratio) && at == b * ratio < |r.locs|
    requires x <= |r.toks| && x <= |copy.toks| && x <= |r.locs| && x <= |copy.locs|
    ensures at < |Repointed(r, copy, x).locs|
    ensures if b < BlockOf(x, ratio) then at < |copy.locs| && Repointed(r, copy, x).locs[at] == copy.locs[at]
            else Repointed(r, copy, x).locs[at] == r.locs[at]
  {
    BlockEitherSide(b, x, |r.toks|, ratio);
    NthIsProduct(b, ratio);
  }

  lemma RepointedBlock<T>(pool: seq<T>, r: Request, copy: Request, x: nat, b: nat, to: Request,
                                             g: CompressedRows.Geometry, cap: nat, finish: Finish<T>,
                                             ape: seq<seq<real>>, cfg: Config)
    requires g.Valid() && cap <= |pool| && ape != [] && g.ratio == |ape| && x % |ape| == 0
    requires x <= |r.toks| && x <= |copy.toks| && x <= |r.locs| && x <= |copy.locs| && to == Repointed(r, copy, x)
    requires SameContent(copy.toks[..x], r.toks[..x]) && b < BlockOf(|r.toks|, |ape|)
    requires 0 <= b * g.ratio < |r.locs| && HoldsBlock(g, pool, cap, r, b, finish, ape, cfg)
    requires b < BlockOf(x, |ape|) ==> HoldsBlock(g, pool, cap, copy, b, finish, ape, cfg)
    ensures HoldsBlock(g, pool, cap, to, b, finish, ape, cfg)
  {
    RepointedLocation(r, copy, x, b, b * g.ratio, g.ratio);
    RepointedValue(r, copy, x, b, finish, ape, cfg);
    if b < BlockOf(x, |ape|) {
      SharedBlock(g, pool, cap, copy, to, b, finish, ape, cfg);
    } else {
      SharedBlock(g, pool, cap, r, to, b, finish, ape, cfg);
    }
  }

  /** Committing a prefix re-points a running request's first pages to the tree's copy of the same
      tokens; it is served as before. */
  lemma RepointedServed<T>(ring: seq<Row>, pool: seq<T>, r: Request, copy: Request, x: nat,
                                              g: CompressedRows.Geometry, cap: nat, finish: Finish<T>,
                                              ape: seq<seq<real>>, cfg: Config)
    requires Served(ring, pool, r, g, cap, finish, ape, cfg) && Served(ring, pool, copy, g, cap, finish, ape, cfg)
    requires CanRepoint(r, copy, x, g, cap, ape, cfg)
    ensures Served(ring, pool, Repointed(r, copy, x), g, cap, finish, ape, cfg)
  {
    RepointedContinues(ring, r, copy, x, ape, cfg);
    RepointedContent(r, copy, x);
    BlockOfMonotone(x, |copy.toks|, |ape|);
    forall b: nat | b < BlockOf(|r.toks|, |ape|)
      ensures HoldsBlock(g, pool, cap, Repointed(r, copy, x), b, finish, ape, cfg)
    {
      assert HoldsBlock(g, pool, cap, r, b, finish, ape, cfg);
      assert b < BlockOf(x, |ape|) ==> HoldsBlock(g, pool, cap, copy, b, finish, ape, cfg);
      RepointedBlock(pool, r, copy, x, b, Repointed(r, copy, x), g, cap, finish, ape, cfg);
    }
  }

  // ----- decode -----------------------------------------------------------------------------------

  /** What a row pools when it decodes position `p`, off the register it has read and fed. */
  ghost function DecodeInput(reg: seq<Row>, toks: seq<Token>, p: nat, ape: seq<seq<real>>, cfg: Config): seq<Row> {
    if p < |toks| && Shaped(cfg, ape) && |reg| == cfg.ringSize then Pooled(Fed(reg, toks[p], p, ape, cfg), cfg) else []
  }

  /** What it stores: that input, at the clamped start of the block it may have finished. */
  ghost function DecodeValue<T>(finish: Finish<T>, input: seq<Row>, p: nat, cfg: Config): T {
    finish(if p + 1 < cfg.ratio then 0 else p + 1 - cfg.ratio, input)
  }

  lemma CompletedPools(reg: seq<Row>, toks: seq<Token>, p: nat, b: nat, ape: seq<seq<real>>, cfg: Config)
    requires CarryOk(reg, toks, p, ape, cfg) && p < |toks| && CompressedRows.Completed(p, cfg.ratio)
    requires b == BlockOf(p, |ape|)
    ensures HasBlock(toks, b, |ape|) && Pooled(Fed(reg, toks[p], p, ape, cfg), cfg) == BlockInput(toks, b, ape, cfg)
  {
    DecodeStepOk(reg, toks, p, ape, cfg);
    FinishedAtIs(toks, p, ape, cfg);
  }

  lemma CompletedStart(p: nat, ratio: nat)
    requires ratio > 0 && CompressedRows.Completed(p, ratio)
    ensures p / ratio == BlockOf(p, ratio) && ratio <= p + 1 && Nth(BlockOf(p, ratio), ratio) == p + 1 - ratio
  {
    StepEnds(p, ratio);
    CountIsBlock(p, ratio);
  }

  /** At a position that finishes a block that is the block's value. */
  lemma {:induction false} DecodeValueIs<T>(finish: Finish<T>, input: seq<Row>, toks: seq<Token>, p: nat, b: nat,
                                            ape: seq<seq<real>>, cfg: Config)
    requires cfg.ratio <= p + 1 && Nth(b, |ape|) == p + 1 - cfg.ratio && HasBlock(toks, b, |ape|)
    requires input == BlockInput(toks, b, ape, cfg)
    ensures DecodeValue(finish, input, p, cfg) == BlockValue(finish, toks, ape, cfg)(b)
  {
    ValueIs(finish, p + 1 - cfg.ratio, input, toks, b, ape, cfg);
  }

  /** The rows of a decode batch, each with the registers it reads over `n` steps. */
  ghost predicate DecodeStarts(regs: seq<seq<seq<Row>>>, ring: seq<Row>, lanes: Lanes, batch: seq<DecodeRow>, n: nat,
                               ape: seq<seq<real>>, cfg: Config) {
    && |regs| == lanes.Rows()
    && forall i :: 0 <= i < |regs| ==> |regs[i]| == n && ReadInRun(regs[i], ring, lanes, batch, i, ape, cfg)
  }

  /** What row `i` stores in step `k`. */
  ghost function RowValue<T>(finish: Finish<T>, regs: seq<seq<seq<Row>>>, lanes: Lanes, batch: seq<DecodeRow>, i: nat,
                             k: nat, ape: seq<seq<real>>, cfg: Config): T {
    if i >= |regs| || k >= |regs[i]| then finish(0, [])
    else if i < |batch| then
      var p := batch[i].len + k;
      DecodeValue(finish, DecodeInput(regs[i][k], batch[i].toks, p, ape, cfg), p, cfg)
    else DecodeValue(finish, DecodeInput(regs[i][k], [lanes.pad(i, k + 1)], 0, ape, cfg), 0, cfg)
  }

  ghost function DecodeValues<T>(finish: Finish<T>, regs: seq<seq<seq<Row>>>, lanes: Lanes, batch: seq<DecodeRow>,
                                 ape: seq<seq<real>>, cfg: Config): (nat, nat) -> T {
    (i: nat, k: nat) => RowValue(finish, regs, lanes, batch, i, k, ape, cfg)
  }

  /** The positions of the rows: each request's next one, 0 for the padding. */
  ghost function Positions(batch: seq<DecodeRow>, rows: nat): (pos: seq<nat>)
    ensures |pos| == rows && forall i :: 0 <= i < rows ==> pos[i] == if i < |batch| then batch[i].len else 0
  {
    seq(rows, i requires 0 <= i < rows => if i < |batch| then batch[i].len else 0)
  }

  ghost function Values<T>(finish: Finish<T>, batch: seq<DecodeRow>, ape: seq<seq<real>>,
                           cfg: Config): (v: seq<nat -> T>)
    ensures |v| == |batch| && forall i :: 0 <= i < |v| ==> v[i] == BlockValue(finish, batch[i].toks, ape, cfg)
  {
    if batch == [] then [] else
    var m := |batch| - 1;
    Values(finish, batch[..m], ape, cfg) + [BlockValue(finish, batch[m].toks, ape, cfg)]
  }

  /** A row of the batch as a request, `m` steps on. */
  ghost function RowRequest(row: DecodeRow, locs: seq<int>, m: nat): Request
    requires row.len + m <= |row.toks|
  {
    Request(row.toks[..row.len + m], locs)
  }

  /** Every request's blocks, `m` steps on, in the terms of the pool. */
  ghost predicate AllStored<T>(g: CompressedRows.Geometry, pool: seq<T>, cap: nat, batch: seq<DecodeRow>,
                               snap: seq<seq<int>>, m: nat, finish: Finish<T>, ape: seq<seq<real>>, cfg: Config) {
    CompressedRows.RowsStored(g, pool, cap, snap, CompressedRows.Advance(Positions(batch, |snap|), |batch|, m), |batch|,
                              Values(finish, batch, ape, cfg))
  }

  /** The pool after `n` decode steps. */
  ghost function PoolAfterRun<T>(pool: seq<T>, regs: seq<seq<seq<Row>>>, lanes: Lanes, batch: seq<DecodeRow>, n: nat,
                                 snap: seq<seq<int>>, g: CompressedRows.Geometry, cap: nat, finish: Finish<T>,
                                 ape: seq<seq<real>>, cfg: Config): (after: seq<T>)
    requires CompressedRows.DecodeRun(g, snap, Positions(batch, |snap|), |batch|, cap, n) && cap + |snap| <= |pool|
    ensures |after| == |pool|
  {
    CompressedRows.PoolAfter(g, snap, Positions(batch, |snap|), |batch|, cap, pool,
                             DecodeValues(finish, regs, lanes, batch, ape, cfg), n)
  }

  lemma HeldIsStored<T>(g: CompressedRows.Geometry, pool: seq<T>, cap: nat, row: DecodeRow, locs: seq<int>,
                        finish: Finish<T>, ape: seq<seq<real>>, cfg: Config)
    requires row.len <= |row.toks| && PoolHolds(g, pool, cap, RowRequest(row, locs, 0), finish, ape, cfg)
    ensures CompressedRows.BlocksStored(g, pool, cap, locs, row.len, BlockValue(finish, row.toks, ape, cfg))
  {
    var r := RowRequest(row, locs, 0);
    forall b: nat | (b + 1) * g.ratio <= row.len
      ensures CompressedRows.StoredAt(g, pool, cap, locs, b, BlockValue(finish, row.toks, ape, cfg)(b))
    {
      BlockInHistory(b, row.len, |ape|);
      assert HoldsBlock(g, pool, cap, r, b, finish, ape, cfg);
      ValueOfPrefix(finish, r.toks, row.toks, b, ape, cfg);
    }
  }

  lemma StoredIsHeld<T>(g: CompressedRows.Geometry, pool: seq<T>, cap: nat, row: DecodeRow, locs: seq<int>,
                        past: seq<Token>, finish: Finish<T>, ape: seq<seq<real>>, cfg: Config)
    requires past <= row.toks && ape != [] && g.ratio == |ape| && cap <= |pool|
    requires CompressedRows.OwnBlocks(g, locs, BlockOf(|past|, |ape|), cap)
    requires CompressedRows.BlocksStored(g, pool, cap, locs, |past|, BlockValue(finish, row.toks, ape, cfg))
    ensures PoolHolds(g, pool, cap, Request(past, locs), finish, ape, cfg)
  {
    forall b: nat | b < BlockOf(|past|, |ape|) ensures HoldsBlock(g, pool, cap, Request(past, locs), b, finish, ape,
                                                                  cfg) {
      StoredBlockHeld(g, pool, cap, row, locs, past, b, finish, ape, cfg);
    }
  }

  lemma StoredBlockHeld<T>(g: CompressedRows.Geometry, pool: seq<T>, cap: nat, row: DecodeRow, locs: seq<int>,
                           past: seq<Token>, b: nat, finish: Finish<T>, ape: seq<seq<real>>, cfg: Config)
    requires ape != [] && g.ratio == |ape| && cap <= |pool| && past <= row.toks && b < BlockOf(|past|, |ape|)
             && g.Valid()
    requires CompressedRows.BlocksStored(g, pool, cap, locs, |past|, BlockValue(finish, row.toks, ape, cfg))
    ensures HoldsBlock(g, pool, cap, Request(past, locs), b, finish, ape, cfg)
  {
    BlockInHistory(b, |past|, |ape|);
    assert CompressedRows.StoredAt(g, pool, cap, locs, b, BlockValue(finish, row.toks, ape, cfg)(b));
    ValueOfPrefix(finish, past, row.toks, b, ape, cfg);
  }

  /** Decode fills the pool: the values its steps store are the block values the pool needs, so after
      any run, however the batch is padded, every request of it can read back every block it has
      finished, by prefill or decode. */
  lemma DecodePool<T>(regs: seq<seq<seq<Row>>>, ring: seq<Row>, lanes: Lanes, batch: seq<DecodeRow>,
                                         n: nat, pool: seq<T>, snap: seq<seq<int>>, g: CompressedRows.Geometry,
                                         cap: nat, finish: Finish<T>, ape: seq<seq<real>>, cfg: Config)
    requires DecodeStarts(regs, ring, lanes, batch, n, ape, cfg) && DecodeReady(ring, lanes, batch, n, ape, cfg)
    requires g.ratio == cfg.ratio
    requires CompressedRows.DecodeRun(g, snap, Positions(batch, |snap|), |batch|, cap, n) && cap + |snap| <= |pool|
    requires AllStored(g, pool, cap, batch, snap, 0, finish, ape, cfg)
    ensures AllStored(g, PoolAfterRun(pool, regs, lanes, batch, n, snap, g, cap, finish, ape, cfg), cap, batch, snap, n,
                      finish, ape, cfg)
  {
    var pos, kv := Positions(batch, |snap|), DecodeValues(finish, regs, lanes, batch, ape, cfg);
    CompressedRows.AdvanceOnce(pos, |batch|, 0);
    RunStoresBlocks(regs, ring, lanes, batch, n, |snap|, finish, ape, cfg);
    CompressedRows.DecodeRunKeepsBlocks(g, snap, pos, |batch|, cap, pool, kv, Values(finish, batch, ape, cfg), n);
  }

  /** In step `k` every request that finishes a block stores its value. */
  ghost predicate RowsFinish<T>(finish: Finish<T>, regs: seq<seq<seq<Row>>>, lanes: Lanes, batch: seq<DecodeRow>,
                                k: nat, ape: seq<seq<real>>, cfg: Config)
    requires cfg.ratio > 0
  {
    forall i: nat :: i < |batch| ==>
      CompressedRows.FinishedValue(RowValue(finish, regs, lanes, batch, i, k, ape, cfg),
                                   BlockValue(finish, batch[i].toks, ape, cfg), batch[i].len + k, cfg.ratio)
  }

  lemma StepIsStore<T>(regs: seq<seq<seq<Row>>>, lanes: Lanes, batch: seq<DecodeRow>, rows: nat, k: nat,
                       finish: Finish<T>, ape: seq<seq<real>>, cfg: Config)
    requires cfg.ratio > 0 && |batch| <= rows && RowsFinish(finish, regs, lanes, batch, k, ape, cfg)
    ensures CompressedRows.StepStores(CompressedRows.StepValues(DecodeValues(finish, regs, lanes, batch, ape, cfg),
                                                                rows, k),
                                      Values(finish, batch, ape, cfg),
                                      CompressedRows.Advance(Positions(batch, rows), |batch|, k), |batch|, cfg.ratio)
  {
  }

  lemma RunStoresBlocks<T>(regs: seq<seq<seq<Row>>>, ring: seq<Row>, lanes: Lanes, batch: seq<DecodeRow>,
                                              n: nat, rows: nat, finish: Finish<T>, ape: seq<seq<real>>, cfg: Config)
    requires DecodeStarts(regs, ring, lanes, batch, n, ape, cfg) && DecodeReady(ring, lanes, batch, n, ape, cfg)
    requires |batch| <= rows
    ensures CompressedRows.RunStores(DecodeValues(finish, regs, lanes, batch, ape, cfg),
                                     Values(finish, batch, ape, cfg), Positions(batch, rows), |batch|, cfg.ratio, n)
  {
    var kv, pos := DecodeValues(finish, regs, lanes, batch, ape, cfg), Positions(batch, rows);
    forall k: nat | k < n
      ensures CompressedRows.StepStores(CompressedRows.StepValues(kv, |pos|, k), Values(finish, batch, ape, cfg),
                                        CompressedRows.Advance(pos, |batch|, k), |batch|, cfg.ratio)
    {
      StepFinishes(regs, ring, lanes, batch, n, k, finish, ape, cfg);
      StepIsStore(regs, lanes, batch, rows, k, finish, ape, cfg);
    }
  }

  lemma StepFinishes<T>(regs: seq<seq<seq<Row>>>, ring: seq<Row>, lanes: Lanes, batch: seq<DecodeRow>,
                                           n: nat, k: nat, finish: Finish<T>, ape: seq<seq<real>>, cfg: Config)
    requires DecodeStarts(regs, ring, lanes, batch, n, ape, cfg) && DecodeReady(ring, lanes, batch, n, ape, cfg)
    requires k < n
    ensures RowsFinish(finish, regs, lanes, batch, k, ape, cfg)
  {
    forall i: nat | i < |batch|
      ensures CompressedRows.FinishedValue(RowValue(finish, regs, lanes, batch, i, k, ape, cfg),
                                           BlockValue(finish, batch[i].toks, ape, cfg), batch[i].len + k, cfg.ratio)
    {
      RowStores(regs, ring, lanes, batch, n, i, k, finish, ape, cfg);
    }
  }

  lemma RowStores<T>(regs: seq<seq<seq<Row>>>, ring: seq<Row>, lanes: Lanes, batch: seq<DecodeRow>,
                                        n: nat, i: nat, k: nat, finish: Finish<T>, ape: seq<seq<real>>, cfg: Config)
    requires DecodeStarts(regs, ring, lanes, batch, n, ape, cfg) && DecodeReady(ring, lanes, batch, n, ape, cfg)
    requires i < |batch| && k < n
    ensures CompressedRows.FinishedValue(RowValue(finish, regs, lanes, batch, i, k, ape, cfg),
                                         BlockValue(finish, batch[i].toks, ape, cfg), batch[i].len + k, cfg.ratio)
  {
    assert |regs[i]| == n && ReadInRun(regs[i], ring, lanes, batch, i, ape, cfg);
    ReadAreCarries(regs[i], ring, lanes, batch, i, ape, cfg);
    assert CarryIn(regs[i], k, batch[i].toks, batch[i].len, ape, cfg);
    RegisterStores(regs[i][k], batch[i].toks, batch[i].len + k, finish, ape, cfg);
  }

  /** What a step stores off the carry it has read. */
  lemma RegisterStores<T>(reg: seq<Row>, toks: seq<Token>, p: nat, finish: Finish<T>, ape: seq<seq<real>>,
                                             cfg: Config)
    requires CarryOk(reg, toks, p, ape, cfg) && p < |toks|
    ensures CompressedRows.FinishedValue(DecodeValue(finish, DecodeInput(reg, toks, p, ape, cfg), p, cfg),
                                         BlockValue(finish, toks, ape, cfg), p, cfg.ratio)
  {
    if CompressedRows.Completed(p, cfg.ratio) {
      var b := BlockOf(p, cfg.ratio);
      CompletedStart(p, cfg.ratio);
      CompletedPools(reg, toks, p, b, ape, cfg);
      DecodeValueIs(finish, DecodeInput(reg, toks, p, ape, cfg), toks, p, b, ape, cfg);
    }
  }

  /** The requests' tokens sit in the slots of the run. */
  ghost predicate SlotsOfTokens(lanes: Lanes, batch: seq<DecodeRow>, n: nat) {
    |batch| <= |lanes.slots(n)| &&
    forall i :: 0 <= i < |batch| ==>
      0 < batch[i].len + n <= |batch[i].toks| && lanes.slots(n)[i] == batch[i].toks[batch[i].len + n - 1].slot
  }

  /** Every request of the batch can be continued, `m` steps on. */
  ghost predicate AllContinue(ring: seq<Row>, batch: seq<DecodeRow>, snap: seq<seq<int>>, m: nat, ape: seq<seq<real>>,
                              cfg: Config) {
    && |batch| <= |snap|
    && forall i :: 0 <= i < |batch| ==>
         batch[i].len + m <= |batch[i].toks| && CanContinue(ring, RowRequest(batch[i], snap[i], m), ape, cfg)
  }

  /** Every request's blocks are held, `m` steps on. */
  ghost predicate AllHeld<T>(pool: seq<T>, batch: seq<DecodeRow>, snap: seq<seq<int>>, m: nat,
                             g: CompressedRows.Geometry,
                             cap: nat, finish: Finish<T>, ape: seq<seq<real>>, cfg: Config) {
    && |batch| <= |snap|
    && forall i :: 0 <= i < |batch| ==>
         batch[i].len + m <= |batch[i].toks| && PoolHolds(g, pool, cap, RowRequest(batch[i], snap[i], m), finish, ape,
                                                          cfg)
  }

  /** The requests of a batch are served. */
  ghost predicate BatchServed<T>(ring: seq<Row>, pool: seq<T>, batch: seq<DecodeRow>, snap: seq<seq<int>>, m: nat,
                                 g: CompressedRows.Geometry, cap: nat, finish: Finish<T>, ape: seq<seq<real>>,
                                 cfg: Config) {
    AllContinue(ring, batch, snap, m, ape, cfg) && AllHeld(pool, batch, snap, m, g, cap, finish, ape, cfg)
  }

  /** A batch picked from the requests being served is served. */
  lemma PickedServed<T>(ring: seq<Row>, pool: seq<T>, reqs: seq<Request>, picks: seq<nat>, batch: seq<DecodeRow>,
                        snap: seq<seq<int>>, g: CompressedRows.Geometry, cap: nat, finish: Finish<T>,
                        ape: seq<seq<real>>, cfg: Config)
    requires Serving(ring, pool, reqs, g, cap, finish, ape, cfg) && |picks| == |batch| <= |snap|
    requires forall i :: 0 <= i < |batch| ==>
               picks[i] < |reqs| && batch[i].len <= |batch[i].toks|
               && RowRequest(batch[i], snap[i], 0) == reqs[picks[i]]
    ensures BatchServed(ring, pool, batch, snap, 0, g, cap, finish, ape, cfg)
  {
    forall i | 0 <= i < |batch|
      ensures CanContinue(ring, RowRequest(batch[i], snap[i], 0), ape, cfg)
      ensures PoolHolds(g, pool, cap, RowRequest(batch[i], snap[i], 0), finish, ape, cfg)
    {
      assert CanContinue(ring, reqs[picks[i]], ape, cfg) && PoolHolds(g, pool, cap, reqs[picks[i]], finish, ape, cfg);
    }
  }

  /** The window slots of a run: each request's tokens, on pages it shares with no row of the batch. */
  ghost predicate RunSlots(lanes: Lanes, batch: seq<DecodeRow>, n: nat, size: nat, cfg: Config) {
    && cfg.page > 0 && SlotRun(lanes.slots, lanes.Rows(), n, cfg, size) && |batch| <= lanes.Rows()
    && SlotsOfTokens(lanes, batch, 0) && SlotsOfTokens(lanes, batch, n)
    && forall i: nat :: i < |batch| ==> OwnLane(lanes.slots, i, n, cfg.page)
  }

  lemma RowIsReady(ring: seq<Row>, row: DecodeRow, locs: seq<int>, slot: nat, ape: seq<seq<real>>, cfg: Config)
    requires 0 < row.len <= |row.toks| && slot == row.toks[row.len - 1].slot
    requires CanContinue(ring, RowRequest(row, locs, 0), ape, cfg)
    ensures CarryAt(ring, slot, row.toks, row.len, ape, cfg)
  {
    ContinueFrom(ring, RowRequest(row, locs, 0), row.toks, ape, cfg);
  }

  /** Being continuable is what a decode run starts from. */
  lemma ContinuableIsReady(ring: seq<Row>, lanes: Lanes, batch: seq<DecodeRow>, n: nat,
                                              snap: seq<seq<int>>, ape: seq<seq<real>>, cfg: Config)
    requires Shaped(cfg, ape) && RunSlots(lanes, batch, n, |ring|, cfg) && AllContinue(ring, batch, snap, 0, ape, cfg)
    ensures DecodeReady(ring, lanes, batch, n, ape, cfg)
  {
    forall i: nat | i < |batch| ensures CarryAt(ring, lanes.slots(0)[i], batch[i].toks, batch[i].len, ape, cfg) {
      RowIsReady(ring, batch[i], snap[i], lanes.slots(0)[i], ape, cfg);
    }
  }

  lemma HeldAreStored<T>(pool: seq<T>, batch: seq<DecodeRow>, snap: seq<seq<int>>,
                                            g: CompressedRows.Geometry, cap: nat, finish: Finish<T>,
                                            ape: seq<seq<real>>, cfg: Config)
    requires AllHeld(pool, batch, snap, 0, g, cap, finish, ape, cfg) && g.Valid() && cap <= |pool|
    ensures AllStored(g, pool, cap, batch, snap, 0, finish, ape, cfg)
  {
    forall i: nat | i < |batch|
      ensures CompressedRows.BlocksStored(g, pool, cap, snap[i], batch[i].len, Values(finish, batch, ape, cfg)[i])
    {
      HeldIsStored(g, pool, cap, batch[i], snap[i], finish, ape, cfg);
    }
  }

  lemma StoredAreHeld<T>(pool: seq<T>, batch: seq<DecodeRow>, snap: seq<seq<int>>, m: nat,
                                            g: CompressedRows.Geometry, cap: nat, finish: Finish<T>,
                                            ape: seq<seq<real>>, cfg: Config)
    requires AllStored(g, pool, cap, batch, snap, m, finish, ape, cfg) && ape != [] && g.ratio == |ape|
    requires forall i :: 0 <= i < |batch| ==>
               && batch[i].len + m <= |batch[i].toks|
               && CompressedRows.OwnBlocks(g, snap[i], BlockOf(batch[i].len + m, |ape|), cap)
    ensures AllHeld(pool, batch, snap, m, g, cap, finish, ape, cfg)
  {
    forall i: nat | i < |batch| ensures PoolHolds(g, pool, cap, RowRequest(batch[i], snap[i], m), finish, ape, cfg) {
      StoredIsHeld(g, pool, cap, batch[i], snap[i], batch[i].toks[..batch[i].len + m], finish, ape, cfg);
    }
  }

  lemma RowContinues(ring: seq<Row>, row: DecodeRow, locs: seq<int>, slot: nat, m: nat, ape: seq<seq<real>>,
                     cfg: Config)
    requires 0 < row.len + m <= |row.toks| && slot == row.toks[row.len + m - 1].slot && cfg.page > 0 && Shaped(cfg, ape)
    requires CarryAt(ring, slot, row.toks, row.len + m, ape, cfg)
    ensures CanContinue(ring, RowRequest(row, locs, m), ape, cfg)
  {
    CarryOfPrefix(GetBlock(ring, PageBase(slot, cfg), cfg.ringSize), row.toks[..row.len + m], row.toks, row.len + m,
                  ape, cfg);
  }

  lemma DecodedContinues(ring: seq<Row>, lanes: Lanes, batch: seq<DecodeRow>, n: nat, i: nat,
                                            locs: seq<int>, ape: seq<seq<real>>, cfg: Config)
    requires DecodeReady(ring, lanes, batch, n, ape, cfg) && i < |batch| && SlotsOfTokens(lanes, batch, n)
    ensures CanContinue(RingAfterRun(ring, lanes, batch, n, ape, cfg), RowRequest(batch[i], locs, n), ape, cfg)
  {
    DecodeKeepsCarry(ring, lanes, batch, n, i, ape, cfg);
    RowContinues(RingAfterRun(ring, lanes, batch, n, ape, cfg), batch[i], locs, lanes.slots(n)[i], n, ape, cfg);
  }

  lemma AllDecodedContinue(ring: seq<Row>, lanes: Lanes, batch: seq<DecodeRow>, n: nat,
                                              snap: seq<seq<int>>, ape: seq<seq<real>>, cfg: Config)
    requires DecodeReady(ring, lanes, batch, n, ape, cfg) && RunSlots(lanes, batch, n, |ring|, cfg)
    requires AllContinue(ring, batch, snap, 0, ape, cfg)
    ensures AllContinue(RingAfterRun(ring, lanes, batch, n, ape, cfg), batch, snap, n, ape, cfg)
  {
    forall i: nat | i < |batch|
      ensures CanContinue(RingAfterRun(ring, lanes, batch, n, ape, cfg), RowRequest(batch[i], snap[i], n), ape, cfg)
    {
      DecodedContinues(ring, lanes, batch, n, i, snap[i], ape, cfg);
    }
  }

  /** The full locations of the batch: laid out for the run's stores, private, enough for the blocks of
      all tokens, and the padding's at position 0. */
  ghost predicate DecodeLocations(g: CompressedRows.Geometry, snap: seq<seq<int>>, batch: seq<DecodeRow>, cap: nat,
                                  n: nat, ape: seq<seq<real>>) {
    && ape != [] && g.ratio == |ape| && |batch| <= |snap|
    && CompressedRows.DecodeRun(g, snap, Positions(batch, |snap|), |batch|, cap, n)
    && forall i :: 0 <= i < |batch| ==>
         && batch[i].len + n <= |batch[i].toks|
         && CompressedRows.OwnBlocks(g, snap[i], BlockOf(batch[i].len + n, |ape|), cap)
  }

  lemma AllDecodedHeld<T>(regs: seq<seq<seq<Row>>>, ring: seq<Row>, lanes: Lanes,
                                             batch: seq<DecodeRow>, n: nat, pool: seq<T>, snap: seq<seq<int>>,
                                             g: CompressedRows.Geometry, cap: nat, finish: Finish<T>,
                                             ape: seq<seq<real>>, cfg: Config)
    requires DecodeStarts(regs, ring, lanes, batch, n, ape, cfg) && DecodeReady(ring, lanes, batch, n, ape, cfg)
    requires DecodeLocations(g, snap, batch, cap, n, ape)
    requires AllHeld(pool, batch, snap, 0, g, cap, finish, ape, cfg) && cap + |snap| <= |pool|
    ensures AllHeld(PoolAfterRun(pool, regs, lanes, batch, n, snap, g, cap, finish, ape, cfg), batch, snap, n, g, cap,
                    finish, ape, cfg)
  {
    HeldAreStored(pool, batch, snap, g, cap, finish, ape, cfg);
    DecodePool(regs, ring, lanes, batch, n, pool, snap, g, cap, finish, ape, cfg);
    StoredAreHeld(PoolAfterRun(pool, regs, lanes, batch, n, snap, g, cap, finish, ape, cfg), batch, snap, n, g, cap,
                  finish, ape, cfg);
  }

  /** A decode run of the batch serves the batch: whatever brought its requests to being served --
      any schedule of prefill chunks, an earlier run -- they are served with all the tokens decoded,
      in an eager batch or one padded to any captured size. */
  lemma DecodeServesBatch<T>(regs: seq<seq<seq<Row>>>, ring: seq<Row>, lanes: Lanes,
                                                batch: seq<DecodeRow>, n: nat, pool: seq<T>, snap: seq<seq<int>>,
                                                g: CompressedRows.Geometry, cap: nat, finish: Finish<T>,
                                                ape: seq<seq<real>>, cfg: Config)
    requires Shaped(cfg, ape) && DecodeStarts(regs, ring, lanes, batch, n, ape, cfg)
    requires RunSlots(lanes, batch, n, |ring|, cfg)
    requires BatchServed(ring, pool, batch, snap, 0, g, cap, finish, ape, cfg)
    requires DecodeLocations(g, snap, batch, cap, n, ape) && cap + |snap| <= |pool|
    ensures BatchServed(RingAfterRun(ring, lanes, batch, n, ape, cfg),
                        PoolAfterRun(pool, regs, lanes, batch, n, snap, g, cap, finish, ape, cfg),
                        batch, snap, n, g, cap, finish, ape, cfg)
  {
    ContinuableIsReady(ring, lanes, batch, n, snap, ape, cfg);
    AllDecodedContinue(ring, lanes, batch, n, snap, ape, cfg);
    AllDecodedHeld(regs, ring, lanes, batch, n, pool, snap, g, cap, finish, ape, cfg);
  }

  // ----- requests outside the batch -----------------------------------------------------------------

  /** No row of the run writes to the page the request continues from. */
  ghost predicate OffSlots(other: Request, lanes: Lanes, n: nat, cfg: Config)
    requires cfg.page > 0
  {
    other.toks != [] ==>
      forall p: nat :: 0 < p <= n ==> OffPage(lanes.slots(p), other.toks[|other.toks| - 1].slot, cfg.page)
  }

  lemma IdleContinues(ring: seq<Row>, lanes: Lanes, batch: seq<DecodeRow>, n: nat, other: Request,
                                         ape: seq<seq<real>>, cfg: Config)
    requires SlotRun(lanes.slots, lanes.Rows(), n, cfg, |ring|) && CanContinue(ring, other, ape, cfg)
    requires cfg.page > 0 && OffSlots(other, lanes, n, cfg)
    ensures CanContinue(RingAfterRun(ring, lanes, batch, n, ape, cfg), other, ape, cfg)
  {
    AdvanceKeepsSize(batch, lanes, ape, cfg);
    if other.toks != [] {
      var slot := other.toks[|other.toks| - 1].slot;
      RunKeepsOtherPages(ring, lanes.slots, lanes.Rows(), n, AdvanceOf(batch, lanes, ape, cfg), cfg, slot,
                         GetBlock(ring, PageBase(slot, cfg), cfg.ringSize));
    }
  }

  /** A row's unfinished block and what it decodes next sit at no live location of the request. */
  ghost predicate PrivateRows(snap: seq<seq<int>>, batch: seq<DecodeRow>, n: nat, ratio: nat, other: Request)
    requires ratio > 0 && |batch| <= |snap|
  {
    forall i :: 0 <= i < |batch| ==> PrivateTo(snap[i], BlockStart(batch[i].len, ratio), batch[i].len + n, other)
  }

  /** The row of the block that position `p` finishes is none of the request's. */
  lemma FinishedElsewhere(g: CompressedRows.Geometry, locs: seq<int>, cap: nat, len: nat, end: nat, p: nat,
                          other: Request, b: nat)
    requires g.ratio > 0 && CompressedRows.OwnBlocks(g, locs, BlockOf(end, g.ratio), cap)
    requires len <= p < end && CompressedRows.Completed(p, g.ratio)
    requires PrivateTo(locs, BlockStart(len, g.ratio), end, other)
    requires CompressedRows.OwnBlocks(g, other.locs, BlockOf(|other.toks|, g.ratio), cap)
             && b < BlockOf(|other.toks|, g.ratio)
    ensures 0 <= Nth(b, g.ratio) < |other.locs| && 0 <= (p / g.ratio) * g.ratio < |locs|
    ensures CompressedRows.BlockRow(locs, p / g.ratio, g.ratio)
            != CompressedRows.CmpRow(other.locs[Nth(b, g.ratio)], g.ratio)
  {
    var c := BlockOf(p, g.ratio);
    CompletedStart(p, g.ratio);
    NthIsProduct(c, g.ratio);
    StartsFrom(len, p, end, g.ratio);
    NthBelow(b, BlockOf(|other.toks|, g.ratio), g.ratio);
    RowsDiffer(g, locs, BlockOf(end, g.ratio), c, other.locs, BlockOf(|other.toks|, g.ratio), b, cap);
  }

  /** The block that position `p` finishes starts at or after the block of any earlier length. */
  lemma StartsFrom(len: nat, p: nat, end: nat, ratio: nat)
    requires ratio > 0 && len <= p < end && CompressedRows.Completed(p, ratio)
    ensures BlockStart(len, ratio) <= Nth(BlockOf(p, ratio), ratio) <= p && BlockOf(p, ratio) < BlockOf(end, ratio)
  {
    var c := BlockOf(p, ratio);
    CompletedStart(p, ratio);
    BlockOfMonotone(len, p, ratio);
    NthAdds(BlockOf(len, ratio), c - BlockOf(len, ratio), ratio);
    NthIsProduct(c + 1, ratio);
    BlockInHistory(c, end, ratio);
  }

  lemma IdleRow(g: CompressedRows.Geometry, snap: seq<seq<int>>, batch: seq<DecodeRow>, cap: nat,
                                   n: nat, other: Request, b: nat, ape: seq<seq<real>>)
    requires DecodeLocations(g, snap, batch, cap, n, ape) && PrivateRows(snap, batch, n, g.ratio, other)
    requires CompressedRows.OwnBlocks(g, other.locs, BlockOf(|other.toks|, |ape|), cap)
             && b < BlockOf(|other.toks|, |ape|)
    ensures 0 <= Nth(b, |ape|) < |other.locs| && 0 <= CompressedRows.CmpRow(other.locs[Nth(b, |ape|)], |ape|)
    ensures CompressedRows.NotWritten(g, snap, Positions(batch, |snap|), |batch|, cap, n,
                                      CompressedRows.CmpRow(other.locs[Nth(b, |ape|)], |ape|))
  {
    CompressedRows.OwnBlockRow(g, other.locs, BlockOf(|other.toks|, |ape|), cap, b);
    NthIsProduct(b, |ape|);
    var row := CompressedRows.CmpRow(other.locs[Nth(b, |ape|)], |ape|);
    forall k: nat, i: nat | k < n && i < |snap|
      ensures CompressedRows.DecodeDest(snap, i, CompressedRows.Advance(Positions(batch, |snap|), |batch|, k)[i],
                                        g.ratio, cap)
              != row
    {
      var at := CompressedRows.Advance(Positions(batch, |snap|), |batch|, k);
      CompressedRows.DestMeaning(g, snap, at, |batch|, cap, i);
      if CompressedRows.Completed(at[i], g.ratio) {
        FinishedElsewhere(g, snap[i], cap, batch[i].len, batch[i].len + n, at[i], other, b);
      }
    }
  }

  lemma IdleHeld<T>(pool: seq<T>, regs: seq<seq<seq<Row>>>, lanes: Lanes, batch: seq<DecodeRow>, n: nat,
                                       snap: seq<seq<int>>, other: Request, g: CompressedRows.Geometry, cap: nat,
                                       finish: Finish<T>, ape: seq<seq<real>>, cfg: Config)
    requires DecodeLocations(g, snap, batch, cap, n, ape) && cap + |snap| <= |pool|
    requires PrivateRows(snap, batch, n, g.ratio, other) && PoolHolds(g, pool, cap, other, finish, ape, cfg)
    ensures PoolHolds(g, PoolAfterRun(pool, regs, lanes, batch, n, snap, g, cap, finish, ape, cfg), cap, other, finish,
                      ape, cfg)
  {
    var after := PoolAfterRun(pool, regs, lanes, batch, n, snap, g, cap, finish, ape, cfg);
    forall b: nat | b < BlockOf(|other.toks|, |ape|) ensures HoldsBlock(g, after, cap, other, b, finish, ape, cfg) {
      assert HoldsBlock(g, pool, cap, other, b, finish, ape, cfg);
      IdleRow(g, snap, batch, cap, n, other, b, ape);
      NthIsProduct(b, |ape|);
      CompressedRows.RunKeepsOtherRows(g, snap, Positions(batch, |snap|), |batch|, cap, pool,
                                       DecodeValues(finish, regs, lanes, batch, ape, cfg), n,
                                       CompressedRows.CmpRow(other.locs[Nth(b, |ape|)], |ape|));
    }
  }

  // ----- decode over all requests -------------------------------------------------------------------

  /** The batch consists of requests `picks`; the other requests are out of its way, and out of the way
      of its padding. */
  ghost predicate BatchOf(reqs: seq<Request>, picks: seq<nat>, lanes: Lanes, batch: seq<DecodeRow>,
                          snap: seq<seq<int>>, n: nat, size: nat, ape: seq<seq<real>>, cfg: Config) {
    && ape != [] && |picks| == |batch| <= |snap| && RunSlots(lanes, batch, n, size, cfg)
    && (forall i :: 0 <= i < |batch| ==>
          picks[i] < |reqs| && batch[i].len <= |batch[i].toks| && RowRequest(batch[i], snap[i], 0) == reqs[picks[i]])
    && forall j: nat :: j < |reqs| && j !in picks ==>
         OffSlots(reqs[j], lanes, n, cfg) && PrivateRows(snap, batch, n, |ape|, reqs[j])
  }

  /** The requests after the run: the picked ones with their decoded tokens. */
  ghost predicate AfterRun(reqs: seq<Request>, after: seq<Request>, picks: seq<nat>, batch: seq<DecodeRow>,
                           snap: seq<seq<int>>, n: nat) {
    && |after| == |reqs| && |picks| == |batch| <= |snap|
    && (forall j: nat :: j < |reqs| && j !in picks ==> after[j] == reqs[j])
    && forall i :: 0 <= i < |batch| ==>
         picks[i] < |reqs| && batch[i].len + n <= |batch[i].toks| && after[picks[i]] == RowRequest(batch[i], snap[i], n)
  }

  lemma AllContinueAfterRun(ring: seq<Row>, reqs: seq<Request>, after: seq<Request>, picks: seq<nat>,
                                               lanes: Lanes, batch: seq<DecodeRow>, n: nat, snap: seq<seq<int>>,
                                               ape: seq<seq<real>>, cfg: Config)
    requires BatchOf(reqs, picks, lanes, batch, snap, n, |ring|, ape, cfg)
             && AfterRun(reqs, after, picks, batch, snap, n)
    requires Continuing(ring, reqs, ape, cfg)
    requires AllContinue(RingAfterRun(ring, lanes, batch, n, ape, cfg), batch, snap, n, ape, cfg)
    ensures Continuing(RingAfterRun(ring, lanes, batch, n, ape, cfg), after, ape, cfg)
  {
    forall j: nat | j < |after| ensures CanContinue(RingAfterRun(ring, lanes, batch, n, ape, cfg), after[j], ape, cfg) {
      if j in picks {
        var i :| 0 <= i < |picks| && picks[i] == j;
        assert after[j] == RowRequest(batch[i], snap[i], n);
      } else {
        IdleContinues(ring, lanes, batch, n, reqs[j], ape, cfg);
      }
    }
  }

  lemma AllHeldAfterRun<T>(pool: seq<T>, reqs: seq<Request>, after: seq<Request>, picks: seq<nat>,
                                              regs: seq<seq<seq<Row>>>, lanes: Lanes, batch: seq<DecodeRow>, n: nat,
                                              size: nat, snap: seq<seq<int>>, g: CompressedRows.Geometry, cap: nat,
                                              finish: Finish<T>, ape: seq<seq<real>>, cfg: Config)
    requires BatchOf(reqs, picks, lanes, batch, snap, n, size, ape, cfg) && AfterRun(reqs, after, picks, batch, snap, n)
    requires Holding(pool, reqs, g, cap, finish, ape, cfg) && cap + |snap| <= |pool|
    requires DecodeLocations(g, snap, batch, cap, n, ape)
    requires AllHeld(PoolAfterRun(pool, regs, lanes, batch, n, snap, g, cap, finish, ape, cfg), batch, snap, n, g, cap,
                     finish, ape, cfg)
    ensures Holding(PoolAfterRun(pool, regs, lanes, batch, n, snap, g, cap, finish, ape, cfg), after, g, cap, finish,
                    ape, cfg)
  {
    forall j: nat | j < |after|
      ensures PoolHolds(g, PoolAfterRun(pool, regs, lanes, batch, n, snap, g, cap, finish, ape, cfg), cap, after[j],
                        finish, ape, cfg)
    {
      if j in picks {
        var i :| 0 <= i < |picks| && picks[i] == j;
        assert after[j] == RowRequest(batch[i], snap[i], n);
      } else {
        IdleHeld(pool, regs, lanes, batch, n, snap, reqs[j], g, cap, finish, ape, cfg);
      }
    }
  }

  /** Decode keeps serving every request: those of the batch with all the tokens decoded, those
      outside as they were. */
  lemma DecodeServes<T>(regs: seq<seq<seq<Row>>>, ring: seq<Row>, lanes: Lanes,
                                           reqs: seq<Request>, after: seq<Request>, picks: seq<nat>,
                                           batch: seq<DecodeRow>, n: nat, pool: seq<T>, snap: seq<seq<int>>,
                                           g: CompressedRows.Geometry, cap: nat, finish: Finish<T>,
                                           ape: seq<seq<real>>, cfg: Config)
    requires BatchOf(reqs, picks, lanes, batch, snap, n, |ring|, ape, cfg)
             && AfterRun(reqs, after, picks, batch, snap, n)
    requires Shaped(cfg, ape) && DecodeStarts(regs, ring, lanes, batch, n, ape, cfg)
    requires Serving(ring, pool, reqs, g, cap, finish, ape, cfg)
    requires DecodeLocations(g, snap, batch, cap, n, ape) && cap + |snap| <= |pool|
    ensures Serving(RingAfterRun(ring, lanes, batch, n, ape, cfg),
                    PoolAfterRun(pool, regs, lanes, batch, n, snap, g, cap, finish, ape, cfg),
                    after, g, cap, finish, ape, cfg)
  {
    PickedServed(ring, pool, reqs, picks, batch, snap, g, cap, finish, ape, cfg);
    DecodeServesBatch(regs, ring, lanes, batch, n, pool, snap, g, cap, finish, ape, cfg);
    AllContinueAfterRun(ring, reqs, after, picks, lanes, batch, n, snap, ape, cfg);
    AllHeldAfterRun(pool, reqs, after, picks, regs, lanes, batch, n, |ring|, snap, g, cap, finish, ape, cfg);
  }
}
