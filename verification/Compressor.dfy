/** The gated-pooling compressor.  Four code paths -- from-scratch prefill, page-aligned extend,
    unaligned extend and decode -- must pool the same inputs for the same block, whatever the chunking
    of the request and whatever the ring held before. */
module Compressor {
  import opened Sequences
  import opened Arithmetic
  import opened Ranking
  import opened CarryRing
  import opened CompressedRows

  /** First register row of the block being filled; with overlap the rows before it hold the block
      before. */
  function Offset(cfg: Config): nat {
    if cfg.overlap then cfg.ratio else 0
  }

  ghost predicate Shaped(cfg: Config, ape: seq<seq<real>>) {
    && cfg.Valid()
    && cfg.ringSize == Offset(cfg) + cfg.ratio
    && |ape| == cfg.ratio
  }

  // ----- block arithmetic ---------------------------------------------------------------------

  /** The start of block `b`. */
  function Nth(b: nat, ratio: nat): (p: nat)
    ensures b > 0 ==> p >= ratio
  {
    if b == 0 then 0 else Nth(b - 1, ratio) + ratio
  }

  lemma {:induction false} NthIsProduct(b: nat, ratio: nat)
    ensures Nth(b, ratio) == b * ratio
  {
    if b > 0 {
      NthIsProduct(b - 1, ratio);
      MulDistributes(b, 1, ratio);
    }
  }

  lemma {:induction false} NthBelow(b: nat, count: nat, ratio: nat)
    requires b < count
    ensures Nth(b, ratio) + ratio <= Nth(count, ratio)
  {
    if b < count - 1 {
      NthBelow(b, count - 1, ratio);
    }
  }

  lemma {:induction false} NthAdds(a: nat, b: nat, ratio: nat)
    ensures Nth(a + b, ratio) == Nth(a, ratio) + Nth(b, ratio)
  {
    if b > 0 {
      NthAdds(a, b - 1, ratio);
    }
  }

  /** The block of position (or length) `n`. */
  function BlockOf(n: nat, ratio: nat): (b: nat)
    requires ratio > 0
    ensures Nth(b, ratio) <= n < Nth(b, ratio) + ratio
  {
    if n < ratio then 0 else BlockOf(n - ratio, ratio) + 1
  }

  lemma BlockOfUnique(n: nat, b: nat, ratio: nat)
    requires ratio > 0 && Nth(b, ratio) <= n < Nth(b, ratio) + ratio
    ensures BlockOf(n, ratio) == b
  {
    var c := BlockOf(n, ratio);
    if c < b {
      NthBelow(c, b, ratio);
    } else if b < c {
      NthBelow(b, c, ratio);
    }
  }

  function BlockStart(n: nat, ratio: nat): (s: nat)
    requires ratio > 0
    ensures s <= n < s + ratio
  {
    Nth(BlockOf(n, ratio), ratio)
  }

  /** Within a block, the remainder counts from its start. */
  lemma InBlock(n: nat, b: nat, ratio: nat)
    requires ratio > 0 && Nth(b, ratio) <= n < Nth(b, ratio) + ratio
    ensures n % ratio == n - Nth(b, ratio)
    ensures BlockOf(n, ratio) == b
  {
    BlockOfUnique(n, b, ratio);
    NthIsProduct(b, ratio);
    DivModUnique(n, b, n - Nth(b, ratio), ratio);
  }

  /** An aligned length is the start of its own block. */
  lemma AlignedStart(n: nat, ratio: nat)
    requires ratio > 0 && n % ratio == 0
    ensures BlockStart(n, ratio) == n
  {
    InBlock(n, BlockOf(n, ratio), ratio);
  }

  // ----- what a block pools -------------------------------------------------------------------

  /** A token as the register holds it: its kv, and its gate score plus a position embedding. */
  function Scored(tok: Token, ape: seq<real>): Row {
    Row(tok.kv, AddScores(tok.score, ape))
  }

  /** `k` tokens from the `at`-th on, scored by their offset from there. */
  function ScoredRows(toks: seq<Token>, at: nat, k: nat, ape: seq<seq<real>>): (rows: seq<Row>)
    requires at + k <= |toks| && k <= |ape|
    ensures |rows| == k
  {
    seq(k, t requires 0 <= t < k => Scored(toks[at + t], ape[t]))
  }

  /** With overlap a row is the concatenation of a left and a right half. */
  function Left(row: Row, cfg: Config): Row {
    var d := cfg.item / 2;
    Row(row.kv[..Min(d, |row.kv|)], row.score[..Min(d, |row.score|)])
  }

  function Right(row: Row, cfg: Config): Row {
    var d := cfg.item / 2;
    Row(row.kv[Min(d, |row.kv|)..], row.score[Min(d, |row.score|)..])
  }

  function Lefts(rows: seq<Row>, cfg: Config): (r: seq<Row>)
    ensures |r| == |rows|
  {
    seq(|rows|, t requires 0 <= t < |rows| => Left(rows[t], cfg))
  }

  function Rights(rows: seq<Row>, cfg: Config): (r: seq<Row>)
    ensures |r| == |rows|
  {
    seq(|rows|, t requires 0 <= t < |rows| => Right(rows[t], cfg))
  }

  /** The `b`-th block lies within the tokens. */
  predicate HasBlock(toks: seq<Token>, b: nat, ratio: nat) {
    Nth(b, ratio) + ratio <= |toks|
  }

  /** The rows of block `b`. */
  function BlockRows(toks: seq<Token>, b: nat, ape: seq<seq<real>>): (rows: seq<Row>)
    requires HasBlock(toks, b, |ape|)
    ensures |rows| == |ape|
  {
    ScoredRows(toks, Nth(b, |ape|), |ape|, ape)
  }

  /** What precedes block `b`: the block before it, or nothing at the start of the request. */
  function SeedRows(toks: seq<Token>, b: nat, ape: seq<seq<real>>, cfg: Config): (rows: seq<Row>)
    requires Nth(b, |ape|) <= |toks|
    ensures |rows| == |ape|
  {
    if b == 0 then seq(|ape|, _ => EmptyRow(cfg.item)) else BlockRows(toks, b - 1, ape)
  }

  /** The reference: block `b` pools its own tokens, with overlap the right halves of those and the
      left halves of the block before. */
  function BlockInput(toks: seq<Token>, b: nat, ape: seq<seq<real>>, cfg: Config): seq<Row>
    requires HasBlock(toks, b, |ape|)
  {
    var rows := BlockRows(toks, b, ape);
    if cfg.overlap then Lefts(SeedRows(toks, b, ape, cfg), cfg) + Rights(rows, cfg) else rows
  }

  /** Tokens `[lo, hi)` and the position embeddings have the compressor's width. */
  ghost predicate FullWidth(toks: seq<Token>, lo: int, hi: int, ape: seq<seq<real>>, cfg: Config) {
    && 0 <= lo <= hi <= |toks|
    && (forall p :: lo <= p < hi ==> |toks[p].kv| == |toks[p].score| == cfg.item)
    && forall t :: 0 <= t < |ape| ==> |ape[t]| == cfg.item
  }

  /** Pooled row `row` holds the columns `[from, to)` of a token: its values there, and its scores there
      raised by the embedding of its offset in the block. */
  ghost predicate HoldsColumns(row: Row, tok: Token, ape: seq<real>, from: nat, to: nat)
    requires from <= to <= |tok.kv| && to <= |tok.score| && to <= |ape|
  {
    && row.kv == tok.kv[from..to] && |row.score| == to - from
    && forall j :: 0 <= j < to - from ==> row.score[j] == Fin(tok.score[from + j] + ape[from + j])
  }

  /** Without overlap a block pools its own tokens, whole, in order. */
  lemma PlainBlockPools(toks: seq<Token>, b: nat, ape: seq<seq<real>>, cfg: Config, t: nat)
    requires !cfg.overlap && t < |ape| && (b + 1) * |ape| <= |toks|
    requires FullWidth(toks, b * |ape|, (b + 1) * |ape|, ape, cfg)
    ensures HasBlock(toks, b, |ape|) && |BlockInput(toks, b, ape, cfg)| == |ape|
    ensures b * |ape| + t < |toks|
    ensures HoldsColumns(BlockInput(toks, b, ape, cfg)[t], toks[b * |ape| + t], ape[t], 0, cfg.item)
  {
    NthIsProduct(b, |ape|);
    MulDistributes(b, 1, |ape|);
  }

  /** With overlap it pools, behind the block before it, the second half of the columns of its own
      tokens. */
  lemma OverlapBlockPools(toks: seq<Token>, b: nat, ape: seq<seq<real>>, cfg: Config, t: nat)
    requires cfg.overlap && t < |ape| && (b + 1) * |ape| <= |toks|
    requires FullWidth(toks, b * |ape|, (b + 1) * |ape|, ape, cfg)
    ensures HasBlock(toks, b, |ape|) && |BlockInput(toks, b, ape, cfg)| == 2 * |ape|
    ensures b * |ape| + t < |toks|
    ensures HoldsColumns(BlockInput(toks, b, ape, cfg)[|ape| + t], toks[b * |ape| + t], ape[t], cfg.item / 2, cfg.item)
  {
    NthIsProduct(b, |ape|);
    MulDistributes(b, 1, |ape|);
  }

  /** In front of them stand the first half of the columns of the block before. */
  lemma OverlapSeedPools(toks: seq<Token>, b: nat, ape: seq<seq<real>>, cfg: Config, t: nat)
    requires cfg.overlap && b > 0 && t < |ape| && (b + 1) * |ape| <= |toks|
    requires FullWidth(toks, (b - 1) * |ape|, (b + 1) * |ape|, ape, cfg)
    ensures HasBlock(toks, b, |ape|) && |BlockInput(toks, b, ape, cfg)| == 2 * |ape|
    ensures 0 <= (b - 1) * |ape| + t < |toks|
    ensures HoldsColumns(BlockInput(toks, b, ape, cfg)[t], toks[(b - 1) * |ape| + t], ape[t], 0, cfg.item / 2)
  {
    NthIsProduct(b, |ape|);
    NthIsProduct(b - 1, |ape|);
    MulDistributes(b, 1, |ape|);
  }

  /** The first block has nothing in front: rows that pool with no weight. */
  lemma FirstBlockPools(toks: seq<Token>, ape: seq<seq<real>>, cfg: Config, t: nat)
    requires cfg.overlap && t < |ape| <= |toks|
    ensures HasBlock(toks, 0, |ape|) && |BlockInput(toks, 0, ape, cfg)| == 2 * |ape|
    ensures var row := BlockInput(toks, 0, ape, cfg)[t];
            && |row.kv| == |row.score| == cfg.item / 2
            && forall j :: 0 <= j < cfg.item / 2 ==> row.kv[j] == 0.0 && row.score[j] == NegInf
  {
  }

  /** A finished block, by its first position. */
  datatype Finished = Finished(start: nat, input: seq<Row>)

  /** The block that the last of the first `n` tokens finishes, if any. */
  function FinishedAt(toks: seq<Token>, n: nat, ape: seq<seq<real>>, cfg: Config): (out: seq<Finished>)
    requires ape != [] && 0 < n <= |toks|
  {
    var b := BlockOf(n - 1, |ape|);
    if Nth(b, |ape|) + |ape| == n then [Finished(Nth(b, |ape|), BlockInput(toks, b, ape, cfg))] else []
  }

  /** The blocks finished by the positions `[lo, hi)`, in order. */
  function FinishedIn(toks: seq<Token>, lo: nat, hi: nat, ape: seq<seq<real>>, cfg: Config): seq<Finished>
    requires ape != [] && lo <= hi <= |toks|
    decreases hi - lo
  {
    if lo == hi then [] else FinishedIn(toks, lo, hi - 1, ape, cfg) + FinishedAt(toks, hi, ape, cfg)
  }

  /** Cutting a range anywhere leaves the finished blocks as they are. */
  lemma {:induction false} FinishedSplit(toks: seq<Token>, lo: nat, mid: nat, hi: nat, ape: seq<seq<real>>, cfg: Config)
    requires ape != [] && lo <= mid <= hi <= |toks|
    ensures FinishedIn(toks, lo, hi, ape, cfg) == FinishedIn(toks, lo, mid, ape, cfg)
            + FinishedIn(toks, mid, hi, ape, cfg)
    decreases hi - mid
  {
    if mid < hi {
      FinishedSplit(toks, lo, mid, hi - 1, ape, cfg);
    }
  }

  /** Later tokens do not change the blocks finished so far. */
  lemma {:induction false} FinishedOfPrefix(a: seq<Token>, b: seq<Token>, lo: nat, hi: nat, ape: seq<seq<real>>,
                                            cfg: Config)
    requires ape != [] && lo <= hi <= |a| && a <= b
    ensures FinishedIn(a, lo, hi, ape, cfg) == FinishedIn(b, lo, hi, ape, cfg)
    decreases hi - lo
  {
    if lo < hi {
      FinishedOfPrefix(a, b, lo, hi - 1, ape, cfg);
      var c := BlockOf(hi - 1, |ape|);
      if Nth(c, |ape|) + |ape| == hi {
        assert SeedRows(a, c, ape, cfg) == SeedRows(b, c, ape, cfg);
        assert BlockRows(a, c, ape) == BlockRows(b, c, ape);
      }
    }
  }

  lemma BlockOfNext(n: nat, ratio: nat)
    requires ratio > 0
    ensures BlockOf(n + 1, ratio)
            == BlockOf(n, ratio) + (if Nth(BlockOf(n, ratio), ratio) + ratio == n + 1 then 1 else 0)
  {
    var b := BlockOf(n, ratio);
    if Nth(b, ratio) + ratio == n + 1 {
      BlockOfUnique(n + 1, b + 1, ratio);
    } else {
      BlockOfUnique(n + 1, b, ratio);
    }
  }

  /** The blocks a request of `n` tokens has finished: each whole block once, in order, with its
      reference input. */
  lemma {:induction false} FinishedMeaning(toks: seq<Token>, n: nat, ape: seq<seq<real>>, cfg: Config)
    requires ape != [] && n <= |toks|
    ensures var out := FinishedIn(toks, 0, n, ape, cfg);
            && |out| == BlockOf(n, |ape|)
            && forall b :: 0 <= b < |out| ==> IsBlock(out[b], toks, b, ape, cfg)
  {
    if n > 0 {
      FinishedMeaning(toks, n - 1, ape, cfg);
      BlockOfNext(n - 1, |ape|);
    }
  }

  ghost predicate IsBlock(f: Finished, toks: seq<Token>, b: nat, ape: seq<seq<real>>, cfg: Config) {
    HasBlock(toks, b, |ape|) && f == Finished(Nth(b, |ape|), BlockInput(toks, b, ape, cfg))
  }

  // ----- tokens in other slots ----------------------------------------------------------------

  /** The same tokens, wherever they sit. */
  ghost predicate SameContent(a: seq<Token>, b: seq<Token>) {
    |a| == |b| && forall i :: 0 <= i < |a| ==> a[i].kv == b[i].kv && a[i].score == b[i].score
  }

  lemma SameRows(a: seq<Token>, b: seq<Token>, at: nat, k: nat, ape: seq<seq<real>>)
    requires SameContent(a, b) && at + k <= |a| && k <= |ape|
    ensures ScoredRows(a, at, k, ape) == ScoredRows(b, at, k, ape)
  {
  }

  lemma SameSeed(a: seq<Token>, b: seq<Token>, blk: nat, ape: seq<seq<real>>, cfg: Config)
    requires SameContent(a, b) && Nth(blk, |ape|) <= |a|
    ensures SeedRows(a, blk, ape, cfg) == SeedRows(b, blk, ape, cfg)
  {
    if blk > 0 {
      SameRows(a, b, Nth(blk - 1, |ape|), |ape|, ape);
    }
  }

  /** What a block pools does not depend on where its tokens sit. */
  lemma SameInput(a: seq<Token>, b: seq<Token>, blk: nat, ape: seq<seq<real>>, cfg: Config)
    requires SameContent(a, b) && HasBlock(a, blk, |ape|)
    ensures BlockInput(a, blk, ape, cfg) == BlockInput(b, blk, ape, cfg)
  {
    SameRows(a, b, Nth(blk, |ape|), |ape|, ape);
    SameSeed(a, b, blk, ape, cfg);
  }

  // ----- the rolling carry --------------------------------------------------------------------

  /** The register (or ring block) after the first `n` tokens: the tokens of the unfinished block,
      with overlap behind the whole block before it.  The other rows may hold anything. */
  ghost predicate CarryOk(block: seq<Row>, toks: seq<Token>, n: nat, ape: seq<seq<real>>, cfg: Config) {
    && Shaped(cfg, ape) && n <= |toks| && |block| == cfg.ringSize
    && var b := BlockOf(n, cfg.ratio);
       var held := n - Nth(b, cfg.ratio);
       && (cfg.overlap ==> block[..cfg.ratio] == SeedRows(toks, b, ape, cfg))
       && block[Offset(cfg)..Offset(cfg) + held] == ScoredRows(toks, Nth(b, cfg.ratio), held, ape)
  }

  /** The carry, by the block being filled. */
  lemma CarryIntro(block: seq<Row>, toks: seq<Token>, n: nat, b: nat, ape: seq<seq<real>>, cfg: Config)
    requires Shaped(cfg, ape) && n <= |toks| && |block| == cfg.ringSize
    requires Nth(b, cfg.ratio) <= n < Nth(b, cfg.ratio) + cfg.ratio
    requires cfg.overlap ==> block[..cfg.ratio] == SeedRows(toks, b, ape, cfg)
    requires var held := n - Nth(b, cfg.ratio);
             block[Offset(cfg)..Offset(cfg) + held] == ScoredRows(toks, Nth(b, cfg.ratio), held, ape)
    ensures CarryOk(block, toks, n, ape, cfg)
  {
    BlockOfUnique(n, b, cfg.ratio);
  }

  /** A carry depends on the tokens so far only. */
  lemma CarryOfPrefix(block: seq<Row>, a: seq<Token>, b: seq<Token>, n: nat, ape: seq<seq<real>>, cfg: Config)
    requires a <= b && n <= |a|
    ensures CarryOk(block, a, n, ape, cfg) <==> CarryOk(block, b, n, ape, cfg)
  {
    if Shaped(cfg, ape) {
      var c := BlockOf(n, cfg.ratio);
      var held := n - Nth(c, cfg.ratio);
      assert SeedRows(a, c, ape, cfg) == SeedRows(b, c, ape, cfg);
      assert ScoredRows(a, Nth(c, cfg.ratio), held, ape) == ScoredRows(b, Nth(c, cfg.ratio), held, ape);
    }
  }

  /** Nor does the carry depend on where they sit. */
  lemma SameCarry(block: seq<Row>, a: seq<Token>, b: seq<Token>, n: nat, ape: seq<seq<real>>, cfg: Config)
    requires SameContent(a, b) && CarryOk(block, a, n, ape, cfg)
    ensures CarryOk(block, b, n, ape, cfg)
  {
    var c := BlockOf(n, cfg.ratio);
    SameSeed(a, b, c, ape, cfg);
    SameRows(a, b, Nth(c, cfg.ratio), n - Nth(c, cfg.ratio), ape);
  }

  /** Put a token at its offset of the block being filled. */
  function Fed(block: seq<Row>, tok: Token, pos: nat, ape: seq<seq<real>>, cfg: Config): (r: seq<Row>)
    requires Shaped(cfg, ape) && |block| == cfg.ringSize
    ensures |r| == |block|
  {
    block[Offset(cfg) + pos % cfg.ratio := Scored(tok, ape[pos % cfg.ratio])]
  }

  /** What the gate pools off a register. */
  function Pooled(block: seq<Row>, cfg: Config): seq<Row>
    requires cfg.ratio <= |block|
  {
    if cfg.overlap then Lefts(block[..cfg.ratio], cfg) + Rights(block[cfg.ratio..], cfg) else block
  }

  /** With overlap a finished block rolls into the rows before. */
  function Rolled(block: seq<Row>, done: bool, cfg: Config): (r: seq<Row>)
    requires |block| == Offset(cfg) + cfg.ratio
    ensures |r| == |block|
  {
    if cfg.overlap && done then block[cfg.ratio..] + block[cfg.ratio..] else block
  }

  /** The register after the token at `pos`, as decode writes it back. */
  function DecodeCarry(block: seq<Row>, toks: seq<Token>, pos: nat, ape: seq<seq<real>>, cfg: Config): (r: seq<Row>)
    requires Shaped(cfg, ape) && |block| == cfg.ringSize && pos < |toks|
    ensures |r| == |block|
  {
    Rolled(Fed(block, toks[pos], pos, ape, cfg), Completed(pos, cfg.ratio), cfg)
  }

  lemma CompletedBlock(n: nat, ratio: nat)
    requires ratio > 0
    ensures Completed(n, ratio) <==> BlockStart(n, ratio) + ratio == n + 1
  {
    CompletedOffset(n, ratio);
    InBlock(n, BlockOf(n, ratio), ratio);
  }

  lemma UpdateTail<T>(s: seq<T>, o: nat, held: nat, x: T)
    requires o + held < |s|
    ensures s[o + held := x][..o] == s[..o]
    ensures s[o + held := x][o..o + held + 1] == s[o..o + held] + [x]
    ensures o + held + 1 == |s| ==> s[o + held := x][o..] == s[o..o + held] + [x]
  {
  }

  lemma ScoredRowsSnoc(toks: seq<Token>, at: nat, k: nat, ape: seq<seq<real>>)
    requires at + k < |toks| && k < |ape|
    ensures ScoredRows(toks, at, k + 1, ape) == ScoredRows(toks, at, k, ape) + [Scored(toks[at + k], ape[k])]
  {
  }

  /** The register holds the tokens of block `b` up to length `n`, which may be the whole block. */
  ghost predicate Filling(fed: seq<Row>, toks: seq<Token>, n: nat, b: nat, ape: seq<seq<real>>, cfg: Config) {
    && Shaped(cfg, ape) && n <= |toks| && |fed| == cfg.ringSize
    && Nth(b, |ape|) < n <= Nth(b, |ape|) + |ape|
    && (cfg.overlap ==> fed[..cfg.ratio] == SeedRows(toks, b, ape, cfg))
    && if n < Nth(b, |ape|) + |ape| then
         var k := n - Nth(b, |ape|);
         fed[Offset(cfg)..Offset(cfg) + k] == ScoredRows(toks, Nth(b, |ape|), k, ape)
       else
         fed[Offset(cfg)..] == BlockRows(toks, b, ape)
  }

  lemma FedAt(block: seq<Row>, tok: Token, n: nat, b: nat, held: nat, ape: seq<seq<real>>, cfg: Config)
    requires Shaped(cfg, ape) && |block| == cfg.ringSize && held < cfg.ratio && n == Nth(b, cfg.ratio) + held
    ensures Fed(block, tok, n, ape, cfg) == block[Offset(cfg) + held := Scored(tok, ape[held])]
  {
    InBlock(n, b, cfg.ratio);
  }

  /** The block being filled, one token further. */
  lemma FillsOne(block: seq<Row>, toks: seq<Token>, n: nat, b: nat, held: nat, fed: seq<Row>, ape: seq<seq<real>>,
                 cfg: Config)
    requires Shaped(cfg, ape) && n < |toks| && |block| == cfg.ringSize && held < cfg.ratio
    requires n == Nth(b, cfg.ratio) + held && fed == block[Offset(cfg) + held := Scored(toks[n], ape[held])]
    requires cfg.overlap ==> block[..cfg.ratio] == SeedRows(toks, b, ape, cfg)
    requires block[Offset(cfg)..Offset(cfg) + held] == ScoredRows(toks, Nth(b, cfg.ratio), held, ape)
    ensures Filling(fed, toks, n + 1, b, ape, cfg)
  {
    UpdateTail(block, Offset(cfg), held, Scored(toks[n], ape[held]));
    ScoredRowsSnoc(toks, Nth(b, cfg.ratio), held, ape);
  }

  /** The block being filled, with the token of position `n` in it. */
  lemma FedTail(block: seq<Row>, toks: seq<Token>, n: nat, b: nat, ape: seq<seq<real>>, cfg: Config)
    requires CarryOk(block, toks, n, ape, cfg) && n < |toks| && b == BlockOf(n, |ape|)
    ensures Filling(Fed(block, toks[n], n, ape, cfg), toks, n + 1, b, ape, cfg)
  {
    var held := n - Nth(b, cfg.ratio);
    FedAt(block, toks[n], n, b, held, ape, cfg);
    FillsOne(block, toks, n, b, held, Fed(block, toks[n], n, ape, cfg), ape, cfg);
  }

  /** A register that holds a whole block and its predecessor pools the block's input. */
  lemma PooledIs(fed: seq<Row>, toks: seq<Token>, b: nat, ape: seq<seq<real>>, cfg: Config)
    requires Shaped(cfg, ape) && HasBlock(toks, b, |ape|) && |fed| == cfg.ringSize
    requires cfg.overlap ==> fed[..cfg.ratio] == SeedRows(toks, b, ape, cfg)
    requires fed[Offset(cfg)..] == BlockRows(toks, b, ape)
    ensures Pooled(fed, cfg) == BlockInput(toks, b, ape, cfg)
  {
  }

  /** Rolling it gives the carry of the next block. */
  lemma RolledIs(fed: seq<Row>, toks: seq<Token>, b: nat, ape: seq<seq<real>>, cfg: Config)
    requires Shaped(cfg, ape) && HasBlock(toks, b, |ape|) && |fed| == cfg.ringSize
    requires fed[Offset(cfg)..] == BlockRows(toks, b, ape)
    ensures CarryOk(Rolled(fed, true, cfg), toks, Nth(b + 1, |ape|), ape, cfg)
  {
    var rolled := Rolled(fed, true, cfg);
    if cfg.overlap {
      assert rolled[..cfg.ratio] == fed[cfg.ratio..];
    }
    CarryIntro(rolled, toks, Nth(b + 1, |ape|), b + 1, ape, cfg);
  }

  lemma FinishedAtIs(toks: seq<Token>, n: nat, ape: seq<seq<real>>, cfg: Config)
    requires Shaped(cfg, ape) && n < |toks|
    ensures HasBlock(toks, BlockOf(n, |ape|), |ape|) || !Completed(n, cfg.ratio)
    ensures FinishedAt(toks, n + 1, ape, cfg)
            == if Completed(n, cfg.ratio)
               then [Finished(BlockStart(n, cfg.ratio), BlockInput(toks, BlockOf(n, |ape|), ape, cfg))] else []
  {
    CompletedBlock(n, cfg.ratio);
  }

  lemma {:induction false} CarryAdvances(fed: seq<Row>, toks: seq<Token>, n: nat, b: nat, done: bool,
                                         ape: seq<seq<real>>, cfg: Config)
    requires Filling(fed, toks, n, b, ape, cfg) && (done <==> Nth(b, |ape|) + |ape| == n)
    ensures CarryOk(Rolled(fed, done, cfg), toks, n, ape, cfg)
    ensures done ==> HasBlock(toks, b, |ape|) && Pooled(fed, cfg) == BlockInput(toks, b, ape, cfg)
  {
    if done {
      PooledIs(fed, toks, b, ape, cfg);
      RolledIs(fed, toks, b, ape, cfg);
    } else {
      CarryIntro(fed, toks, n, b, ape, cfg);
    }
  }

  lemma StepFinishes(input: seq<Row>, toks: seq<Token>, n: nat, b: nat, done: bool, ape: seq<seq<real>>, cfg: Config)
    requires Shaped(cfg, ape) && n < |toks| && b == BlockOf(n, |ape|) && done == Completed(n, cfg.ratio)
    requires done ==> HasBlock(toks, b, |ape|) && input == BlockInput(toks, b, ape, cfg)
    ensures FinishedAt(toks, n + 1, ape, cfg) == if done then [Finished(BlockStart(n, cfg.ratio), input)] else []
  {
    FinishedAtIs(toks, n, ape, cfg);
  }

  /** One decode step advances the carry by its token, and when it finishes a block it pools exactly
      that block's reference input, whatever the unused rows held. */
  lemma DecodeStepOk(block: seq<Row>, toks: seq<Token>, n: nat, ape: seq<seq<real>>, cfg: Config)
    requires CarryOk(block, toks, n, ape, cfg) && n < |toks|
    ensures var fed := Fed(block, toks[n], n, ape, cfg);
            var done := Completed(n, cfg.ratio);
            && CarryOk(DecodeCarry(block, toks, n, ape, cfg), toks, n + 1, ape, cfg)
            && FinishedAt(toks, n + 1, ape, cfg)
               == if done then [Finished(BlockStart(n, cfg.ratio), Pooled(fed, cfg))] else []
  {
    var b, fed, done := BlockOf(n, |ape|), Fed(block, toks[n], n, ape, cfg), Completed(n, cfg.ratio);
    FedTail(block, toks, n, b, ape, cfg);
    CompletedBlock(n, cfg.ratio);
    CarryAdvances(fed, toks, n + 1, b, done, ape, cfg);
    StepFinishes(Pooled(fed, cfg), toks, n, b, done, ape, cfg);
  }

  // ----- whole blocks in parallel -------------------------------------------------------------

  function WholeBlocks(added: seq<Token>, count: nat, ape: seq<seq<real>>): (blocks: seq<seq<Row>>)
    requires Nth(count, |ape|) <= |added|
    ensures |blocks| == count
  {
    seq(count, b requires 0 <= b < count => NthBelow(b, count, |ape|); BlockRows(added, b, ape))
  }

  /** Each block's right halves behind the left halves of the block before it. */
  function OverlapTransform(blocks: seq<seq<Row>>, cfg: Config): (r: seq<seq<Row>>)
    ensures |r| == |blocks|
  {
    seq(|blocks|, b requires 0 <= b < |blocks| =>
      (if b == 0 then seq(cfg.ratio, _ => EmptyRow(cfg.item / 2)) else Lefts(blocks[b - 1], cfg))
      + Rights(blocks[b], cfg))
  }

  /** What the from-scratch prefill pools. */
  function ForwardInputs(added: seq<Token>, count: nat, ape: seq<seq<real>>, cfg: Config): (r: seq<seq<Row>>)
    requires Nth(count, |ape|) <= |added|
    ensures |r| == count
  {
    var blocks := WholeBlocks(added, count, ape);
    if cfg.overlap then OverlapTransform(blocks, cfg) else blocks
  }

  /** What the aligned extend pools: with overlap the carried block goes in front, and out again. */
  function ExtendInputs(carry: seq<Row>, added: seq<Token>, count: nat, ape: seq<seq<real>>,
                        cfg: Config): (r: seq<seq<Row>>)
    requires Nth(count, |ape|) <= |added|
    ensures |r| == count
  {
    var blocks := WholeBlocks(added, count, ape);
    if cfg.overlap then OverlapTransform([carry] + blocks, cfg)[1..] else blocks
  }

  /** The `b`-th block of the new tokens is the `base + b`-th of the request. */
  lemma WholeBlockIs(toks: seq<Token>, base: nat, added: seq<Token>, b: nat, ape: seq<seq<real>>)
    requires Nth(base, |ape|) <= |toks| && added == toks[Nth(base, |ape|)..] && HasBlock(added, b, |ape|)
    ensures HasBlock(toks, base + b, |ape|) && BlockRows(added, b, ape) == BlockRows(toks, base + b, ape)
  {
    NthAdds(base, b, |ape|);
  }

  lemma EmptySeed(toks: seq<Token>, ape: seq<seq<real>>, cfg: Config)
    ensures Lefts(SeedRows(toks, 0, ape, cfg), cfg) == seq(|ape|, _ => EmptyRow(cfg.item / 2))
  {
    assert Left(EmptyRow(cfg.item), cfg) == EmptyRow(cfg.item / 2);
  }

  /** `inputs` are the reference inputs of the blocks from the `base`-th on. */
  ghost predicate Reference(inputs: seq<seq<Row>>, toks: seq<Token>, base: nat, ape: seq<seq<real>>, cfg: Config) {
    forall b :: 0 <= b < |inputs| ==> IsInput(inputs[b], toks, base + b, ape, cfg)
  }

  ghost predicate IsInput(input: seq<Row>, toks: seq<Token>, b: nat, ape: seq<seq<real>>, cfg: Config) {
    HasBlock(toks, b, |ape|) && input == BlockInput(toks, b, ape, cfg)
  }

  /** The transform turns each block and its predecessor into the block's reference input. */
  lemma TransformedIs(blocks: seq<seq<Row>>, i: nat, toks: seq<Token>, b: nat, ape: seq<seq<real>>, cfg: Config)
    requires Shaped(cfg, ape) && cfg.overlap && i < |blocks| && HasBlock(toks, b, |ape|)
    requires blocks[i] == BlockRows(toks, b, ape)
    requires if i > 0 then blocks[i - 1] == SeedRows(toks, b, ape, cfg) else b == 0
    ensures OverlapTransform(blocks, cfg)[i] == BlockInput(toks, b, ape, cfg)
  {
    if i == 0 {
      EmptySeed(toks, ape, cfg);
      assert OverlapTransform(blocks, cfg)[0]
             == seq(cfg.ratio, _ => EmptyRow(cfg.item / 2)) + Rights(BlockRows(toks, b, ape), cfg);
    } else {
      assert OverlapTransform(blocks, cfg)[i]
             == Lefts(SeedRows(toks, b, ape, cfg), cfg) + Rights(BlockRows(toks, b, ape), cfg);
    }
  }

  lemma {:induction false} ForwardInputIs(toks: seq<Token>, count: nat, b: nat, ape: seq<seq<real>>, cfg: Config)
    requires Shaped(cfg, ape) && Nth(count, |ape|) <= |toks| && b < count
    ensures IsInput(ForwardInputs(toks, count, ape, cfg)[b], toks, b, ape, cfg)
  {
    NthBelow(b, count, |ape|);
    if cfg.overlap {
      TransformedIs(WholeBlocks(toks, count, ape), b, toks, b, ape, cfg);
    }
  }

  lemma ForwardIsReference(toks: seq<Token>, count: nat, ape: seq<seq<real>>, cfg: Config)
    requires Shaped(cfg, ape) && Nth(count, |ape|) <= |toks|
    ensures Reference(ForwardInputs(toks, count, ape, cfg), toks, 0, ape, cfg)
  {
    forall b: nat | b < count
      ensures IsInput(ForwardInputs(toks, count, ape, cfg)[b], toks, b, ape, cfg)
    {
      ForwardInputIs(toks, count, b, ape, cfg);
    }
  }

  lemma {:induction false} ExtendInputIs(toks: seq<Token>, base: nat, carry: seq<Row>, added: seq<Token>, count: nat,
                                         b: nat, ape: seq<seq<real>>, cfg: Config)
    requires Shaped(cfg, ape) && Nth(count, |ape|) <= |added| && b < count
    requires Nth(base, |ape|) <= |toks| && added == toks[Nth(base, |ape|)..]
    requires cfg.overlap ==> carry == SeedRows(toks, base, ape, cfg)
    ensures IsInput(ExtendInputs(carry, added, count, ape, cfg)[b], toks, base + b, ape, cfg)
  {
    NthBelow(b, count, |ape|);
    WholeBlockIs(toks, base, added, b, ape);
    if cfg.overlap {
      if b > 0 {
        WholeBlockIs(toks, base, added, b - 1, ape);
      }
      var blocks := [carry] + WholeBlocks(added, count, ape);
      assert blocks[b] == SeedRows(toks, base + b, ape, cfg);
      TransformedIs(blocks, b + 1, toks, base + b, ape, cfg);
    }
  }

  lemma ExtendIsReference(toks: seq<Token>, base: nat, carry: seq<Row>, added: seq<Token>, count: nat,
                          ape: seq<seq<real>>, cfg: Config)
    requires Shaped(cfg, ape) && Nth(count, |ape|) <= |added|
    requires Nth(base, |ape|) <= |toks| && added == toks[Nth(base, |ape|)..]
    requires cfg.overlap ==> carry == SeedRows(toks, base, ape, cfg)
    ensures Reference(ExtendInputs(carry, added, count, ape, cfg), toks, base, ape, cfg)
  {
    forall b: nat | b < count
      ensures IsInput(ExtendInputs(carry, added, count, ape, cfg)[b], toks, base + b, ape, cfg)
    {
      ExtendInputIs(toks, base, carry, added, count, b, ape, cfg);
    }
  }

  /** The blocks of a parallel path with their starts. */
  function Emit(inputs: seq<seq<Row>>, base: nat, ratio: nat): (out: seq<Finished>)
    ensures |out| == |inputs|
  {
    seq(|inputs|, b requires 0 <= b < |inputs| => Finished(Nth(base + b, ratio), inputs[b]))
  }

  lemma {:induction false} NoneFinished(toks: seq<Token>, b: nat, hi: nat, ape: seq<seq<real>>, cfg: Config)
    requires ape != [] && Nth(b, |ape|) <= hi < Nth(b, |ape|) + |ape| && hi <= |toks|
    ensures FinishedIn(toks, Nth(b, |ape|), hi, ape, cfg) == []
    decreases hi
  {
    if Nth(b, |ape|) < hi {
      NoneFinished(toks, b, hi - 1, ape, cfg);
      BlockOfUnique(hi - 1, b, |ape|);
    }
  }

  lemma FinishedNext(toks: seq<Token>, lo: nat, hi: nat, ape: seq<seq<real>>, cfg: Config)
    requires ape != [] && lo < hi <= |toks|
    ensures FinishedIn(toks, lo, hi, ape, cfg) == FinishedIn(toks, lo, hi - 1, ape, cfg)
            + FinishedAt(toks, hi, ape, cfg)
  {
  }

  lemma OneFinished(toks: seq<Token>, b: nat, ape: seq<seq<real>>, cfg: Config)
    requires ape != [] && HasBlock(toks, b, |ape|)
    ensures FinishedIn(toks, Nth(b, |ape|), Nth(b, |ape|) + |ape|, ape, cfg)
            == [Finished(Nth(b, |ape|), BlockInput(toks, b, ape, cfg))]
  {
    var hi := Nth(b, |ape|) + |ape|;
    NoneFinished(toks, b, hi - 1, ape, cfg);
    BlockOfUnique(hi - 1, b, |ape|);
    FinishedNext(toks, Nth(b, |ape|), hi, ape, cfg);
  }

  /** Emitting the reference inputs block by block is finishing them position by position. */
  lemma {:induction false} EmitIsFinished(inputs: seq<seq<Row>>, toks: seq<Token>, base: nat, ape: seq<seq<real>>,
                                          cfg: Config)
    requires ape != [] && Reference(inputs, toks, base, ape, cfg) && Nth(base + |inputs|, |ape|) <= |toks|
    ensures Nth(base, |ape|) <= Nth(base + |inputs|, |ape|)
    ensures Emit(inputs, base, |ape|) == FinishedIn(toks, Nth(base, |ape|), Nth(base + |inputs|, |ape|), ape, cfg)
  {
    if inputs != [] {
      var m := |inputs| - 1;
      assert IsInput(inputs[m], toks, base + m, ape, cfg);
      EmitIsFinished(inputs[..m], toks, base, ape, cfg);
      NextFinished(toks, Nth(base, |ape|), base + m, ape, cfg);
      EmitSplit(inputs, base, |ape|);
    }
  }

  lemma EmitSplit(inputs: seq<seq<Row>>, base: nat, ratio: nat)
    requires inputs != []
    ensures var m := |inputs| - 1;
            Emit(inputs, base, ratio) == Emit(inputs[..m], base, ratio) + [Finished(Nth(base + m, ratio), inputs[m])]
  {
  }

  lemma NextFinished(toks: seq<Token>, lo: nat, b: nat, ape: seq<seq<real>>, cfg: Config)
    requires ape != [] && lo <= Nth(b, |ape|) && HasBlock(toks, b, |ape|)
    ensures Nth(b + 1, |ape|) == Nth(b, |ape|) + |ape|
    ensures FinishedIn(toks, lo, Nth(b + 1, |ape|), ape, cfg)
            == FinishedIn(toks, lo, Nth(b, |ape|), ape, cfg) + [Finished(Nth(b, |ape|), BlockInput(toks, b, ape, cfg))]
  {
    OneFinished(toks, b, ape, cfg);
    FinishedSplit(toks, lo, Nth(b, |ape|), Nth(b, |ape|) + |ape|, ape, cfg);
  }
}
