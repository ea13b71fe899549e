/** The per-window-page compress-state ring: boundary carries written by prefill so that any later
    prefix match can resume by value, and the rolling carry of decode. */
module CarryRing {
  import opened Sequences
  import opened Arithmetic
  import opened Ranking

  /** One ring row: the kv half and the score half of a compressor item. */
  datatype Row = Row(kv: seq<real>, score: seq<Score>)

  datatype Config = Config(page: nat, ratio: nat, overlap: bool, ringSize: nat, item: nat) {
    ghost predicate Valid() {
      && 0 < ratio <= page
      && ratio <= ringSize
    }
  }

  /** The reset state; also what the trailing scratch row always holds. */
  function EmptyRow(item: nat): Row {
    Row(seq(item, _ => 0.0), seq(item, _ => NegInf))
  }

  /** What a freshly allocated row holds. */
  function ZeroRow(item: nat): Row {
    Row(seq(item, _ => 0.0), seq(item, _ => Fin(0.0)))
  }

  /** A new token of the range: its kv and gate score, and its window slot. */
  datatype Token = Token(kv: seq<real>, score: seq<real>, slot: nat)

  function PageBase(slot: nat, cfg: Config): nat
    requires cfg.page > 0
  {
    MulAtLeast(slot / cfg.page, cfg.ringSize);
    (slot / cfg.page) * cfg.ringSize
  }

  /** The block lies inside the ring, clear of the scratch row. */
  predicate Fits(base: nat, cfg: Config, size: nat) {
    base + cfg.ringSize < size
  }

  /** Distinct window pages own disjoint ring blocks. */
  lemma PagesDisjoint(a: nat, b: nat, cfg: Config)
    requires cfg.page > 0 && a / cfg.page != b / cfg.page
    ensures PageBase(a, cfg) + cfg.ringSize <= PageBase(b, cfg) || PageBase(b, cfg) + cfg.ringSize <= PageBase(a, cfg)
  {
    var x, y := a / cfg.page, b / cfg.page;
    MulDistributes(x, y, cfg.ringSize);
    MulAtLeast(x - y, cfg.ringSize);
  }

  // ----- the ring as a value ----------------------------------------------------------------

  /** Scatter a block, then re-clear the scratch row. */
  function SetBlock(ring: seq<Row>, base: nat, block: seq<Row>, item: nat): (r: seq<Row>)
    requires base + |block| < |ring|
    ensures |r| == |ring|
  {
    (ring[..base] + block + ring[base + |block|..])[|ring| - 1 := EmptyRow(item)]
  }

  function GetBlock(ring: seq<Row>, base: nat, size: nat): seq<Row>
    requires base + size <= |ring|
  {
    ring[base..base + size]
  }

  /** The block written is read back; a disjoint block is untouched. */
  lemma SetGet(ring: seq<Row>, base: nat, block: seq<Row>, item: nat, other: nat)
    requires base + |block| < |ring| && other + |block| < |ring|
    ensures GetBlock(SetBlock(ring, base, block, item), base, |block|) == block
    ensures base + |block| <= other || other + |block| <= base ==>
              GetBlock(SetBlock(ring, base, block, item), other, |block|) == GetBlock(ring, other, |block|)
  {
  }

  function AddScores(score: seq<real>, ape: seq<real>): seq<Score> {
    seq(Min(|score|, |ape|), i requires 0 <= i < Min(|score|, |ape|) => Fin(score[i] + ape[i]))
  }

  /** The carry at a boundary `rel` tokens into the range.  With overlap it is the last `ratio`
      tokens in the overlap-seed slots, otherwise the reset state. */
  function CarryBlock(toks: seq<Token>, rel: nat, ape: seq<seq<real>>, cfg: Config): (block: seq<Row>)
    requires cfg.Valid() && |ape| == cfg.ratio && rel <= |toks|
    requires cfg.overlap ==> cfg.ratio <= rel
    ensures |block| == cfg.ringSize
  {
    seq(cfg.ringSize, t requires 0 <= t < cfg.ringSize =>
      if cfg.overlap && t < cfg.ratio then
        var tok := toks[rel - cfg.ratio + t];
        Row(tok.kv, AddScores(tok.score, ape[t]))
      else
        EmptyRow(cfg.item))
  }

  /** The reset state: zero values, and scores of minus infinity, which pool with no weight. */
  lemma EmptyRowMeaning(item: nat)
    ensures |EmptyRow(item).kv| == |EmptyRow(item).score| == item
    ensures forall j :: 0 <= j < item ==> EmptyRow(item).kv[j] == 0.0 && EmptyRow(item).score[j] == NegInf
  {
  }

  /** What a new ring holds: zeros, scores included. */
  lemma ZeroRowMeaning(item: nat)
    ensures |ZeroRow(item).kv| == |ZeroRow(item).score| == item
    ensures forall j :: 0 <= j < item ==> ZeroRow(item).kv[j] == 0.0 && ZeroRow(item).score[j] == Fin(0.0)
  {
  }

  /** The pages of the ring: page 0 starts at row 0, the next page one block further, and all slots of
      a page share its block. */
  lemma PageBaseMeaning(slot: nat, cfg: Config)
    requires cfg.page > 0
    ensures slot < cfg.page ==> PageBase(slot, cfg) == 0
    ensures PageBase(slot + cfg.page, cfg) == PageBase(slot, cfg) + cfg.ringSize
    ensures forall other: nat :: slot / cfg.page == other / cfg.page ==> PageBase(other, cfg) == PageBase(slot, cfg)
  {
    if slot < cfg.page {
      DivModUnique(slot, 0, slot, cfg.page);
    }
    DivModUnique(slot + cfg.page, slot / cfg.page + 1, slot % cfg.page, cfg.page);
    MulDistributes(slot / cfg.page, 1, cfg.ringSize);
  }

  /** Writing a block changes its rows, clears the scratch row, and nothing else. */
  lemma SetBlockMeaning(ring: seq<Row>, base: nat, block: seq<Row>, item: nat, r: nat)
    requires base + |block| < |ring| && r < |ring|
    ensures SetBlock(ring, base, block, item)[r]
            == if r == |ring| - 1 then EmptyRow(item) else if base <= r < base
            + |block| then block[r - base] else ring[r]
  {
  }

  /** The rows of a boundary carry: with overlap the block's tokens before the boundary in order, each
      value as it came and each score raised by its position's embedding; reset rows otherwise. */
  lemma CarryBlockMeaning(toks: seq<Token>, rel: nat, ape: seq<seq<real>>, cfg: Config, t: nat)
    requires cfg.Valid() && |ape| == cfg.ratio && rel <= |toks| && (cfg.overlap ==> cfg.ratio <= rel)
    requires t < cfg.ringSize
    requires cfg.overlap && t < cfg.ratio ==> |toks[rel - cfg.ratio + t].score| == |ape[t]| == cfg.item
    ensures var row := CarryBlock(toks, rel, ape, cfg)[t];
            |row.score| == cfg.item &&
            if cfg.overlap && t < cfg.ratio then
              && row.kv == toks[rel - cfg.ratio + t].kv
              && forall j :: 0 <= j < cfg.item ==> row.score[j] == Fin(toks[rel - cfg.ratio + t].score[j] + ape[t][j])
            else
              && |row.kv| == cfg.item
              && forall j :: 0 <= j < cfg.item ==> row.kv[j] == 0.0 && row.score[j] == NegInf
  {
    EmptyRowMeaning(cfg.item);
  }

  // ----- boundary carries -------------------------------------------------------------------

  /** The first window-page boundary after `lo`. */
  function FirstBoundary(lo: nat, page: nat): (b: nat)
    requires page > 0
    ensures lo < b <= lo + page && b % page == 0
    ensures lo % page == 0 ==> b == lo + page
  {
    var q := lo / page;
    assert lo == q * page + lo % page;
    MulDistributes(q, 1, page);
    DivModUnique((q + 1) * page, q + 1, 0, page);
    (q + 1) * page
  }

  /** With overlap, the first boundary of the range has a whole block of the range before it.  True
      of every range that starts on a page boundary. */
  predicate WholeSeed(lo: nat, hi: nat, cfg: Config)
    requires cfg.page > 0
  {
    cfg.overlap ==> FirstBoundary(lo, cfg.page) > hi || FirstBoundary(lo, cfg.page) - lo >= cfg.ratio
  }

  lemma AlignedHasWholeSeed(lo: nat, hi: nat, cfg: Config)
    requires cfg.Valid() && lo % cfg.page == 0
    ensures WholeSeed(lo, hi, cfg)
  {
  }

  /** New tokens whose blocks all lie inside a ring of `size` rows. */
  ghost predicate InRing(toks: seq<Token>, ape: seq<seq<real>>, cfg: Config, size: nat) {
    && cfg.Valid()
    && |ape| == cfg.ratio
    && forall i :: 0 <= i < |toks| ==> Fits(PageBase(toks[i].slot, cfg), cfg, size)
  }

  /** A range of new tokens `[lo, lo + |toks|)`, every boundary of which can be seeded. */
  ghost predicate PrefillRange(lo: nat, toks: seq<Token>, ape: seq<seq<real>>, cfg: Config, size: nat) {
    InRing(toks, ape, cfg, size) && WholeSeed(lo, lo + |toks|, cfg)
  }

  /** Boundary `b` can be written, unless it is past the range. */
  ghost predicate Writable(b: nat, lo: nat, toks: seq<Token>, cfg: Config) {
    b <= lo + |toks| ==> lo < b && (cfg.overlap ==> cfg.ratio <= b - lo)
  }

  function WriteOne(ring: seq<Row>, b: nat, lo: nat, toks: seq<Token>, ape: seq<seq<real>>, cfg: Config): (r: seq<Row>)
    requires InRing(toks, ape, cfg, |ring|) && Writable(b, lo, toks, cfg) && b <= lo + |toks|
    ensures |r| == |ring|
  {
    SetBlock(ring, PageBase(toks[b - 1 - lo].slot, cfg), CarryBlock(toks, b - lo, ape, cfg), cfg.item)
  }

  /** The carries of the boundaries `b, b + page, ...` up to the end of the range. */
  function WriteFrom(ring: seq<Row>, b: nat, lo: nat, toks: seq<Token>, ape: seq<seq<real>>, cfg: Config): (r: seq<Row>)
    requires InRing(toks, ape, cfg, |ring|) && Writable(b, lo, toks, cfg)
    ensures |r| == |ring|
    decreases lo + |toks| + cfg.page - b
  {
    if b > lo + |toks| then ring else
    WriteFrom(WriteOne(ring, b, lo, toks, ape, cfg), b + cfg.page, lo, toks, ape, cfg)
  }

  /** Writing the boundaries from `b` on leads from `ring` to `goal`. */
  ghost predicate LeftToWrite(ring: seq<Row>, b: nat, lo: nat, toks: seq<Token>, ape: seq<seq<real>>, cfg: Config,
                              goal: seq<Row>) {
    && InRing(toks, ape, cfg, |ring|) && Writable(b, lo, toks, cfg)
    && WriteFrom(ring, b, lo, toks, ape, cfg) == goal
  }

  lemma WriteFromStep(ring: seq<Row>, b: nat, lo: nat, toks: seq<Token>, ape: seq<seq<real>>, cfg: Config,
                      goal: seq<Row>)
    requires LeftToWrite(ring, b, lo, toks, ape, cfg, goal) && b <= lo + |toks|
    ensures LeftToWrite(WriteOne(ring, b, lo, toks, ape, cfg), b + cfg.page, lo, toks, ape, cfg, goal)
  {
  }

  /** From the first boundary on, every boundary can be written; past the last, all are. */
  lemma StartToWrite(ring: seq<Row>, lo: nat, toks: seq<Token>, ape: seq<seq<real>>, cfg: Config)
    requires PrefillRange(lo, toks, ape, cfg, |ring|)
    ensures Writable(FirstBoundary(lo, cfg.page), lo, toks, cfg)
    ensures LeftToWrite(ring, FirstBoundary(lo, cfg.page), lo, toks, ape, cfg,
                        WriteFrom(ring, FirstBoundary(lo, cfg.page), lo, toks, ape, cfg))
  {
  }

  lemma AllWritten(ring: seq<Row>, b: nat, lo: nat, toks: seq<Token>, ape: seq<seq<real>>, cfg: Config, goal: seq<Row>)
    requires LeftToWrite(ring, b, lo, toks, ape, cfg, goal) && b > lo + |toks|
    ensures ring == goal
  {
  }

  class CompressStateRing {
    const buffer: array<Row>
    const item: nat

    constructor (nSlots: nat, item: nat)
      ensures this.item == item && fresh(buffer) && buffer.Length == nSlots + 1
      ensures buffer[..] == seq(nSlots, _ => ZeroRow(item)) + [EmptyRow(item)]
    {
      this.item := item;
      buffer := new Row[nSlots + 1](_ => ZeroRow(item));
      new;
      buffer[nSlots] := EmptyRow(item);
    }

    method Set(base: nat, block: seq<Row>)
      requires base + |block| < buffer.Length
      modifies buffer
      ensures buffer[..] == SetBlock(old(buffer[..]), base, block, item)
    {
      for i := 0 to |block|
        invariant forall k :: 0 <= k < base || base + i <= k < buffer.Length ==> buffer[k] == old(buffer[k])
        invariant forall k :: 0 <= k < i ==> buffer[base + k] == block[k]
      {
        buffer[base + i] := block[i];
      }
      buffer[buffer.Length - 1] := EmptyRow(item);
      ghost var after := SetBlock(old(buffer[..]), base, block, item);
      forall k | 0 <= k < buffer.Length ensures buffer[k] == after[k] {
        if base <= k < base + |block| {
          assert buffer[base + (k - base)] == block[k - base];
        }
      }
    }

    /** Persist the carry at one window slot. */
    method WriteCarry(slot: nat, block: seq<Row>, cfg: Config)
      requires cfg.page > 0 && |block| == cfg.ringSize && Fits(PageBase(slot, cfg), cfg, buffer.Length)
      modifies buffer
      ensures buffer[..] == SetBlock(old(buffer[..]), PageBase(slot, cfg), block, item)
    {
      Set(PageBase(slot, cfg), block);
    }

    method WriteBoundaryCarries(lo: nat, hi: nat, toks: seq<Token>, ape: seq<seq<real>>, cfg: Config)
      requires lo <= hi && |toks| == hi - lo && cfg.item == item
      requires PrefillRange(lo, toks, ape, cfg, buffer.Length)
      modifies buffer
      ensures buffer[..] == WriteFrom(old(buffer[..]), FirstBoundary(lo, cfg.page), lo, toks, ape, cfg)
    {
      var b := FirstBoundary(lo, cfg.page);
      StartToWrite(buffer[..], lo, toks, ape, cfg);
      ghost var goal := WriteFrom(buffer[..], b, lo, toks, ape, cfg);
      while b <= hi
        invariant LeftToWrite(buffer[..], b, lo, toks, ape, cfg, goal)
        decreases hi + cfg.page - b
      {
        WriteBoundary(b, lo, toks, ape, cfg, goal);
        b := b + cfg.page;
      }
      AllWritten(buffer[..], b, lo, toks, ape, cfg, goal);
    }

    /** The loop body: the carry of one boundary. */
    method WriteBoundary(b: nat, lo: nat, toks: seq<Token>, ape: seq<seq<real>>, cfg: Config, ghost goal: seq<Row>)
      requires LeftToWrite(buffer[..], b, lo, toks, ape, cfg, goal) && b <= lo + |toks| && cfg.item == item
      modifies buffer
      ensures buffer[..] == WriteOne(old(buffer[..]), b, lo, toks, ape, cfg)
      ensures LeftToWrite(buffer[..], b + cfg.page, lo, toks, ape, cfg, goal)
    {
      WriteFromStep(buffer[..], b, lo, toks, ape, cfg, goal);
      WriteCarry(toks[b - 1 - lo].slot, CarryBlock(toks, b - lo, ape, cfg), cfg);
    }
  }

  ghost predicate IsBoundary(b: nat, lo: nat, hi: nat, page: nat)
    requires page > 0
  {
    lo < b <= hi && b % page == 0
  }

  function SlotAt(b: nat, lo: nat, toks: seq<Token>): nat
    requires lo < b <= lo + |toks|
  {
    toks[b - 1 - lo].slot
  }

  /** Different boundaries of the range close different window pages. */
  ghost predicate OwnPages(lo: nat, toks: seq<Token>, page: nat)
    requires page > 0
  {
    forall a: nat, b: nat :: IsBoundary(a, lo, lo + |toks|, page) && IsBoundary(b, lo, lo + |toks|, page) && a != b ==>
      SlotAt(a, lo, toks) / page != SlotAt(b, lo, toks) / page
  }

  lemma BoundaryStep(b: nat, x: nat, page: nat)
    requires page > 0 && b % page == 0 && x % page == 0 && x >= b
    ensures x == b || x >= b + page
  {
    if b < x < b + page {
      CongruentClose(x, b, page);
    }
  }

  /** No boundary from `b` on closes the window page of `slot`. */
  ghost predicate PageUntouched(b: nat, lo: nat, toks: seq<Token>, page: nat, slot: nat)
    requires page > 0
  {
    forall y: nat :: IsBoundary(y, lo, lo + |toks|, page) && y >= b ==> SlotAt(y, lo, toks) / page != slot / page
  }

  lemma {:induction false} UntouchedPageKept(ring: seq<Row>, b: nat, lo: nat, toks: seq<Token>, ape: seq<seq<real>>,
                                             cfg: Config, slot: nat)
    requires InRing(toks, ape, cfg, |ring|) && Writable(b, lo, toks, cfg) && b % cfg.page == 0
    requires Fits(PageBase(slot, cfg), cfg, |ring|) && PageUntouched(b, lo, toks, cfg.page, slot)
    ensures GetBlock(WriteFrom(ring, b, lo, toks, ape, cfg), PageBase(slot, cfg), cfg.ringSize)
            == GetBlock(ring, PageBase(slot, cfg), cfg.ringSize)
    decreases lo + |toks| + cfg.page - b
  {
    if b <= lo + |toks| {
      assert IsBoundary(b, lo, lo + |toks|, cfg.page);
      PagesDisjoint(SlotAt(b, lo, toks), slot, cfg);
      SetGet(ring, PageBase(SlotAt(b, lo, toks), cfg), CarryBlock(toks, b - lo, ape, cfg), cfg.item,
             PageBase(slot, cfg));
      AddPage(b, cfg.page);
      UntouchedPageKept(WriteOne(ring, b, lo, toks, ape, cfg), b + cfg.page, lo, toks, ape, cfg, slot);
    }
  }

  lemma {:induction false} BoundaryWritten(ring: seq<Row>, b: nat, lo: nat, toks: seq<Token>, ape: seq<seq<real>>,
                                           cfg: Config, x: nat)
    requires InRing(toks, ape, cfg, |ring|) && OwnPages(lo, toks, cfg.page)
    requires Writable(b, lo, toks, cfg) && b <= x && b % cfg.page == 0
    requires IsBoundary(x, lo, lo + |toks|, cfg.page)
    ensures Fits(PageBase(SlotAt(x, lo, toks), cfg), cfg, |ring|)
    ensures GetBlock(WriteFrom(ring, b, lo, toks, ape, cfg), PageBase(SlotAt(x, lo, toks), cfg), cfg.ringSize)
            == CarryBlock(toks, x - lo, ape, cfg)
    decreases x - b
  {
    assert Fits(PageBase(toks[x - 1 - lo].slot, cfg), cfg, |ring|);
    var next := WriteOne(ring, b, lo, toks, ape, cfg);
    AddPage(b, cfg.page);
    if b == x {
      SetGet(ring, PageBase(SlotAt(x, lo, toks), cfg), CarryBlock(toks, x - lo, ape, cfg), cfg.item,
             PageBase(SlotAt(x, lo, toks), cfg));
      UntouchedPageKept(next, b + cfg.page, lo, toks, ape, cfg, SlotAt(x, lo, toks));
    } else {
      BoundaryStep(b, x, cfg.page);
      BoundaryWritten(next, b + cfg.page, lo, toks, ape, cfg, x);
    }
  }

  lemma AddPage(b: nat, page: nat)
    requires page > 0 && b % page == 0
    ensures (b + page) % page == 0
  {
    MulDistributes(b / page, 1, page);
    DivModUnique(b + page, b / page + 1, 0, page);
  }

  lemma FirstBoundaryIsLeast(lo: nat, x: nat, page: nat)
    requires page > 0 && lo < x && x % page == 0
    ensures FirstBoundary(lo, page) <= x
  {
    var f := FirstBoundary(lo, page);
    if x < f {
      BoundaryStep(x, f, page);
    }
  }

  /** Boundary carries are complete: after the loop, the block of every window page the range
      closes reads back as its position-local carry, and the block of every page it does not close
      is unchanged. */
  lemma BoundaryCarriesComplete(ring: seq<Row>, lo: nat, toks: seq<Token>, ape: seq<seq<real>>, cfg: Config)
    requires PrefillRange(lo, toks, ape, cfg, |ring|) && OwnPages(lo, toks, cfg.page)
    ensures var r := WriteFrom(ring, FirstBoundary(lo, cfg.page), lo, toks, ape, cfg);
            && (forall x: nat :: IsBoundary(x, lo, lo + |toks|, cfg.page) ==>
                  && Fits(PageBase(SlotAt(x, lo, toks), cfg), cfg, |ring|)
                  && FirstBoundary(lo, cfg.page) <= x
                  && GetBlock(r, PageBase(SlotAt(x, lo, toks), cfg), cfg.ringSize)
                  == CarryBlock(toks, x - lo, ape, cfg))
            && (forall slot: nat | PageUntouched(lo, lo, toks, cfg.page, slot) ::
                  Fits(PageBase(slot, cfg), cfg, |ring|) ==>
                  GetBlock(r, PageBase(slot, cfg), cfg.ringSize) == GetBlock(ring, PageBase(slot, cfg), cfg.ringSize))
  {
    var f := FirstBoundary(lo, cfg.page);
    forall x: nat | IsBoundary(x, lo, lo + |toks|, cfg.page)
      ensures Fits(PageBase(SlotAt(x, lo, toks), cfg), cfg, |ring|) && f <= x
      ensures GetBlock(WriteFrom(ring, f, lo, toks, ape, cfg), PageBase(SlotAt(x, lo, toks), cfg), cfg.ringSize)
              == CarryBlock(toks, x - lo, ape, cfg)
    {
      FirstBoundaryIsLeast(lo, x, cfg.page);
      BoundaryWritten(ring, f, lo, toks, ape, cfg, x);
    }
    forall slot: nat | Fits(PageBase(slot, cfg), cfg, |ring|) && PageUntouched(lo, lo, toks, cfg.page, slot)
      ensures GetBlock(WriteFrom(ring, f, lo, toks, ape, cfg), PageBase(slot, cfg), cfg.ringSize)
              == GetBlock(ring, PageBase(slot, cfg), cfg.ringSize)
    {
      UntouchedPageKept(ring, f, lo, toks, ape, cfg, slot);
    }
  }

  // ----- splitting a prefill ------------------------------------------------------------------

  /** The carry at a boundary does not depend on where the range starts. */
  lemma CarryIsLocal(toks: seq<Token>, cut: nat, rel: nat, ape: seq<seq<real>>, cfg: Config)
    requires cfg.Valid() && |ape| == cfg.ratio && cut <= rel <= |toks|
    requires cfg.overlap ==> cfg.ratio <= rel - cut
    ensures CarryBlock(toks, rel, ape, cfg) == CarryBlock(toks[cut..], rel - cut, ape, cfg)
  {
  }

  lemma {:induction false} TailOfRange(ring: seq<Row>, b: nat, lo: nat, mid: nat, toks: seq<Token>, ape: seq<seq<real>>,
                                       cfg: Config)
    requires lo <= mid <= lo + |toks|
    requires InRing(toks, ape, cfg, |ring|) && InRing(toks[mid - lo..], ape, cfg, |ring|)
    requires Writable(b, lo, toks, cfg) && Writable(b, mid, toks[mid - lo..], cfg)
    ensures WriteFrom(ring, b, lo, toks, ape, cfg) == WriteFrom(ring, b, mid, toks[mid - lo..], ape, cfg)
    decreases lo + |toks| + cfg.page - b
  {
    if b <= lo + |toks| {
      CarryIsLocal(toks, mid - lo, b - lo, ape, cfg);
      var next := WriteOne(ring, b, lo, toks, ape, cfg);
      assert next == WriteOne(ring, b, mid, toks[mid - lo..], ape, cfg);
      TailOfRange(next, b + cfg.page, lo, mid, toks, ape, cfg);
    }
  }

  lemma {:induction false} SplitAt(ring: seq<Row>, b: nat, lo: nat, mid: nat, toks: seq<Token>, ape: seq<seq<real>>,
                                   cfg: Config)
    requires lo <= mid <= lo + |toks|
    requires InRing(toks, ape, cfg, |ring|) && Writable(b, lo, toks, cfg)
    requires InRing(toks[..mid - lo], ape, cfg, |ring|) && PrefillRange(mid, toks[mid - lo..], ape, cfg, |ring|)
    requires b <= FirstBoundary(mid, cfg.page) && b % cfg.page == 0
    ensures WriteFrom(ring, b, lo, toks, ape, cfg)
            == WriteFrom(WriteFrom(ring, b, lo, toks[..mid - lo], ape, cfg),
                         FirstBoundary(mid, cfg.page), mid, toks[mid - lo..], ape, cfg)
    decreases lo + |toks| + cfg.page - b
  {
    var last := FirstBoundary(mid, cfg.page);
    if b <= mid {
      var part := toks[..mid - lo];
      assert CarryBlock(toks, b - lo, ape, cfg) == CarryBlock(part, b - lo, ape, cfg);
      var next := WriteOne(ring, b, lo, toks, ape, cfg);
      assert next == WriteOne(ring, b, lo, part, ape, cfg);
      BoundaryStep(b, last, cfg.page);
      AddPage(b, cfg.page);
      SplitAt(next, b + cfg.page, lo, mid, toks, ape, cfg);
    } else {
      FirstBoundaryIsLeast(mid, b, cfg.page);
      TailOfRange(ring, b, lo, mid, toks, ape, cfg);
    }
  }

  /** Splitting a prefill is harmless: writing the carries of `[lo, mid)` and then of `[mid, hi)`
      leaves the same ring as writing those of `[lo, hi)`, for every `mid` whose remainder starts
      with a whole seed -- in particular every page-aligned one. */
  lemma SplitPrefillSameRing(ring: seq<Row>, lo: nat, mid: nat, toks: seq<Token>, ape: seq<seq<real>>, cfg: Config)
    requires lo <= mid <= lo + |toks|
    requires PrefillRange(lo, toks, ape, cfg, |ring|) && WholeSeed(mid, lo + |toks|, cfg)
    ensures PrefillRange(lo, toks[..mid - lo], ape, cfg, |ring|)
            && PrefillRange(mid, toks[mid - lo..], ape, cfg, |ring|)
    ensures WriteFrom(ring, FirstBoundary(lo, cfg.page), lo, toks, ape, cfg)
            == WriteFrom(WriteFrom(ring, FirstBoundary(lo, cfg.page), lo, toks[..mid - lo], ape, cfg),
                         FirstBoundary(mid, cfg.page), mid, toks[mid - lo..], ape, cfg)
  {
    FirstBoundaryIsLeast(lo, FirstBoundary(mid, cfg.page), cfg.page);
    SplitAt(ring, FirstBoundary(lo, cfg.page), lo, mid, toks, ape, cfg);
  }

  // ----- the rolling carry of decode ----------------------------------------------------------

  ghost predicate DecodeSlots(slots: seq<nat>, cfg: Config, size: nat) {
    cfg.page > 0 && forall i :: 0 <= i < |slots| ==> Fits(PageBase(slots[i], cfg), cfg, size)
  }

  /** The window pages of the rows. */
  function Pages(slots: seq<nat>, page: nat): (pages: seq<nat>)
    requires page > 0
    ensures |pages| == |slots|
    ensures forall i :: 0 <= i < |pages| ==> pages[i] == slots[i] / page
  {
    if slots == [] then [] else
    DivMonotone(0, slots[|slots| - 1], page);
    Pages(slots[..|slots| - 1], page) + [slots[|slots| - 1] / page]
  }

  /** Row `i` shares its window page with no other row.  The rows that pad a captured batch all sit
      on one reserved page, so not every row does. */
  ghost predicate Alone(pages: seq<nat>, i: nat) {
    i < |pages| && forall j :: 0 <= j < |pages| && j != i ==> pages[j] != pages[i]
  }

  ghost predicate OwnPage(slots: seq<nat>, i: nat, page: nat)
    requires page > 0
  {
    Alone(Pages(slots, page), i)
  }

  /** Batched write: row `i`'s block goes to its window page. */
  function SetBlocks(ring: seq<Row>, slots: seq<nat>, blocks: seq<seq<Row>>, cfg: Config): (r: seq<Row>)
    requires DecodeSlots(slots, cfg, |ring|) && |blocks| == |slots|
    requires forall i :: 0 <= i < |blocks| ==> |blocks[i]| == cfg.ringSize
    ensures |r| == |ring|
  {
    if slots == [] then ring else
    var m := |slots| - 1;
    SetBlock(SetBlocks(ring, slots[..m], blocks[..m], cfg), PageBase(slots[m], cfg), blocks[m], cfg.item)
  }

  /** After a batched write, `r` is what page `p` holds and `before` what it held: the block of a row
      that has the page to itself, or what was there when no row has it. */
  ghost predicate PageWritten(r: seq<Row>, before: seq<Row>, pages: seq<nat>, blocks: seq<seq<Row>>, p: nat)
    requires |pages| == |blocks|
  {
    && (forall i: nat :: Alone(pages, i) && pages[i] == p ==> r == blocks[i])
    && (p !in pages ==> r == before)
  }

  lemma OneMoreWritten(r: seq<Row>, before: seq<Row>, pages: seq<nat>, blocks: seq<seq<Row>>, p: nat)
    requires |pages| == |blocks| > 0
    requires var m := |pages| - 1; pages[m] == p || PageWritten(r, before, pages[..m], blocks[..m], p)
    requires pages[|pages| - 1] == p ==> r == blocks[|pages| - 1]
    ensures PageWritten(r, before, pages, blocks, p)
  {
    var m := |pages| - 1;
    forall i: nat | Alone(pages, i) && pages[i] == p ensures r == blocks[i] {
      if i < m {
        assert Alone(pages[..m], i) && pages[..m][i] == p;
      }
    }
  }

  /** Co-tenant rows never contaminate each other: the page of a row that shares it with no other
      holds that row's block, and a page without rows is untouched. */
  lemma {:induction false} SetBlocksMeaning(ring: seq<Row>, slots: seq<nat>, blocks: seq<seq<Row>>, cfg: Config,
                                            slot: nat)
    requires DecodeSlots(slots, cfg, |ring|) && |blocks| == |slots| && Fits(PageBase(slot, cfg), cfg, |ring|)
    requires forall i :: 0 <= i < |blocks| ==> |blocks[i]| == cfg.ringSize
    ensures 0 <= slot / cfg.page
    ensures PageWritten(GetBlock(SetBlocks(ring, slots, blocks, cfg), PageBase(slot, cfg), cfg.ringSize),
                        GetBlock(ring, PageBase(slot, cfg), cfg.ringSize), Pages(slots, cfg.page), blocks,
                        slot / cfg.page)
  {
    DivMonotone(0, slot, cfg.page);
    if slots != [] {
      var m := |slots| - 1;
      SetBlocksMeaning(ring, slots[..m], blocks[..m], cfg, slot);
      var before := SetBlocks(ring, slots[..m], blocks[..m], cfg);
      SetGet(before, PageBase(slots[m], cfg), blocks[m], cfg.item, PageBase(slot, cfg));
      if slots[m] / cfg.page != slot / cfg.page {
        PagesDisjoint(slots[m], slot, cfg);
      }
      assert Pages(slots, cfg.page)[..m] == Pages(slots[..m], cfg.page);
      OneMoreWritten(GetBlock(SetBlocks(ring, slots, blocks, cfg), PageBase(slot, cfg), cfg.ringSize),
                     GetBlock(ring, PageBase(slot, cfg), cfg.ringSize), Pages(slots, cfg.page), blocks,
                     slot / cfg.page);
    }
  }

  /** The blocks a batch reads at its previous tokens' pages. */
  function GetBlocks(ring: seq<Row>, slots: seq<nat>, cfg: Config): (blocks: seq<seq<Row>>)
    requires DecodeSlots(slots, cfg, |ring|)
    ensures |blocks| == |slots|
    ensures forall i :: 0 <= i < |blocks| ==> |blocks[i]| == cfg.ringSize
  {
    seq(|slots|, i requires 0 <= i < |slots| => GetBlock(ring, PageBase(slots[i], cfg), cfg.ringSize))
  }

  /** How row `i` advances its carry block when it decodes position `p`. */
  type Advance = (nat, nat, seq<Row>) -> seq<Row>

  ghost predicate KeepsSize(adv: Advance, cfg: Config) {
    forall i, p, block :: |adv(i, p, block)| == |block|
  }

  function AdvanceAll(adv: Advance, p: nat, blocks: seq<seq<Row>>): (r: seq<seq<Row>>)
    ensures |r| == |blocks| && forall i :: 0 <= i < |blocks| ==> r[i] == adv(i, p, blocks[i])
  {
    seq(|blocks|, i requires 0 <= i < |blocks| => adv(i, p, blocks[i]))
  }

  /** The batch decodes step `p`: read at the previous token's pages, advance, write at this
      token's pages. */
  ghost function DecodeCarryStep(ring: seq<Row>, prev: seq<nat>, cur: seq<nat>, adv: Advance, p: nat,
                                 cfg: Config): (r: seq<Row>)
    requires |prev| == |cur| && KeepsSize(adv, cfg)
    requires DecodeSlots(prev, cfg, |ring|) && DecodeSlots(cur, cfg, |ring|)
    ensures |r| == |ring|
  {
    SetBlocks(ring, cur, AdvanceAll(adv, p, GetBlocks(ring, prev, cfg)), cfg)
  }

  /** `slots(p)` are the window slots of the batch at step `p`, inside the ring. */
  ghost predicate SlotRun(slots: nat -> seq<nat>, rows: nat, n: nat, cfg: Config, size: nat) {
    forall p: nat :: p <= n ==> |slots(p)| == rows && DecodeSlots(slots(p), cfg, size)
  }

  /** At every step of the run, row `i` writes to a page of its own. */
  ghost predicate OwnLane(slots: nat -> seq<nat>, i: nat, n: nat, page: nat)
    requires page > 0
  {
    forall p: nat :: 0 < p <= n ==> OwnPage(slots(p), i, page)
  }

  ghost function RingAfter(ring: seq<Row>, slots: nat -> seq<nat>, rows: nat, n: nat, adv: Advance,
                           cfg: Config): (r: seq<Row>)
    requires KeepsSize(adv, cfg) && SlotRun(slots, rows, n, cfg, |ring|)
    ensures |r| == |ring|
  {
    if n == 0 then ring else
    DecodeCarryStep(RingAfter(ring, slots, rows, n - 1, adv, cfg), slots(n - 1), slots(n), adv, n, cfg)
  }

  /** None of the slots is on the page of `slot`. */
  ghost predicate OffPage(slots: seq<nat>, slot: nat, page: nat)
    requires page > 0
  {
    slot / page !in Pages(slots, page)
  }

  /** The block at the page of `slot` is `block`. */
  ghost predicate HoldsAt(ring: seq<Row>, slot: nat, block: seq<Row>, cfg: Config) {
    cfg.page > 0 && Fits(PageBase(slot, cfg), cfg, |ring|) && GetBlock(ring, PageBase(slot, cfg), cfg.ringSize) == block
  }

  lemma StepKeepsOtherPages(ring: seq<Row>, prev: seq<nat>, cur: seq<nat>, adv: Advance, p: nat,
                            cfg: Config, slot: nat, block: seq<Row>)
    requires |prev| == |cur| && KeepsSize(adv, cfg) && DecodeSlots(prev, cfg, |ring|) && DecodeSlots(cur, cfg, |ring|)
    requires HoldsAt(ring, slot, block, cfg) && OffPage(cur, slot, cfg.page)
    ensures HoldsAt(DecodeCarryStep(ring, prev, cur, adv, p, cfg), slot, block, cfg)
  {
    SetBlocksMeaning(ring, cur, AdvanceAll(adv, p, GetBlocks(ring, prev, cfg)), cfg, slot);
  }

  /** A run leaves every page alone that none of its tokens sits on. */
  lemma {:induction false} RunKeepsOtherPages(ring: seq<Row>, slots: nat -> seq<nat>, rows: nat, n: nat, adv: Advance,
                                              cfg: Config, slot: nat, block: seq<Row>)
    requires KeepsSize(adv, cfg) && SlotRun(slots, rows, n, cfg, |ring|)
    requires HoldsAt(ring, slot, block, cfg) && forall p: nat :: 0 < p <= n ==> OffPage(slots(p), slot, cfg.page)
    ensures HoldsAt(RingAfter(ring, slots, rows, n, adv, cfg), slot, block, cfg)
  {
    if n > 0 {
      RunKeepsOtherPages(ring, slots, rows, n - 1, adv, cfg, slot, block);
      StepKeepsOtherPages(RingAfter(ring, slots, rows, n - 1, adv, cfg), slots(n - 1), slots(n), adv, n, cfg, slot,
                          block);
    }
  }

  /** A request's carry on its own: its starting block, advanced once per step. */
  ghost function OwnCarry(i: nat, start: seq<Row>, adv: Advance, n: nat): seq<Row> {
    if n == 0 then start else adv(i, n, OwnCarry(i, start, adv, n - 1))
  }

  /** One step of a row that writes to a page of its own. */
  lemma StepCarries(ring: seq<Row>, prev: seq<nat>, cur: seq<nat>, adv: Advance, p: nat, cfg: Config, i: nat)
    requires |prev| == |cur| && KeepsSize(adv, cfg) && DecodeSlots(prev, cfg, |ring|) && DecodeSlots(cur, cfg, |ring|)
    requires i < |cur| && OwnPage(cur, i, cfg.page)
    ensures GetBlock(DecodeCarryStep(ring, prev, cur, adv, p, cfg), PageBase(cur[i], cfg), cfg.ringSize)
            == adv(i, p, GetBlock(ring, PageBase(prev[i], cfg), cfg.ringSize))
  {
    SetBlocksMeaning(ring, cur, AdvanceAll(adv, p, GetBlocks(ring, prev, cfg)), cfg, cur[i]);
    assert Alone(Pages(cur, cfg.page), i) && Pages(cur, cfg.page)[i] == cur[i] / cfg.page;
  }

  /** The rolling carry follows its request.  Over a decode run of any length, across window-page
      boundaries, next to any co-tenants and any padding, the block at the current page of a row that
      writes to pages of its own is its starting block advanced once per step. */
  lemma {:induction false} CarryFollowsRequest(ring: seq<Row>, slots: nat -> seq<nat>, rows: nat, n: nat,
                                               adv: Advance, cfg: Config, i: nat)
    requires KeepsSize(adv, cfg) && SlotRun(slots, rows, n, cfg, |ring|) && i < rows
    requires cfg.page > 0 && OwnLane(slots, i, n, cfg.page)
    ensures DecodeSlots(slots(0), cfg, |ring|) && DecodeSlots(slots(n), cfg, |ring|)
    ensures |slots(0)| == |slots(n)| == rows
    ensures GetBlock(RingAfter(ring, slots, rows, n, adv, cfg), PageBase(slots(n)[i], cfg), cfg.ringSize)
            == OwnCarry(i, GetBlock(ring, PageBase(slots(0)[i], cfg), cfg.ringSize), adv, n)
  {
    assert |slots(0)| == rows && DecodeSlots(slots(0), cfg, |ring|);
    if n > 0 {
      CarryFollowsRequest(ring, slots, rows, n - 1, adv, cfg, i);
      StepCarries(RingAfter(ring, slots, rows, n - 1, adv, cfg), slots(n - 1), slots(n), adv, n, cfg, i);
    }
  }
}
