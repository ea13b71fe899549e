/** The compressor's register and its three prefill paths, updated in place, with the carries they
    leave in the state ring. */
module CompressorPaths {
  import opened Sequences
  import opened Arithmetic
  import opened CarryRing
  import opened Compressor
  import CompressedRows

  lemma CountIsBlock(n: nat, ratio: nat)
    requires ratio > 0
    ensures 0 <= n / ratio == BlockOf(n, ratio) && n - n % ratio == Nth(n / ratio, ratio)
  {
    var b := BlockOf(n, ratio);
    InBlock(n, b, ratio);
    NthIsProduct(b, ratio);
    DivModUnique(n, b, n - Nth(b, ratio), ratio);
  }

  method Divide(n: nat, ratio: nat) returns (count: nat, remainder: nat)
    requires ratio > 0
    ensures remainder < ratio && Nth(count, ratio) + remainder == n
  {
    CountIsBlock(n, ratio);
    count, remainder := n / ratio, n % ratio;
  }

  /** Whole blocks first, and then nothing more: what a parallel path finishes. */
  lemma WholeThenRest(toks: seq<Token>, base: nat, count: nat, ape: seq<seq<real>>, cfg: Config)
    requires ape != [] && Nth(base + count, |ape|) <= |toks| < Nth(base + count, |ape|) + |ape|
    ensures Nth(base, |ape|) <= Nth(base + count, |ape|)
    ensures FinishedIn(toks, Nth(base, |ape|), |toks|, ape, cfg)
            == FinishedIn(toks, Nth(base, |ape|), Nth(base + count, |ape|), ape, cfg)
  {
    NthAdds(base, count, |ape|);
    NoneFinished(toks, base + count, |toks|, ape, cfg);
    FinishedSplit(toks, Nth(base, |ape|), Nth(base + count, |ape|), |toks|, ape, cfg);
  }

  /** The from-scratch path finishes the reference blocks. */
  lemma ForwardFinishes(toks: seq<Token>, count: nat, ape: seq<seq<real>>, cfg: Config)
    requires Shaped(cfg, ape) && Nth(count, |ape|) <= |toks| < Nth(count, |ape|) + |ape|
    ensures Emit(ForwardInputs(toks, count, ape, cfg), 0, |ape|) == FinishedIn(toks, 0, |toks|, ape, cfg)
  {
    ForwardIsReference(toks, count, ape, cfg);
    EmitIsFinished(ForwardInputs(toks, count, ape, cfg), toks, 0, ape, cfg);
    WholeThenRest(toks, 0, count, ape, cfg);
  }

  /** So does the aligned extend, off the carried block. */
  lemma {:induction false} ExtendFinishes(toks: seq<Token>, base: nat, carry: seq<Row>, added: seq<Token>, count: nat,
                                          ape: seq<seq<real>>, cfg: Config)
    requires Shaped(cfg, ape) && Nth(count, |ape|) <= |added| < Nth(count, |ape|) + |ape|
    requires Nth(base, |ape|) <= |toks| && added == toks[Nth(base, |ape|)..]
    requires cfg.overlap ==> carry == SeedRows(toks, base, ape, cfg)
    ensures Emit(ExtendInputs(carry, added, count, ape, cfg), base, |ape|)
            == FinishedIn(toks, Nth(base, |ape|), |toks|, ape, cfg)
  {
    NthAdds(base, count, |ape|);
    ExtendIsReference(toks, base, carry, added, count, ape, cfg);
    EmitIsFinished(ExtendInputs(carry, added, count, ape, cfg), toks, base, ape, cfg);
    WholeThenRest(toks, base, count, ape, cfg);
  }

  /** The register holds the last whole block of `added` (or what it carried, when there is none) and
      the tokens after it. */
  ghost predicate Stored(block: seq<Row>, carry: seq<Row>, added: seq<Token>, count: nat, ape: seq<seq<real>>,
                         cfg: Config) {
    && Shaped(cfg, ape) && |block| == cfg.ringSize
    && Nth(count, |ape|) <= |added| < Nth(count, |ape|) + |ape|
    && (cfg.overlap ==> block[..cfg.ratio] == if count > 0 then BlockRows(added, count - 1, ape) else carry)
    && var rest := |added| - Nth(count, |ape|);
       block[Offset(cfg)..Offset(cfg) + rest] == ScoredRows(added, Nth(count, |ape|), rest, ape)
  }

  class Register {
    const cfg: Config
    const state: array<Row>

    ghost predicate Valid(ape: seq<seq<real>>) {
      Shaped(cfg, ape) && state.Length == cfg.ringSize
    }

    constructor (cfg: Config)
      ensures this.cfg == cfg && fresh(state) && state[..] == seq(cfg.ringSize, _ => EmptyRow(cfg.item))
    {
      this.cfg := cfg;
      state := new Row[cfg.ringSize](_ => EmptyRow(cfg.item));
    }

    method Reset()
      modifies state
      ensures state[..] == seq(state.Length, _ => EmptyRow(cfg.item))
    {
      for i := 0 to state.Length
        invariant forall k :: 0 <= k < i ==> state[k] == EmptyRow(cfg.item)
      {
        state[i] := EmptyRow(cfg.item);
      }
    }

    /** With overlap, keep the last whole block for the next one; with none, what is there stays. */
    method StoreSeed(added: seq<Token>, count: nat, ape: seq<seq<real>>)
      requires Valid(ape) && Nth(count, |ape|) <= |added|
      modifies state
      ensures cfg.overlap ==>
                state[..cfg.ratio] == if count > 0 then BlockRows(added, count - 1, ape) else old(state[..cfg.ratio])
    {
      var cutoff := Nth(count, |ape|);
      if cfg.overlap && cutoff >= cfg.ratio {
        var rows := ScoredRows(added, cutoff - cfg.ratio, cfg.ratio, ape);
        CopyInto(state, 0, rows);
        assert rows == BlockRows(added, count - 1, ape);
      }
    }

    /** Store the rows of the unfinished block; `fill` clears its rows first. */
    method StoreRest(rows: seq<Row>, fill: bool, ape: seq<seq<real>>)
      requires Valid(ape) && |rows| <= cfg.ratio
      modifies state
      ensures cfg.overlap ==> state[..cfg.ratio] == old(state[..cfg.ratio])
      ensures state[Offset(cfg)..Offset(cfg) + |rows|] == rows
    {
      if fill {
        CopyInto(state, Offset(cfg), seq(cfg.ratio, _ => EmptyRow(cfg.item)));
      }
      label Filled:
      if rows != [] {
        CopyInto(state, Offset(cfg), rows);
      }
    }

    method StoreTail(added: seq<Token>, count: nat, remainder: nat, fill: bool, ape: seq<seq<real>>)
      requires Valid(ape) && remainder < cfg.ratio && Nth(count, cfg.ratio) + remainder == |added|
      modifies state
      ensures Stored(state[..], old(state[..Offset(cfg)]), added, count, ape, cfg)
    {
      StoreSeed(added, count, ape);
      StoreRest(ScoredRows(added, |added| - remainder, remainder, ape), fill, ape);
    }

    /** From-scratch prefill, after a reset. */
    method Forward(toks: seq<Token>, ape: seq<seq<real>>) returns (out: seq<Finished>)
      requires Valid(ape) && CarryOk(state[..], toks, 0, ape, cfg)
      modifies state
      ensures CarryOk(state[..], toks, |toks|, ape, cfg)
      ensures out == FinishedIn(toks, 0, |toks|, ape, cfg)
    {
      var count, remainder := Divide(|toks|, cfg.ratio);
      ghost var carry := state[..Offset(cfg)];
      StoreTail(toks, count, remainder, false, ape);
      BlockOfUnique(0, 0, cfg.ratio);
      StoredIsCarry(state[..], carry, toks, 0, toks, count, ape, cfg);
      out := Emit(ForwardInputs(toks, count, ape, cfg), 0, cfg.ratio);
      ForwardFinishes(toks, count, ape, cfg);
    }

    /** Extend by `added` from the start of a block, off the carry in the register. */
    method ExtendAligned(ghost toks: seq<Token>, start: nat, added: seq<Token>, ape: seq<seq<real>>)
      returns (out: seq<Finished>)
      requires Valid(ape) && CarryOk(state[..], toks, start, ape, cfg)
      requires BlockStart(start, cfg.ratio) == start <= |toks| && added == toks[start..]
      modifies state
      ensures CarryOk(state[..], toks, |toks|, ape, cfg)
      ensures out == FinishedIn(toks, start, |toks|, ape, cfg)
    {
      var count, remainder := Divide(|added|, cfg.ratio);
      var base, zero := Divide(start, cfg.ratio);
      BlockOfUnique(start, base, cfg.ratio);
      var carry := state[..Offset(cfg)];
      out := Emit(ExtendInputs(carry, added, count, ape, cfg), base, cfg.ratio);
      ExtendFinishes(toks, base, carry, added, count, ape, cfg);
      StoreTail(added, count, remainder, true, ape);
      StoredIsCarry(state[..], carry, toks, base, added, count, ape, cfg);
    }

    method StoreToken(tok: Token, pos: nat, ape: seq<seq<real>>)
      requires Valid(ape)
      modifies state
      ensures state[..] == Fed(old(state[..]), tok, pos, ape, cfg)
    {
      var idx := pos % cfg.ratio;
      state[Offset(cfg) + idx] := Scored(tok, ape[idx]);
    }

    method Roll(ape: seq<seq<real>>)
      requires Valid(ape)
      modifies state
      ensures state[..] == Rolled(old(state[..]), true, cfg)
    {
      if cfg.overlap {
        CopyInto(state, 0, state[cfg.ratio..]);
        assert state[..] == state[..cfg.ratio] + state[cfg.ratio..];
      }
    }

    /** One token of an unaligned extend. */
    method Feed(ghost toks: seq<Token>, pos: nat, tok: Token, ape: seq<seq<real>>) returns (out: seq<Finished>)
      requires Valid(ape) && CarryOk(state[..], toks, pos, ape, cfg)
      requires pos < |toks| && tok == toks[pos]
      modifies state
      ensures CarryOk(state[..], toks, pos + 1, ape, cfg)
      ensures out == FinishedAt(toks, pos + 1, ape, cfg)
    {
      DecodeStepOk(state[..], toks, pos, ape, cfg);
      StepEnds(pos, cfg.ratio);
      StoreToken(tok, pos, ape);
      out := [];
      if pos % cfg.ratio == cfg.ratio - 1 {
        out := [Finished(pos + 1 - cfg.ratio, Pooled(state[..], cfg))];
        Roll(ape);
      }
    }
  }

  lemma StepEnds(pos: nat, ratio: nat)
    requires ratio > 0
    ensures CompressedRows.Completed(pos, ratio) <==> pos % ratio == ratio - 1
    ensures pos % ratio == ratio - 1 ==> BlockStart(pos, ratio) == pos + 1 - ratio
  {
    CompressedRows.CompletedOffset(pos, ratio);
    InBlock(pos, BlockOf(pos, ratio), ratio);
  }

  lemma RestShift(toks: seq<Token>, base: nat, added: seq<Token>, count: nat, rest: nat,
                  ape: seq<seq<real>>)
    requires Nth(count, |ape|) + rest == |added| && rest <= |ape|
    requires Nth(base, |ape|) <= |toks| && added == toks[Nth(base, |ape|)..]
    ensures Nth(base + count, |ape|) + rest == |toks|
    ensures ScoredRows(added, Nth(count, |ape|), rest, ape) == ScoredRows(toks, Nth(base + count, |ape|), rest, ape)
  {
    NthAdds(base, count, |ape|);
  }

  lemma SeedShift(carry: seq<Row>, toks: seq<Token>, base: nat, added: seq<Token>, count: nat,
                  ape: seq<seq<real>>, cfg: Config)
    requires Nth(count, |ape|) <= |added|
    requires Nth(base, |ape|) <= |toks| && added == toks[Nth(base, |ape|)..]
    requires carry == SeedRows(toks, base, ape, cfg)
    ensures Nth(base + count, |ape|) <= |toks|
    ensures SeedRows(toks, base + count, ape, cfg) == if count > 0 then BlockRows(added, count - 1, ape) else carry
  {
    NthAdds(base, count, |ape|);
    if count > 0 {
      WholeBlockIs(toks, base, added, count - 1, ape);
    }
  }

  /** A reset register carries nothing: what a from-scratch prefill starts from. */
  lemma ResetIsCarry(state: seq<Row>, toks: seq<Token>, ape: seq<seq<real>>, cfg: Config)
    requires Shaped(cfg, ape) && state == seq(cfg.ringSize, _ => EmptyRow(cfg.item))
    ensures CarryOk(state, toks, 0, ape, cfg)
  {
    CarryIntro(state, toks, 0, 0, ape, cfg);
  }

  /** What a parallel path stores is the carry of the whole request. */
  lemma {:induction false} StoredIsCarry(block: seq<Row>, carry: seq<Row>, toks: seq<Token>, base: nat,
                                         added: seq<Token>, count: nat, ape: seq<seq<real>>, cfg: Config)
    requires Stored(block, carry, added, count, ape, cfg)
    requires Nth(base, |ape|) <= |toks| && added == toks[Nth(base, |ape|)..]
    requires cfg.overlap ==> carry == SeedRows(toks, base, ape, cfg)
    ensures CarryOk(block, toks, |toks|, ape, cfg)
  {
    RestShift(toks, base, added, count, |added| - Nth(count, |ape|), ape);
    if cfg.overlap {
      SeedShift(carry, toks, base, added, count, ape, cfg);
    }
    CarryIntro(block, toks, |toks|, base + count, ape, cfg);
  }

  // ----- the carries left in the ring ---------------------------------------------------------

  /** New tokens of different window pages sit in slots of different window pages. */
  ghost predicate PageWise(start: nat, added: seq<Token>, page: nat)
    requires page > 0
  {
    forall i, j :: 0 <= i < |added| && 0 <= j < |added| && (start + i) / page != (start + j) / page ==>
      added[i].slot / page != added[j].slot / page
  }

  /** The ring block of the window page of `slot` is the carry after `n` tokens. */
  ghost predicate CarryAt(ring: seq<Row>, slot: nat, toks: seq<Token>, n: nat, ape: seq<seq<real>>, cfg: Config)
    requires cfg.page > 0
  {
    Fits(PageBase(slot, cfg), cfg, |ring|) && CarryOk(GetBlock(ring, PageBase(slot, cfg), cfg.ringSize), toks, n, ape,
                                                      cfg)
  }

  /** Every window page the new tokens close up to length `upto` holds the carry at its end: a later
      request can resume from any of them by value. */
  ghost predicate Resumable(ring: seq<Row>, start: nat, added: seq<Token>, upto: nat, toks: seq<Token>,
                            ape: seq<seq<real>>, cfg: Config)
    requires cfg.page > 0 && upto <= start + |added|
  {
    forall x: nat :: IsBoundary(x, start, upto, cfg.page) ==> CarryAt(ring, SlotAt(x, start, added), toks, x, ape, cfg)
  }

  /** The blocks of window pages no new token sits in are as they were. */
  ghost predicate OthersKept(before: seq<Row>, after: seq<Row>, added: seq<Token>, cfg: Config)
    requires cfg.page > 0 && |before| == |after|
  {
    forall slot: nat | (forall i :: 0 <= i < |added| ==> added[i].slot / cfg.page != slot / cfg.page) ::
      Fits(PageBase(slot, cfg), cfg, |before|) ==>
      GetBlock(after, PageBase(slot, cfg), cfg.ringSize) == GetBlock(before, PageBase(slot, cfg), cfg.ringSize)
  }

  /** A boundary separates the pages of the positions before it from those at or after it. */
  lemma BoundarySeparates(x: nat, p: nat, q: nat, page: nat)
    requires page > 0 && x % page == 0 && p < x <= q
    ensures p / page != q / page
  {
    var k := x / page;
    assert x == k * page;
    MulAtLeast(k, page);
    MulDistributes(k, 1, page);
    DivModUnique(x - 1, k - 1, page - 1, page);
    DivMonotone(p, x - 1, page);
    DivMonotone(x, q, page);
    DivModUnique(x, k, 0, page);
  }

  lemma BoundarySlotsDiffer(x: nat, y: nat, start: nat, added: seq<Token>, page: nat)
    requires page > 0 && PageWise(start, added, page)
    requires start < x < y <= start + |added| && x % page == 0
    ensures SlotAt(x, start, added) / page != SlotAt(y, start, added) / page
  {
    BoundarySeparates(x, x - 1, y - 1, page);
    assert start + (x - 1 - start) == x - 1 && start + (y - 1 - start) == y - 1;
  }

  /** Writing the register at the page of the newest token keeps the carries at the boundaries before
      it, and leaves the newest one. */
  lemma WriteKeepsResumable(ring: seq<Row>, block: seq<Row>, start: nat, added: seq<Token>, n: nat,
                            toks: seq<Token>, ape: seq<seq<real>>, cfg: Config)
    requires cfg.page > 0 && PageWise(start, added, cfg.page)
    requires start < n <= start + |added| && CarryOk(block, toks, n, ape, cfg)
    requires Fits(PageBase(SlotAt(n, start, added), cfg), cfg, |ring|)
    requires Resumable(ring, start, added, n - 1, toks, ape, cfg)
    ensures var after := SetBlock(ring, PageBase(SlotAt(n, start, added), cfg), block, cfg.item);
            && Resumable(after, start, added, n, toks, ape, cfg)
            && CarryAt(after, SlotAt(n, start, added), toks, n, ape, cfg)
            && OthersKept(ring, after, added, cfg)
  {
    var slot := SlotAt(n, start, added);
    var after := SetBlock(ring, PageBase(slot, cfg), block, cfg.item);
    SetGet(ring, PageBase(slot, cfg), block, cfg.item, PageBase(slot, cfg));
    forall x: nat | IsBoundary(x, start, n - 1, cfg.page)
      ensures CarryAt(after, SlotAt(x, start, added), toks, x, ape, cfg)
    {
      assert CarryAt(ring, SlotAt(x, start, added), toks, x, ape, cfg);
      BoundarySlotsDiffer(x, n, start, added, cfg.page);
      OtherPageKept(ring, slot, block, SlotAt(x, start, added), cfg);
    }
    forall other: nat | slot / cfg.page != other / cfg.page && Fits(PageBase(other, cfg), cfg, |ring|)
      ensures GetBlock(after, PageBase(other, cfg), cfg.ringSize) == GetBlock(ring, PageBase(other, cfg), cfg.ringSize)
    {
      OtherPageKept(ring, slot, block, other, cfg);
    }
  }

  lemma OtherPageKept(ring: seq<Row>, slot: nat, block: seq<Row>, other: nat, cfg: Config)
    requires cfg.page > 0 && |block| == cfg.ringSize && slot / cfg.page != other / cfg.page
    requires Fits(PageBase(slot, cfg), cfg, |ring|) && Fits(PageBase(other, cfg), cfg, |ring|)
    ensures GetBlock(SetBlock(ring, PageBase(slot, cfg), block, cfg.item), PageBase(other, cfg), cfg.ringSize)
            == GetBlock(ring, PageBase(other, cfg), cfg.ringSize)
  {
    PagesDisjoint(slot, other, cfg);
    SetGet(ring, PageBase(slot, cfg), block, cfg.item, PageBase(other, cfg));
  }

  /** Slots of the new tokens lie inside the ring. */
  ghost predicate SlotsFit(added: seq<Token>, cfg: Config, size: nat)
    requires cfg.page > 0
  {
    forall i :: 0 <= i < |added| ==> Fits(PageBase(added[i].slot, cfg), cfg, size)
  }

  lemma PageWiseOwnsPages(start: nat, added: seq<Token>, page: nat)
    requires page > 0 && PageWise(start, added, page)
    ensures OwnPages(start, added, page)
  {
    forall a: nat, b: nat | IsBoundary(a, start, start + |added|, page) && IsBoundary(b, start, start + |added|, page)
      && a != b
      ensures SlotAt(a, start, added) / page != SlotAt(b, start, added) / page
    {
      if a < b {
        BoundarySlotsDiffer(a, b, start, added, page);
      } else {
        BoundarySlotsDiffer(b, a, start, added, page);
      }
    }
  }

  lemma PageIsBlocks(x: nat, cfg: Config)
    requires cfg.Valid() && cfg.page % cfg.ratio == 0 && x % cfg.page == 0
    ensures BlockStart(x, cfg.ratio) == x
  {
    CompressedRows.PageIsWholeBlocks(CompressedRows.Geometry(cfg.page, cfg.ratio), x);
    AlignedStart(x, cfg.ratio);
  }

  /** The position-local carry at a page boundary is a carry of the request. */
  lemma BoundaryCarryOk(toks: seq<Token>, start: nat, added: seq<Token>, x: nat, ape: seq<seq<real>>,
                        cfg: Config)
    requires Shaped(cfg, ape) && BlockStart(x, cfg.ratio) == x && start + cfg.ratio <= x <= |toks|
    requires added == toks[start..]
    ensures CarryOk(CarryBlock(added, x - start, ape, cfg), toks, x, ape, cfg)
  {
    var block, b := CarryBlock(added, x - start, ape, cfg), BlockOf(x, cfg.ratio);
    if cfg.overlap {
      assert block[..cfg.ratio] == BlockRows(toks, b - 1, ape);
    }
    CarryIntro(block, toks, x, b, ape, cfg);
  }

  lemma BoundaryResumable(ring: seq<Row>, start: nat, added: seq<Token>, toks: seq<Token>, x: nat,
                          ape: seq<seq<real>>, cfg: Config)
    requires Shaped(cfg, ape) && cfg.page % cfg.ratio == 0 && start % cfg.page == 0
    requires start <= |toks| && added == toks[start..]
    requires OwnPages(start, added, cfg.page) && PrefillRange(start, added, ape, cfg, |ring|)
    requires IsBoundary(x, start, start + |added|, cfg.page)
    ensures CarryAt(WriteFrom(ring, FirstBoundary(start, cfg.page), start, added, ape, cfg),
                    SlotAt(x, start, added), toks, x, ape, cfg)
  {
    FirstBoundaryIsLeast(start, x, cfg.page);
    BoundaryWritten(ring, FirstBoundary(start, cfg.page), start, added, ape, cfg, x);
    PageIsBlocks(x, cfg);
    BoundaryCarryOk(toks, start, added, x, ape, cfg);
  }

  /** After a parallel path from a page-aligned start, every window page it closed is resumable, and
      no page of other tokens has changed. */
  lemma BoundariesResumable(ring: seq<Row>, start: nat, added: seq<Token>, toks: seq<Token>,
                            ape: seq<seq<real>>, cfg: Config)
    requires Shaped(cfg, ape) && cfg.page % cfg.ratio == 0 && start % cfg.page == 0
    requires start <= |toks| && added == toks[start..]
    requires PageWise(start, added, cfg.page) && PrefillRange(start, added, ape, cfg, |ring|)
    ensures var after := WriteFrom(ring, FirstBoundary(start, cfg.page), start, added, ape, cfg);
            && Resumable(after, start, added, start + |added|, toks, ape, cfg)
            && OthersKept(ring, after, added, cfg)
  {
    PageWiseOwnsPages(start, added, cfg.page);
    forall x: nat | IsBoundary(x, start, start + |added|, cfg.page)
      ensures CarryAt(WriteFrom(ring, FirstBoundary(start, cfg.page), start, added, ape, cfg),
                      SlotAt(x, start, added), toks, x, ape, cfg)
    {
      BoundaryResumable(ring, start, added, toks, x, ape, cfg);
    }
    forall slot: nat | Fits(PageBase(slot, cfg), cfg, |ring|)
                       && (forall i :: 0 <= i < |added| ==> added[i].slot / cfg.page != slot / cfg.page)
      ensures GetBlock(WriteFrom(ring, FirstBoundary(start, cfg.page), start, added, ape, cfg),
                       PageBase(slot, cfg), cfg.ringSize)
              == GetBlock(ring, PageBase(slot, cfg), cfg.ringSize)
    {
      OtherPageUntouched(ring, start, added, slot, ape, cfg);
    }
  }

  lemma OtherPageUntouched(ring: seq<Row>, start: nat, added: seq<Token>, slot: nat,
                           ape: seq<seq<real>>, cfg: Config)
    requires PrefillRange(start, added, ape, cfg, |ring|) && Fits(PageBase(slot, cfg), cfg, |ring|)
    requires forall i :: 0 <= i < |added| ==> added[i].slot / cfg.page != slot / cfg.page
    ensures GetBlock(WriteFrom(ring, FirstBoundary(start, cfg.page), start, added, ape, cfg),
                     PageBase(slot, cfg), cfg.ringSize)
            == GetBlock(ring, PageBase(slot, cfg), cfg.ringSize)
  {
    UntouchedPageKept(ring, FirstBoundary(start, cfg.page), start, added, ape, cfg, slot);
  }

  /** The register as the ring block of the newest token's page: how a prefill ends, off a page
      boundary. */
  method WriteThrough(reg: Register, ring: CompressStateRing, start: nat, added: seq<Token>, n: nat,
                      ghost toks: seq<Token>, ape: seq<seq<real>>)
    requires reg.Valid(ape) && ring.item == reg.cfg.item && ring.buffer != reg.state
    requires PageWise(start, added, reg.cfg.page) && SlotsFit(added, reg.cfg, ring.buffer.Length)
    requires start < n <= start + |added| && CarryOk(reg.state[..], toks, n, ape, reg.cfg)
    requires Resumable(ring.buffer[..], start, added, n - 1, toks, ape, reg.cfg)
    modifies ring.buffer
    ensures Resumable(ring.buffer[..], start, added, n, toks, ape, reg.cfg)
    ensures CarryAt(ring.buffer[..], SlotAt(n, start, added), toks, n, ape, reg.cfg)
    ensures OthersKept(old(ring.buffer[..]), ring.buffer[..], added, reg.cfg)
  {
    WriteKeepsResumable(ring.buffer[..], reg.state[..], start, added, n, toks, ape, reg.cfg);
    ring.WriteCarry(added[n - 1 - start].slot, reg.state[..], reg.cfg);
  }

  lemma KeptTwice(a: seq<Row>, b: seq<Row>, c: seq<Row>, added: seq<Token>, cfg: Config)
    requires cfg.page > 0 && |a| == |b| == |c| && OthersKept(a, b, added, cfg) && OthersKept(b, c, added, cfg)
    ensures OthersKept(a, c, added, cfg)
  {
  }

  /** The tail page, unless the last token closed it. */
  method WriteTail(reg: Register, ring: CompressStateRing, start: nat, added: seq<Token>, ghost toks: seq<Token>,
                   ape: seq<seq<real>>)
    requires reg.Valid(ape) && ring.item == reg.cfg.item && ring.buffer != reg.state
    requires PageWise(start, added, reg.cfg.page) && SlotsFit(added, reg.cfg, ring.buffer.Length)
    requires added != [] && start + |added| == |toks| && CarryOk(reg.state[..], toks, |toks|, ape, reg.cfg)
    requires Resumable(ring.buffer[..], start, added, |toks|, toks, ape, reg.cfg)
    modifies ring.buffer
    ensures Resumable(ring.buffer[..], start, added, |toks|, toks, ape, reg.cfg)
    ensures CarryAt(ring.buffer[..], SlotAt(|toks|, start, added), toks, |toks|, ape, reg.cfg)
    ensures OthersKept(old(ring.buffer[..]), ring.buffer[..], added, reg.cfg)
  {
    var end := start + |added|;
    if end % reg.cfg.page != 0 {
      WriteThrough(reg, ring, start, added, end, toks, ape);
    } else {
      assert IsBoundary(end, start, end, reg.cfg.page);
    }
  }

  /** The end of a parallel path: boundary carries, then the tail page. */
  method WriteCarries(reg: Register, ring: CompressStateRing, start: nat, added: seq<Token>, ghost toks: seq<Token>,
                      ape: seq<seq<real>>)
    requires reg.Valid(ape) && ring.item == reg.cfg.item && ring.buffer != reg.state
    requires reg.cfg.page % reg.cfg.ratio == 0 && start % reg.cfg.page == 0
    requires start <= |toks| && added == toks[start..] && added != []
    requires PageWise(start, added, reg.cfg.page) && SlotsFit(added, reg.cfg, ring.buffer.Length)
    requires CarryOk(reg.state[..], toks, |toks|, ape, reg.cfg)
    modifies ring.buffer
    ensures Resumable(ring.buffer[..], start, added, |toks|, toks, ape, reg.cfg)
    ensures CarryAt(ring.buffer[..], SlotAt(|toks|, start, added), toks, |toks|, ape, reg.cfg)
    ensures OthersKept(old(ring.buffer[..]), ring.buffer[..], added, reg.cfg)
  {
    AlignedHasWholeSeed(start, start + |added|, reg.cfg);
    BoundariesResumable(ring.buffer[..], start, added, toks, ape, reg.cfg);
    ring.WriteBoundaryCarries(start, start + |added|, added, ape, reg.cfg);
    ghost var before := ring.buffer[..];
    WriteTail(reg, ring, start, added, toks, ape);
    KeptTwice(old(ring.buffer[..]), before, ring.buffer[..], added, reg.cfg);
  }

  /** No page ends at a length that is not a multiple of the page. */
  lemma NoBoundary(ring: seq<Row>, start: nat, added: seq<Token>, n: nat, toks: seq<Token>,
                   ape: seq<seq<real>>, cfg: Config)
    requires cfg.page > 0 && n < start + |added| && (n + 1) % cfg.page != 0
    requires Resumable(ring, start, added, n, toks, ape, cfg)
    ensures Resumable(ring, start, added, n + 1, toks, ape, cfg)
  {
  }

  /** Persist the register when the token at `pos` closes its page. */
  method WriteIfClosed(reg: Register, ring: CompressStateRing, start: nat, added: seq<Token>, pos: nat,
                       ghost toks: seq<Token>, ape: seq<seq<real>>)
    requires reg.Valid(ape) && ring.item == reg.cfg.item && ring.buffer != reg.state
    requires PageWise(start, added, reg.cfg.page) && SlotsFit(added, reg.cfg, ring.buffer.Length)
    requires start <= pos < start + |added| && CarryOk(reg.state[..], toks, pos + 1, ape, reg.cfg)
    requires Resumable(ring.buffer[..], start, added, pos, toks, ape, reg.cfg)
    modifies ring.buffer
    ensures Resumable(ring.buffer[..], start, added, pos + 1, toks, ape, reg.cfg)
    ensures OthersKept(old(ring.buffer[..]), ring.buffer[..], added, reg.cfg)
  {
    CompressedRows.CompletedOffset(pos, reg.cfg.page);
    if pos % reg.cfg.page == reg.cfg.page - 1 {
      WriteThrough(reg, ring, start, added, pos + 1, toks, ape);
    } else {
      NoBoundary(ring.buffer[..], start, added, pos, toks, ape, reg.cfg);
    }
  }

  /** How far an unaligned extend has come: the register, the ring and the finished blocks after the
      tokens up to length `pos`. */
  ghost predicate Extended(block: seq<Row>, before: seq<Row>, ring: seq<Row>, out: seq<Finished>, start: nat,
                           added: seq<Token>, pos: nat, toks: seq<Token>, ape: seq<seq<real>>, cfg: Config)
  {
    && Shaped(cfg, ape) && |before| == |ring| && start <= pos <= |toks| == start + |added|
    && CarryOk(block, toks, pos, ape, cfg)
    && out == FinishedIn(toks, start, pos, ape, cfg)
    && Resumable(ring, start, added, pos, toks, ape, cfg)
    && OthersKept(before, ring, added, cfg)
  }

  /** One step of the unaligned path: feed a token, and persist the register when it closes a page. */
  method ExtendByOne(reg: Register, ring: CompressStateRing, start: nat, added: seq<Token>, pos: nat,
                     out: seq<Finished>, ghost before: seq<Row>, ghost toks: seq<Token>, ape: seq<seq<real>>)
    returns (out': seq<Finished>)
    requires reg.Valid(ape) && ring.item == reg.cfg.item && ring.buffer != reg.state
    requires pos < |toks| && start <= pos < start + |added| && added[pos - start] == toks[pos]
    requires PageWise(start, added, reg.cfg.page) && SlotsFit(added, reg.cfg, ring.buffer.Length)
    requires Extended(reg.state[..], before, ring.buffer[..], out, start, added, pos, toks, ape, reg.cfg)
    modifies reg.state, ring.buffer
    ensures Extended(reg.state[..], before, ring.buffer[..], out', start, added, pos + 1, toks, ape, reg.cfg)
  {
    ghost var mid := ring.buffer[..];
    var step := reg.Feed(toks, pos, added[pos - start], ape);
    WriteIfClosed(reg, ring, start, added, pos, toks, ape);
    KeptTwice(before, mid, ring.buffer[..], added, reg.cfg);
    out' := out + step;
  }

  /** Extend token by token from anywhere. */
  method ExtendByTokens(reg: Register, ring: CompressStateRing, start: nat, added: seq<Token>, ghost toks: seq<Token>,
                        ape: seq<seq<real>>)
    returns (out: seq<Finished>)
    requires reg.Valid(ape) && ring.item == reg.cfg.item && ring.buffer != reg.state
    requires start + |added| == |toks| && forall pos :: start <= pos < |toks| ==> added[pos - start] == toks[pos]
    requires PageWise(start, added, reg.cfg.page) && SlotsFit(added, reg.cfg, ring.buffer.Length)
    requires CarryOk(reg.state[..], toks, start, ape, reg.cfg)
    modifies reg.state, ring.buffer
    ensures Extended(reg.state[..], old(ring.buffer[..]), ring.buffer[..], out, start, added, |toks|, toks, ape,
                     reg.cfg)
  {
    out := [];
    ghost var before := ring.buffer[..];
    for pos := start to start + |added|
      invariant Extended(reg.state[..], before, ring.buffer[..], out, start, added, pos, toks, ape, reg.cfg)
    {
      out := ExtendByOne(reg, ring, start, added, pos, out, before, toks, ape);
    }
  }

  method ExtendUnaligned(reg: Register, ring: CompressStateRing, start: nat, added: seq<Token>, ghost toks: seq<Token>,
                         ape: seq<seq<real>>)
    returns (out: seq<Finished>)
    requires reg.Valid(ape) && ring.item == reg.cfg.item && ring.buffer != reg.state
    requires start + |added| == |toks| && added != []
    requires forall pos :: start <= pos < |toks| ==> added[pos - start] == toks[pos]
    requires PageWise(start, added, reg.cfg.page) && SlotsFit(added, reg.cfg, ring.buffer.Length)
    requires CarryOk(reg.state[..], toks, start, ape, reg.cfg)
    modifies reg.state, ring.buffer
    ensures out == FinishedIn(toks, start, |toks|, ape, reg.cfg)
    ensures Resumable(ring.buffer[..], start, added, |toks|, toks, ape, reg.cfg)
    ensures CarryAt(ring.buffer[..], SlotAt(|toks|, start, added), toks, |toks|, ape, reg.cfg)
    ensures OthersKept(old(ring.buffer[..]), ring.buffer[..], added, reg.cfg)
  {
    out := ExtendByTokens(reg, ring, start, added, toks, ape);
    ghost var before := ring.buffer[..];
    WriteTail(reg, ring, start, added, toks, ape);
    KeptTwice(old(ring.buffer[..]), before, ring.buffer[..], added, reg.cfg);
  }

  /** Take the register over from the ring: resume by value. */
  method Seed(reg: Register, ring: CompressStateRing, slot: nat, ghost toks: seq<Token>, n: nat, ape: seq<seq<real>>)
    requires reg.Valid(ape) && ring.buffer != reg.state && CarryAt(ring.buffer[..], slot, toks, n, ape, reg.cfg)
    modifies reg.state
    ensures CarryOk(reg.state[..], toks, n, ape, reg.cfg)
  {
    var base := PageBase(slot, reg.cfg);
    ghost var block := GetBlock(ring.buffer[..], base, reg.cfg.ringSize);
    CopyInto(reg.state, 0, ring.buffer[base..base + reg.cfg.ringSize]);
    assert reg.state[..] == block;
  }

  /** Any prefill call of the compressor.  From scratch it needs a reset register; a continuation
      needs the carry at the page of the token before it.  Whichever path it takes, it finishes the
      reference blocks of its range, leaves a resumable carry at every window page it closed and at
      the page of its last token, and touches no other page. */
  method Prefill(reg: Register, ring: CompressStateRing, start: nat, added: seq<Token>, tailSlot: nat, capture: bool,
                 ghost toks: seq<Token>, ape: seq<seq<real>>)
    returns (out: seq<Finished>)
    requires reg.Valid(ape) && reg.cfg.page % reg.cfg.ratio == 0
    requires ring.item == reg.cfg.item && ring.buffer != reg.state
    requires start <= |toks| && added == toks[start..] && added != []
    requires PageWise(start, added, reg.cfg.page) && SlotsFit(added, reg.cfg, ring.buffer.Length)
    requires start == 0 ==> CarryOk(reg.state[..], toks, 0, ape, reg.cfg)
    requires start > 0 ==> CarryAt(ring.buffer[..], tailSlot, toks, start, ape, reg.cfg)
    modifies reg.state, ring.buffer
    ensures out == FinishedIn(toks, start, |toks|, ape, reg.cfg)
    ensures Resumable(ring.buffer[..], start, added, |toks|, toks, ape, reg.cfg)
    ensures CarryAt(ring.buffer[..], SlotAt(|toks|, start, added), toks, |toks|, ape, reg.cfg)
    ensures OthersKept(old(ring.buffer[..]), ring.buffer[..], added, reg.cfg)
  {
    if start == 0 {
      assert added == toks;
      out := reg.Forward(added, ape);
      DivModUnique(0, 0, 0, reg.cfg.page);
    } else {
      Seed(reg, ring, tailSlot, toks, start, ape);
      if start % reg.cfg.page != 0 || capture {
        out := ExtendUnaligned(reg, ring, start, added, toks, ape);
        return;
      }
      PageIsBlocks(start, reg.cfg);
      out := reg.ExtendAligned(toks, start, added, ape);
    }
    WriteCarries(reg, ring, start, added, toks, ape);
  }
}
