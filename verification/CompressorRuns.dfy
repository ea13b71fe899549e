/** The compressor over a whole request: a prompt prefilled in any chunks, then decoded next to any
    co-tenants, stores exactly the reference blocks. */
module CompressorRuns {
  import opened Sequences
  import opened CarryRing
  import opened Compressor
  import opened CompressorPaths
  import CompressedRows

  // ----- a prompt in chunks -------------------------------------------------------------------

  /** The chunks of a prompt, none of them empty.  Each sits on window pages of its own while it is
      prefilled; pages that slide out of the window may be handed to later chunks. */
  ghost predicate Chunks(chunks: seq<seq<Token>>, cfg: Config, size: nat)
    requires cfg.page > 0
  {
    forall k :: 0 <= k < |chunks| ==>
      && chunks[k] != []
      && PageWise(|Flatten(chunks[..k])|, chunks[k], cfg.page)
      && SlotsFit(chunks[k], cfg, size)
  }

  lemma NextChunk(chunks: seq<seq<Token>>, k: nat)
    requires k < |chunks|
    ensures Flatten(chunks[..k + 1]) == Flatten(chunks[..k]) + chunks[k]
  {
    assert chunks[..k + 1][..k] == chunks[..k];
  }

  /** Pages outside a prompt outlive it chunk by chunk. */
  lemma KeptByBoth(a: seq<Row>, b: seq<Row>, c: seq<Row>, past: seq<Token>, added: seq<Token>, cfg: Config)
    requires cfg.page > 0 && |a| == |b| == |c| && OthersKept(a, b, past, cfg) && OthersKept(b, c, added, cfg)
    ensures OthersKept(a, c, past + added, cfg)
  {
    var all := past + added;
    forall slot: nat | Fits(PageBase(slot, cfg), cfg, |a|)
                       && (forall i :: 0 <= i < |all| ==> all[i].slot / cfg.page != slot / cfg.page)
      ensures GetBlock(c, PageBase(slot, cfg), cfg.ringSize) == GetBlock(a, PageBase(slot, cfg), cfg.ringSize)
    {
      assert forall i :: 0 <= i < |past| ==> past[i] == all[i];
      assert forall i :: 0 <= i < |added| ==> added[i] == all[|past| + i];
    }
  }

  /** A prompt between chunks: its blocks so far are stored, and it can be continued from the page of
      its last token. */
  ghost predicate Prefilled(ring: seq<Row>, state: seq<Row>, toks: seq<Token>, out: seq<Finished>, ape: seq<seq<real>>,
                            cfg: Config) {
    && Shaped(cfg, ape)
    && out == FinishedIn(toks, 0, |toks|, ape, cfg)
    && if toks == [] then CarryOk(state, toks, 0, ape, cfg)
       else CarryAt(ring, toks[|toks| - 1].slot, toks, |toks|, ape, cfg)
  }

  /** Between chunks, with the length so far and the slot of the last token. */
  ghost predicate PromptAt(before: seq<Row>, ring: seq<Row>, state: seq<Row>, toks: seq<Token>, start: nat,
                           tailSlot: nat, out: seq<Finished>, ape: seq<seq<real>>, cfg: Config) {
    && start == |toks| && (start > 0 ==> tailSlot == toks[start - 1].slot)
    && Prefilled(ring, state, toks, out, ape, cfg)
    && |before| == |ring| && OthersKept(before, ring, toks, cfg)
  }

  /** One chunk more. */
  method PrefillChunk(reg: Register, ring: CompressStateRing, ghost before: seq<Row>, ghost past: seq<Token>,
                      start: nat,
                      added: seq<Token>, tailSlot: nat, capture: bool, out: seq<Finished>, ape: seq<seq<real>>)
    returns (out': seq<Finished>)
    requires reg.Valid(ape) && reg.cfg.page % reg.cfg.ratio == 0
    requires ring.item == reg.cfg.item && ring.buffer != reg.state
    requires added != [] && PageWise(start, added, reg.cfg.page) && SlotsFit(added, reg.cfg, ring.buffer.Length)
    requires PromptAt(before, ring.buffer[..], reg.state[..], past, start, tailSlot, out, ape, reg.cfg)
    modifies reg.state, ring.buffer
    ensures PromptAt(before, ring.buffer[..], reg.state[..], past + added, start + |added|, added[|added| - 1].slot,
                     out', ape, reg.cfg)
  {
    ghost var toks, mid := past + added, ring.buffer[..];
    CarryMoves(ring.buffer[..], reg.state[..], past, toks, out, ape, reg.cfg);
    assert added == toks[start..];
    var step := Prefill(reg, ring, start, added, tailSlot, capture, toks, ape);
    out' := out + step;
    ChunkDone(ring.buffer[..], reg.state[..], past, added, out, step, ape, reg.cfg);
    KeptByBoth(before, mid, ring.buffer[..], past, added, reg.cfg);
  }

  lemma ChunkDone(ring: seq<Row>, state: seq<Row>, past: seq<Token>, added: seq<Token>,
                  out: seq<Finished>, step: seq<Finished>, ape: seq<seq<real>>, cfg: Config)
    requires Shaped(cfg, ape) && added != []
    requires out == FinishedIn(past, 0, |past|, ape, cfg)
    requires step == FinishedIn(past + added, |past|, |past + added|, ape, cfg)
    requires CarryAt(ring, SlotAt(|past + added|, |past|, added), past + added, |past + added|, ape, cfg)
    ensures Prefilled(ring, state, past + added, out + step, ape, cfg)
  {
    FinishedOfPrefix(past, past + added, 0, |past|, ape, cfg);
    FinishedSplit(past + added, 0, |past|, |past + added|, ape, cfg);
  }

  lemma CarryMoves(ring: seq<Row>, state: seq<Row>, past: seq<Token>, toks: seq<Token>,
                   out: seq<Finished>, ape: seq<seq<real>>, cfg: Config)
    requires Prefilled(ring, state, past, out, ape, cfg) && past <= toks
    ensures past == [] ==> CarryOk(state, toks, 0, ape, cfg)
    ensures past != [] ==> CarryAt(ring, past[|past| - 1].slot, toks, |past|, ape, cfg)
  {
    if past == [] {
      CarryOfPrefix(state, past, toks, 0, ape, cfg);
    } else {
      CarryOfPrefix(GetBlock(ring, PageBase(past[|past| - 1].slot, cfg), cfg.ringSize), past, toks, |past|, ape, cfg);
    }
  }

  /** Prefilling a prompt in chunks, after a reset: for every way of cutting it, aligned or not, and
      also when later chunks reuse the window pages of earlier ones, the blocks stored are those of
      the whole prompt, the page of its last token holds its carry, and pages the prompt never sat in
      are untouched. */
  method PrefillPrompt(reg: Register, ring: CompressStateRing, chunks: seq<seq<Token>>, capture: nat -> bool,
                       ape: seq<seq<real>>)
    returns (out: seq<Finished>)
    requires reg.Valid(ape) && reg.cfg.page % reg.cfg.ratio == 0
    requires ring.item == reg.cfg.item && ring.buffer != reg.state
    requires Chunks(chunks, reg.cfg, ring.buffer.Length) && CarryOk(reg.state[..], [], 0, ape, reg.cfg)
    modifies reg.state, ring.buffer
    ensures Prefilled(ring.buffer[..], reg.state[..], Flatten(chunks), out, ape, reg.cfg)
    ensures OthersKept(old(ring.buffer[..]), ring.buffer[..], Flatten(chunks), reg.cfg)
  {
    out := [];
    ghost var before, past := ring.buffer[..], [];
    var start: nat, tailSlot: nat := 0, 0;
    for k := 0 to |chunks|
      invariant past == Flatten(chunks[..k])
      invariant PromptAt(before, ring.buffer[..], reg.state[..], past, start, tailSlot, out, ape, reg.cfg)
    {
      out := PrefillChunk(reg, ring, before, past, start, chunks[k], tailSlot, capture(k), out, ape);
      NextChunk(chunks, k);
      past := past + chunks[k];
      start, tailSlot := start + |chunks[k]|, chunks[k][|chunks[k]| - 1].slot;
    }
    assert chunks[..|chunks|] == chunks;
  }

  // ----- decode -------------------------------------------------------------------------------

  /** Each row of a decode batch: its tokens, and how many of them were in before the first step. */
  datatype DecodeRow = DecodeRow(toks: seq<Token>, len: nat)

  /** How a row advances its carry block at step `p`. */
  ghost function AdvanceOne(row: DecodeRow, p: nat, block: seq<Row>, ape: seq<seq<real>>, cfg: Config): (r: seq<Row>)
    ensures |r| == |block|
  {
    if 0 < p && row.len + p <= |row.toks| && Shaped(cfg, ape) && |block| == cfg.ringSize then
      DecodeCarry(block, row.toks, row.len + p - 1, ape, cfg)
    else block
  }

  /** The rows of a captured batch, the requests first: the window slots they write to after each
      step, and the tokens the padding rows feed, at position 0 in every step. */
  datatype Lanes = Lanes(slots: nat -> seq<nat>, pad: (nat, nat) -> Token) {
    function Rows(): nat {
      |slots(0)|
    }
  }

  ghost function AdvanceRow(batch: seq<DecodeRow>, lanes: Lanes, i: nat, p: nat, block: seq<Row>, ape: seq<seq<real>>,
                            cfg: Config): (r: seq<Row>)
    ensures |r| == |block|
  {
    if i < |batch| then AdvanceOne(batch[i], p, block, ape, cfg)
    else AdvanceOne(DecodeRow([lanes.pad(i, p)], 0), 1, block, ape, cfg)
  }

  ghost function AdvanceOf(batch: seq<DecodeRow>, lanes: Lanes, ape: seq<seq<real>>, cfg: Config): Advance {
    (i: nat, p: nat, block: seq<Row>) => AdvanceRow(batch, lanes, i, p, block, ape, cfg)
  }

  lemma AdvanceKeepsSize(batch: seq<DecodeRow>, lanes: Lanes, ape: seq<seq<real>>, cfg: Config)
    ensures KeepsSize(AdvanceOf(batch, lanes, ape, cfg), cfg)
  {
  }

  /** The ring after `n` steps. */
  ghost function RingAfterRun(ring: seq<Row>, lanes: Lanes, batch: seq<DecodeRow>, n: nat, ape: seq<seq<real>>,
                              cfg: Config): (r: seq<Row>)
    requires SlotRun(lanes.slots, lanes.Rows(), n, cfg, |ring|)
    ensures |r| == |ring|
  {
    AdvanceKeepsSize(batch, lanes, ape, cfg);
    RingAfter(ring, lanes.slots, lanes.Rows(), n, AdvanceOf(batch, lanes, ape, cfg), cfg)
  }

  lemma AdvanceOneOk(row: DecodeRow, p: nat, pos: nat, block: seq<Row>, ape: seq<seq<real>>, cfg: Config)
    requires row.len <= pos < |row.toks| && row.len + p == pos + 1 && CarryOk(block, row.toks, pos, ape, cfg)
    ensures CarryOk(AdvanceOne(row, p, block, ape, cfg), row.toks, pos + 1, ape, cfg)
  {
    DecodeStepOk(block, row.toks, pos, ape, cfg);
    assert AdvanceOne(row, p, block, ape, cfg) == DecodeCarry(block, row.toks, pos, ape, cfg);
  }

  /** What every advance keeps holds of the advanced carry. */
  lemma {:induction false} OwnCarryKeeps(holds: (nat, seq<Row>) -> bool, adv: Advance, i: nat, start: seq<Row>, n: nat)
    requires holds(0, start)
    requires forall m: nat, block: seq<Row> :: 0 < m <= n && holds(m - 1, block) ==> holds(m, adv(i, m, block))
    ensures holds(n, OwnCarry(i, start, adv, n))
  {
    if n > 0 {
      OwnCarryKeeps(holds, adv, i, start, n - 1);
    }
  }

  /** A row's carry advanced by its own tokens is the carry of its longer history. */
  lemma {:induction false} OwnCarryOk(batch: seq<DecodeRow>, lanes: Lanes, i: nat, start: seq<Row>, n: nat,
                                      ape: seq<seq<real>>, cfg: Config)
    requires i < |batch| && batch[i].len + n <= |batch[i].toks|
    requires CarryOk(start, batch[i].toks, batch[i].len, ape, cfg)
    ensures CarryOk(OwnCarry(i, start, AdvanceOf(batch, lanes, ape, cfg), n), batch[i].toks, batch[i].len + n, ape, cfg)
  {
    var holds := CarryOf(batch[i], ape, cfg);
    CarryOfKept(batch, lanes, i, n, ape, cfg);
    OwnCarryKeeps(holds, AdvanceOf(batch, lanes, ape, cfg), i, start, n);
    assert holds(n, OwnCarry(i, start, AdvanceOf(batch, lanes, ape, cfg), n));
  }

  /** Being the row's carry `m` steps on. */
  ghost function CarryOf(row: DecodeRow, ape: seq<seq<real>>, cfg: Config): (nat, seq<Row>) -> bool {
    (m: nat, block: seq<Row>) => CarryOk(block, row.toks, row.len + m, ape, cfg)
  }

  lemma CarryOfKept(batch: seq<DecodeRow>, lanes: Lanes, i: nat, n: nat, ape: seq<seq<real>>, cfg: Config)
    requires i < |batch| && batch[i].len + n <= |batch[i].toks|
    ensures forall m: nat, block: seq<Row> :: 0 < m <= n && CarryOf(batch[i], ape, cfg)(m - 1, block) ==>
              CarryOf(batch[i], ape, cfg)(m, AdvanceOf(batch, lanes, ape, cfg)(i, m, block))
  {
    forall m: nat, block: seq<Row> | 0 < m <= n && CarryOf(batch[i], ape, cfg)(m - 1, block)
      ensures CarryOf(batch[i], ape, cfg)(m, AdvanceOf(batch, lanes, ape, cfg)(i, m, block))
    {
      AdvanceOneOk(batch[i], m, batch[i].len + m - 1, block, ape, cfg);
      assert AdvanceOf(batch, lanes, ape, cfg)(i, m, block) == AdvanceOne(batch[i], m, block, ape, cfg);
    }
  }

  /** The decode run of a batch, from a ring that holds every request's carry; each request writes to
      window pages of its own, the padding anywhere else. */
  ghost predicate DecodeReady(ring: seq<Row>, lanes: Lanes, batch: seq<DecodeRow>, n: nat, ape: seq<seq<real>>,
                              cfg: Config) {
    && Shaped(cfg, ape)
    && SlotRun(lanes.slots, lanes.Rows(), n, cfg, |ring|)
    && |batch| <= lanes.Rows()
    && forall i :: 0 <= i < |batch| ==>
         && batch[i].len + n <= |batch[i].toks| && OwnLane(lanes.slots, i, n, cfg.page)
         && CarryAt(ring, lanes.slots(0)[i], batch[i].toks, batch[i].len, ape, cfg)
  }

  /** After `n` steps, next to its co-tenants and across page boundaries, row `i`'s page holds row
      `i`'s carry. */
  lemma DecodeKeepsCarry(ring: seq<Row>, lanes: Lanes, batch: seq<DecodeRow>, n: nat, i: nat,
                         ape: seq<seq<real>>, cfg: Config)
    requires DecodeReady(ring, lanes, batch, n, ape, cfg) && i < |batch|
    ensures |batch| <= |lanes.slots(n)|
    ensures CarryAt(RingAfterRun(ring, lanes, batch, n, ape, cfg), lanes.slots(n)[i],
                    batch[i].toks, batch[i].len + n, ape, cfg)
  {
    AdvanceKeepsSize(batch, lanes, ape, cfg);
    CarryFollowsRequest(ring, lanes.slots, lanes.Rows(), n, AdvanceOf(batch, lanes, ape, cfg), cfg, i);
    OwnCarryOk(batch, lanes, i, GetBlock(ring, PageBase(lanes.slots(0)[i], cfg), cfg.ringSize), n, ape, cfg);
  }

  /** `reg` is the register row `i` reads after `m` steps: the ring block at the page it wrote last. */
  ghost predicate IsRegister(reg: seq<Row>, ring: seq<Row>, lanes: Lanes, batch: seq<DecodeRow>, m: nat, i: nat,
                             ape: seq<seq<real>>, cfg: Config) {
    && SlotRun(lanes.slots, lanes.Rows(), m, cfg, |ring|) && i < |lanes.slots(m)| == lanes.Rows()
    && DecodeSlots(lanes.slots(m), cfg, |ring|)
    && reg == GetBlock(RingAfterRun(ring, lanes, batch, m, ape, cfg), PageBase(lanes.slots(m)[i], cfg), cfg.ringSize)
  }

  lemma ReadyEarlier(ring: seq<Row>, lanes: Lanes, batch: seq<DecodeRow>, m: nat, n: nat, ape: seq<seq<real>>,
                     cfg: Config)
    requires DecodeReady(ring, lanes, batch, n, ape, cfg) && m <= n
    ensures DecodeReady(ring, lanes, batch, m, ape, cfg)
  {
  }

  lemma RegisterIsCarry(reg: seq<Row>, ring: seq<Row>, lanes: Lanes, batch: seq<DecodeRow>,
                        m: nat, i: nat, ape: seq<seq<real>>, cfg: Config)
    requires IsRegister(reg, ring, lanes, batch, m, i, ape, cfg)
    requires DecodeReady(ring, lanes, batch, m, ape, cfg) && i < |batch|
    ensures CarryOk(reg, batch[i].toks, batch[i].len + m, ape, cfg)
  {
    DecodeKeepsCarry(ring, lanes, batch, m, i, ape, cfg);
  }

  /** What a decode step stores in the pool, off the register it has read. */
  ghost function StepOut(block: seq<Row>, tok: Token, pos: nat, ape: seq<seq<real>>, cfg: Config): seq<Finished>
    requires Shaped(cfg, ape) && |block| == cfg.ringSize
  {
    if CompressedRows.Completed(pos, cfg.ratio)
    then [Finished(BlockStart(pos, cfg.ratio), Pooled(Fed(block, tok, pos, ape, cfg), cfg))] else []
  }

  lemma StepOutIs(block: seq<Row>, toks: seq<Token>, pos: nat, ape: seq<seq<real>>, cfg: Config)
    requires CarryOk(block, toks, pos, ape, cfg) && pos < |toks|
    ensures StepOut(block, toks[pos], pos, ape, cfg) == FinishedAt(toks, pos + 1, ape, cfg)
  {
    DecodeStepOk(block, toks, pos, ape, cfg);
  }

  /** The registers read over a run are carries of the growing history. */
  ghost predicate Carries(regs: seq<seq<Row>>, toks: seq<Token>, len: nat, ape: seq<seq<real>>, cfg: Config) {
    len + |regs| <= |toks| && Shaped(cfg, ape) &&
    forall m: nat :: m < |regs| ==> CarryIn(regs, m, toks, len, ape, cfg)
  }

  ghost predicate CarryIn(regs: seq<seq<Row>>, m: nat, toks: seq<Token>, len: nat, ape: seq<seq<real>>, cfg: Config)
    requires m < |regs|
  {
    CarryOk(regs[m], toks, len + m, ape, cfg)
  }

  lemma FewerCarries(regs: seq<seq<Row>>, toks: seq<Token>, len: nat, ape: seq<seq<real>>, cfg: Config)
    requires Carries(regs, toks, len, ape, cfg) && regs != []
    ensures Carries(regs[..|regs| - 1], toks, len, ape, cfg)
    ensures CarryOk(regs[|regs| - 1], toks, len + |regs| - 1, ape, cfg)
  {
    assert CarryIn(regs, |regs| - 1, toks, len, ape, cfg);
    var front := regs[..|regs| - 1];
    forall m: nat | m < |front| ensures CarryIn(front, m, toks, len, ape, cfg) {
      assert CarryIn(regs, m, toks, len, ape, cfg);
    }
  }

  /** What the steps store, in order. */
  ghost function StepsOut(regs: seq<seq<Row>>, toks: seq<Token>, len: nat, ape: seq<seq<real>>,
                          cfg: Config): seq<Finished>
    requires Carries(regs, toks, len, ape, cfg)
  {
    if regs == [] then [] else
    var m := |regs| - 1;
    FewerCarries(regs, toks, len, ape, cfg);
    StepsOut(regs[..m], toks, len, ape, cfg) + StepOut(regs[m], toks[len + m], len + m, ape, cfg)
  }

  lemma {:induction false} StepsOutLast(regs: seq<seq<Row>>, toks: seq<Token>, len: nat, ape: seq<seq<real>>,
                                        cfg: Config)
    requires Carries(regs, toks, len, ape, cfg) && regs != []
    ensures Carries(regs[..|regs| - 1], toks, len, ape, cfg)
    ensures StepsOut(regs, toks, len, ape, cfg)
            == StepsOut(regs[..|regs| - 1], toks, len, ape, cfg) + FinishedAt(toks, len + |regs|, ape, cfg)
  {
    FewerCarries(regs, toks, len, ape, cfg);
    StepOutIs(regs[|regs| - 1], toks, len + |regs| - 1, ape, cfg);
  }

  lemma {:induction false} StepsOutIs(regs: seq<seq<Row>>, toks: seq<Token>, len: nat, hi: nat, ape: seq<seq<real>>,
                                      cfg: Config)
    requires Carries(regs, toks, len, ape, cfg) && hi == len + |regs|
    ensures StepsOut(regs, toks, len, ape, cfg) == FinishedIn(toks, len, hi, ape, cfg)
  {
    if regs != [] {
      StepsOutLast(regs, toks, len, ape, cfg);
      StepsOutIs(regs[..|regs| - 1], toks, len, hi - 1, ape, cfg);
      FinishedNext(toks, len, hi, ape, cfg);
    }
  }

  /** The registers row `i` reads over a decode run, one per step. */
  ghost predicate ReadInRun(regs: seq<seq<Row>>, ring: seq<Row>, lanes: Lanes, batch: seq<DecodeRow>, i: nat,
                            ape: seq<seq<real>>, cfg: Config) {
    forall m: nat {:trigger IsRegister(regs[m], ring, lanes, batch, m, i, ape, cfg)} ::
      m < |regs| ==> IsRegister(regs[m], ring, lanes, batch, m, i, ape, cfg)
  }

  lemma ReadAreCarries(regs: seq<seq<Row>>, ring: seq<Row>, lanes: Lanes, batch: seq<DecodeRow>,
                       i: nat, ape: seq<seq<real>>, cfg: Config)
    requires ReadInRun(regs, ring, lanes, batch, i, ape, cfg)
    requires DecodeReady(ring, lanes, batch, |regs|, ape, cfg) && i < |batch|
    ensures Carries(regs, batch[i].toks, batch[i].len, ape, cfg)
  {
    forall m: nat | m < |regs| ensures CarryIn(regs, m, batch[i].toks, batch[i].len, ape, cfg) {
      ReadyEarlier(ring, lanes, batch, m, |regs|, ape, cfg);
      RegisterIsCarry(regs[m], ring, lanes, batch, m, i, ape, cfg);
    }
  }

  /** What request `i` stores over a decode run. */
  ghost function DecodeOut(regs: seq<seq<Row>>, ring: seq<Row>, lanes: Lanes, batch: seq<DecodeRow>, i: nat,
                           ape: seq<seq<real>>, cfg: Config): (out: seq<Finished>)
    requires ReadInRun(regs, ring, lanes, batch, i, ape, cfg)
    requires DecodeReady(ring, lanes, batch, |regs|, ape, cfg) && i < |batch|
  {
    ReadAreCarries(regs, ring, lanes, batch, i, ape, cfg);
    StepsOut(regs, batch[i].toks, batch[i].len, ape, cfg)
  }

  /** Decode stores the reference blocks.  Over a run of any length, next to any co-tenants and any
      padding, and across window pages, the blocks a request stores are those of its own tokens -- the
      very blocks a prefill of the same tokens would have stored. */
  lemma DecodeStoresOwnBlocks(regs: seq<seq<Row>>, ring: seq<Row>, lanes: Lanes,
                              batch: seq<DecodeRow>, i: nat, ape: seq<seq<real>>, cfg: Config)
    requires ReadInRun(regs, ring, lanes, batch, i, ape, cfg)
    requires DecodeReady(ring, lanes, batch, |regs|, ape, cfg) && i < |batch|
    ensures DecodeOut(regs, ring, lanes, batch, i, ape, cfg)
            == FinishedIn(batch[i].toks, batch[i].len, batch[i].len + |regs|, ape, cfg)
  {
    ReadAreCarries(regs, ring, lanes, batch, i, ape, cfg);
    StepsOutIs(regs, batch[i].toks, batch[i].len, batch[i].len + |regs|, ape, cfg);
  }

  lemma Joined(ring: seq<Row>, state: seq<Row>, out: seq<Finished>, decoded: seq<Finished>,
               toks: seq<Token>, len: nat, hi: nat, ape: seq<seq<real>>, cfg: Config)
    requires len <= hi <= |toks| && Prefilled(ring, state, toks[..len], out, ape, cfg)
    requires decoded == FinishedIn(toks, len, hi, ape, cfg)
    ensures out + decoded == FinishedIn(toks, 0, hi, ape, cfg)
  {
    FinishedOfPrefix(toks[..len], toks, 0, len, ape, cfg);
    FinishedSplit(toks, 0, len, hi, ape, cfg);
  }

  /** A request's whole life: what the chunks of its prompt have stored, followed by what its decode
      steps store off the registers read in the run, is the blocks of all its tokens. */
  lemma WholeRequest(state: seq<Row>, out: seq<Finished>, regs: seq<seq<Row>>, ring: seq<Row>,
                     lanes: Lanes, batch: seq<DecodeRow>, i: nat, ape: seq<seq<real>>, cfg: Config)
    requires ReadInRun(regs, ring, lanes, batch, i, ape, cfg)
    requires DecodeReady(ring, lanes, batch, |regs|, ape, cfg) && i < |batch|
    requires Prefilled(ring, state, batch[i].toks[..batch[i].len], out, ape, cfg)
    ensures out + DecodeOut(regs, ring, lanes, batch, i, ape, cfg)
            == FinishedIn(batch[i].toks, 0, batch[i].len + |regs|, ape, cfg)
  {
    DecodeStoresOwnBlocks(regs, ring, lanes, batch, i, ape, cfg);
    Joined(ring, state, out, DecodeOut(regs, ring, lanes, batch, i, ape, cfg), batch[i].toks, batch[i].len,
           batch[i].len + |regs|, ape, cfg);
  }
}
