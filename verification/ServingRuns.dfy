/** Every run of a compressor tier: requests arrive, are prefilled in chunks, decode in padded batches,
    hit and extend cached prefixes, are re-pointed to cached copies, and leave. */
module ServingRuns {
  import opened Options
  import opened Sequences
  import opened Arithmetic
  import opened CarryRing
  import opened Compressor
  import opened CompressorPaths
  import opened CompressorRuns
  import opened CompressorServing
  import CompressedRows

  /** One compressor of one layer: where its blocks go and how they are made. */
  datatype Tier<!T> = Tier(g: CompressedRows.Geometry, cap: nat, finish: Finish<T>, ape: seq<seq<real>>, cfg: Config) {
    ghost predicate Valid() {
      Shaped(cfg, ape) && cfg.page % cfg.ratio == 0 && g.Valid() && g.ratio == cfg.ratio
    }
  }

  /** The state ring, the block pool, and the requests -- running ones and the prefixes the tree keeps. */
  datatype State<T> = State(ring: seq<Row>, pool: seq<T>, reqs: seq<Request>)

  datatype Event =
    | Arrive(locs: seq<int>)
    | Chunk(job: Job, out: seq<Finished>, kept: seq<nat>)
    | Decode(picks: seq<nat>, batch: seq<DecodeRow>, n: nat, regs: seq<seq<seq<Row>>>, lanes: Lanes,
             snap: seq<seq<int>>)
    | Hit(entry: nat, locs: seq<int>)
    | Repoint(req: nat, entry: nat, upto: nat)
    | Leave(req: nat)

  ghost predicate Good<T>(tier: Tier<T>, s: State<T>) {
    tier.Valid() && tier.cap <= |s.pool| && Serving(s.ring, s.pool, s.reqs, tier.g, tier.cap, tier.finish, tier.ape,
                                                    tier.cfg)
  }

  // ----- the steps ----------------------------------------------------------------------------------

  /** The prefixes up to the window pages a chunk has closed, those of them that the tree keeps. */
  ghost function Kept(r: Request, job: Job, kept: seq<nat>): (k: seq<Request>)
    ensures |k| == |kept| && forall i :: 0 <= i < |k| ==> k[i] == UpTo(r, job, kept[i])
  {
    seq(|kept|, i requires 0 <= i < |kept| => UpTo(r, job, kept[i]))
  }

  /** A prefill chunk, as `ServeChunk` performs it: the compressor's result is the one `CompressChunk`
      promises, and its blocks are stored at their rows. */
  ghost predicate ChunkStep<T>(tier: Tier<T>, s: State<T>, job: Job, out: seq<Finished>, kept: seq<nat>, s': State<T>) {
    && tier.Valid() && JobOk(s.reqs, job, tier.g, tier.cap, |s.ring|, tier.ape, tier.cfg)
    && var r := s.reqs[job.req];
       && Compressed(s.ring, s'.ring, r, job.added, out, tier.ape, tier.cfg)
       && Resumable(s'.ring, |r.toks|, job.added, |r.toks + job.added|, r.toks + job.added, tier.ape, tier.cfg)
       && (tier.cap <= |s.pool| && StoresInto(r.locs, out, tier.cap, tier.ape) ==>
             s'.pool == PoolAfterChunk(s.pool, tier.cap, r.locs, out, tier.finish, tier.ape))
       && (forall i :: 0 <= i < |kept| ==> IsBoundary(kept[i], |r.toks|, |r.toks| + |job.added|, tier.cfg.page))
       && s'.reqs == AfterJob(s.reqs, job) + Kept(r, job, kept)
  }

  /** A decode run of a batch, eager or padded. */
  ghost predicate DecodeStep<T>(tier: Tier<T>, s: State<T>, picks: seq<nat>, batch: seq<DecodeRow>, n: nat,
                                regs: seq<seq<seq<Row>>>, lanes: Lanes, snap: seq<seq<int>>, s': State<T>) {
    && tier.Valid() && BatchOf(s.reqs, picks, lanes, batch, snap, n, |s.ring|, tier.ape, tier.cfg)
    && DecodeLocations(tier.g, snap, batch, tier.cap, n, tier.ape) && tier.cap + |snap| <= |s.pool|
    && DecodeStarts(regs, s.ring, lanes, batch, n, tier.ape, tier.cfg)
    && AfterRun(s.reqs, s'.reqs, picks, batch, snap, n)
    && s'.ring == RingAfterRun(s.ring, lanes, batch, n, tier.ape, tier.cfg)
    && s'.pool == PoolAfterRun(s.pool, regs, lanes, batch, n, snap, tier.g, tier.cap, tier.finish, tier.ape, tier.cfg)
  }

  /** A hit continues a cached entry at locations of its own. */
  ghost predicate HitStep<T>(s: State<T>, entry: nat, locs: seq<int>, s': State<T>) {
    && entry < |s.reqs|
    && var r := s.reqs[entry];
       && |r.toks| <= |r.locs| && |r.toks| <= |locs| && locs[..|r.toks|] == r.locs[..|r.toks|]
       && s' == s.(reqs := s.reqs + [Request(r.toks, locs)])
  }

  ghost predicate RepointStep<T>(tier: Tier<T>, s: State<T>, i: nat, entry: nat, upto: nat, s': State<T>) {
    && i < |s.reqs| && entry < |s.reqs|
    && CanRepoint(s.reqs[i], s.reqs[entry], upto, tier.g, tier.cap, tier.ape, tier.cfg)
    && s' == s.(reqs := s.reqs[i := Repointed(s.reqs[i], s.reqs[entry], upto)])
  }

  ghost predicate Next<T>(tier: Tier<T>, s: State<T>, e: Event, s': State<T>) {
    match e
    case Arrive(locs) => s' == s.(reqs := s.reqs + [Request([], locs)])
    case Chunk(job, out, kept) => ChunkStep(tier, s, job, out, kept, s')
    case Decode(picks, batch, n, regs, lanes, snap) => DecodeStep(tier, s, picks, batch, n, regs, lanes, snap, s')
    case Hit(entry, locs) => HitStep(s, entry, locs, s')
    case Repoint(i, entry, upto) => RepointStep(tier, s, i, entry, upto, s')
    case Leave(i) => i < |s.reqs| && s' == s.(reqs := s.reqs[..i] + s.reqs[i + 1..])
  }

  // ----- every step keeps serving -------------------------------------------------------------------

  ghost predicate Fine<T>(tier: Tier<T>, s: State<T>, r: Request) {
    Served(s.ring, s.pool, r, tier.g, tier.cap, tier.finish, tier.ape, tier.cfg)
  }

  lemma GoodIff<T>(tier: Tier<T>, s: State<T>)
    ensures Good(tier, s) <==>
              tier.Valid() && tier.cap <= |s.pool| && forall i :: 0 <= i < |s.reqs| ==> Fine(tier, s, s.reqs[i])
  {
  }

  /** Requests that are served can join the others. */
  lemma MoreServed<T>(tier: Tier<T>, s: State<T>, more: seq<Request>, s': State<T>)
    requires Good(tier, s) && forall i :: 0 <= i < |more| ==> Fine(tier, s, more[i])
    requires s' == s.(reqs := s.reqs + more)
    ensures Good(tier, s')
  {
    GoodIff(tier, s);
    GoodIff(tier, s');
    forall j | 0 <= j < |s'.reqs| ensures Fine(tier, s', s'.reqs[j]) {
      assert j < |s.reqs| ==> Fine(tier, s, s.reqs[j]);
      assert j >= |s.reqs| ==> Fine(tier, s, more[j - |s.reqs|]);
    }
  }

  lemma ArriveKeeps<T>(tier: Tier<T>, s: State<T>, locs: seq<int>)
    requires Good(tier, s)
    ensures Good(tier, s.(reqs := s.reqs + [Request([], locs)]))
  {
    NewRequestServed(s.ring, s.pool, locs, tier.g, tier.cap, tier.finish, tier.ape, tier.cfg);
    MoreServed(tier, s, [Request([], locs)], s.(reqs := s.reqs + [Request([], locs)]));
  }

  lemma HitKeeps<T>(tier: Tier<T>, s: State<T>, entry: nat, locs: seq<int>, s': State<T>)
    requires Good(tier, s) && HitStep(s, entry, locs, s')
    ensures Good(tier, s')
  {
    var r := s.reqs[entry];
    GoodIff(tier, s);
    assert Fine(tier, s, r);
    if r.toks == [] {
      NewRequestServed(s.ring, s.pool, locs, tier.g, tier.cap, tier.finish, tier.ape, tier.cfg);
    } else {
      PrefixHitServed(s.ring, s.pool, r, |r.toks|, locs, tier.g, tier.cap, tier.finish, tier.ape, tier.cfg);
      assert r.toks[..|r.toks|] == r.toks;
    }
    MoreServed(tier, s, [Request(r.toks, locs)], s');
  }

  lemma RepointKeeps<T>(tier: Tier<T>, s: State<T>, i: nat, entry: nat, upto: nat, s': State<T>)
    requires Good(tier, s) && RepointStep(tier, s, i, entry, upto, s')
    ensures Good(tier, s')
  {
    GoodIff(tier, s);
    GoodIff(tier, s');
    assert Fine(tier, s, s.reqs[i]) && Fine(tier, s, s.reqs[entry]);
    RepointedServed(s.ring, s.pool, s.reqs[i], s.reqs[entry], upto, tier.g, tier.cap, tier.finish, tier.ape, tier.cfg);
    forall j | 0 <= j < |s'.reqs| ensures Fine(tier, s', s'.reqs[j]) {
      assert Fine(tier, s, s.reqs[j]);
    }
  }

  lemma LeaveKeeps<T>(tier: Tier<T>, s: State<T>, i: nat)
    requires Good(tier, s) && i < |s.reqs|
    ensures Good(tier, s.(reqs := s.reqs[..i] + s.reqs[i + 1..]))
  {
    var s' := s.(reqs := s.reqs[..i] + s.reqs[i + 1..]);
    GoodIff(tier, s);
    GoodIff(tier, s');
    forall j | 0 <= j < |s'.reqs| ensures Fine(tier, s', s'.reqs[j]) {
      assert Fine(tier, s, s.reqs[if j < i then j else j + 1]);
    }
  }

  lemma ChunkServes<T>(tier: Tier<T>, s: State<T>, job: Job, out: seq<Finished>, kept: seq<nat>, s': State<T>)
    requires Good(tier, s) && ChunkStep(tier, s, job, out, kept, s')
    ensures Good(tier, State(s'.ring, s'.pool, AfterJob(s.reqs, job)))
  {
    JobServes(s.ring, s'.ring, s.pool, s.reqs, job, s.reqs[job.req].toks + job.added, out, tier.g, tier.cap,
              tier.finish, tier.ape, tier.cfg);
  }

  lemma KeptServed<T>(tier: Tier<T>, s: State<T>, r: Request, job: Job, kept: seq<nat>)
    requires tier.Valid() && Fine(tier, s, Request(r.toks + job.added, r.locs))
    requires Resumable(s.ring, |r.toks|, job.added, |r.toks + job.added|, r.toks + job.added, tier.ape, tier.cfg)
    requires forall i :: 0 <= i < |kept| ==> IsBoundary(kept[i], |r.toks|, |r.toks| + |job.added|, tier.cfg.page)
    ensures forall i :: 0 <= i < |kept| ==> Fine(tier, s, Kept(r, job, kept)[i])
  {
    ClosedPageServed(s.ring, s.pool, r, job, tier.g, tier.cap, tier.finish, tier.ape, tier.cfg);
  }

  lemma ChunkKeeps<T>(tier: Tier<T>, s: State<T>, job: Job, out: seq<Finished>, kept: seq<nat>, s': State<T>)
    requires Good(tier, s) && ChunkStep(tier, s, job, out, kept, s')
    ensures Good(tier, s')
  {
    var mid := State(s'.ring, s'.pool, AfterJob(s.reqs, job));
    ChunkServes(tier, s, job, out, kept, s');
    GoodIff(tier, mid);
    assert Fine(tier, mid, mid.reqs[job.req]);
    KeptServed(tier, mid, s.reqs[job.req], job, kept);
    MoreServed(tier, mid, Kept(s.reqs[job.req], job, kept), s');
  }

  lemma NextKeeps<T>(tier: Tier<T>, s: State<T>, e: Event, s': State<T>)
    requires Good(tier, s) && Next(tier, s, e, s')
    ensures Good(tier, s')
  {
    match e
    case Arrive(locs) => ArriveKeeps(tier, s, locs);
    case Chunk(job, out, kept) => ChunkKeeps(tier, s, job, out, kept, s');
    case Decode(picks, batch, n, regs, lanes, snap) =>
      DecodeServes(regs, s.ring, lanes, s.reqs, s'.reqs, picks, batch, n, s.pool, snap, tier.g, tier.cap, tier.finish,
                   tier.ape, tier.cfg);
    case Hit(entry, locs) => HitKeeps(tier, s, entry, locs, s');
    case Repoint(i, entry, upto) => RepointKeeps(tier, s, i, entry, upto, s');
    case Leave(i) => LeaveKeeps(tier, s, i);
  }

  /** `trace` is a run: each event leads from one state to the next. */
  ghost predicate Run<T>(tier: Tier<T>, trace: seq<State<T>>, es: seq<Event>) {
    |trace| == |es| + 1 && forall k :: 0 <= k < |es| ==> Next(tier, trace[k], es[k], trace[k + 1])
  }

  lemma {:induction false} RunKeeps<T>(tier: Tier<T>, trace: seq<State<T>>, es: seq<Event>, k: nat)
    requires Run(tier, trace, es) && Good(tier, trace[0]) && k <= |es|
    ensures Good(tier, trace[k])
  {
    if k > 0 {
      RunKeeps(tier, trace, es, k - 1);
      NextKeeps(tier, trace[k - 1], es[k - 1], trace[k]);
    }
  }

  /** Safety over every run.  Whatever the ring and the pool hold to begin with, from an idle start on,
      in every interleaving of arrivals, prefill chunks, decode runs of padded batches, prefix hits,
      re-pointings and departures, every request can at every moment read back every block it has
      finished, with the value of its own tokens, and can be continued. */
  lemma RunServes<T>(tier: Tier<T>, trace: seq<State<T>>, es: seq<Event>, k: nat, i: nat)
    requires tier.Valid() && Run(tier, trace, es) && trace[0].reqs == [] && tier.cap <= |trace[0].pool|
    requires k <= |es| && i < |trace[k].reqs|
    ensures Served(trace[k].ring, trace[k].pool, trace[k].reqs[i], tier.g, tier.cap, tier.finish, tier.ape, tier.cfg)
  {
    GoodIff(tier, trace[0]);
    RunKeeps(tier, trace, es, k);
    GoodIff(tier, trace[k]);
    assert Fine(tier, trace[k], trace[k].reqs[i]);
  }

  // ----- the chunk step, performed ------------------------------------------------------------------

  /** The code of a prefill chunk performs exactly such a step, on the ring and the pool in place. */
  method PerformChunk<T>(ghost tier: Tier<T>, reg: Register, ring: CompressStateRing, pool: array<T>,
                         reqs: seq<Request>, job: Job, finish: Finish<T>, ape: seq<seq<real>>)
    returns (out: seq<Finished>)
    requires tier.finish == finish && tier.ape == ape && tier.cfg == reg.cfg && reg.Valid(ape)
    requires ring.item == reg.cfg.item && ring.buffer != reg.state
    requires (pool as object) != ring.buffer && (pool as object) != reg.state
    requires Good(tier, State(ring.buffer[..], pool[..], reqs))
    requires JobOk(reqs, job, tier.g, tier.cap, ring.buffer.Length, ape, reg.cfg)
    modifies reg.state, ring.buffer, pool
    ensures ChunkStep(tier, State(old(ring.buffer[..]), old(pool[..]), reqs), job, out, [],
                      State(ring.buffer[..], pool[..], AfterJob(reqs, job)))
  {
    var r := reqs[job.req];
    ghost var before := State(ring.buffer[..], pool[..], reqs);
    GoodIff(tier, before);
    assert Fine(tier, before, r);
    out := CompressChunk(reg, ring, r, job.added, job.capture, ape);
    assert pool[..] == before.pool;
    JobBlocks(before.ring, ring.buffer[..], pool[..], reqs, job, r.toks + job.added, out, tier.g, tier.cap, finish, ape,
              reg.cfg);
    CompressedRows.ScatterCompressed(pool, RowsOf(out, r.locs, |ape|), ValuesOf(out, finish));
    assert AfterJob(reqs, job) + Kept(r, job, []) == AfterJob(reqs, job);
  }
}
