/** What a served request reads.  The compressed half of its attention, selected and gathered off two
    shared pools, is a function of its own tokens: not of its locations, not of the other requests. */
module ServedReads {
  import opened Sequences
  import opened Arithmetic
  import opened Ranking
  import opened Attention
  import opened Selection
  import opened Compressor
  import opened CarryRing
  import opened CompressorPaths
  import opened CompressorServing
  import opened ServingRuns
  import CompressedRows
  import Dsv4

  /** One query against stored values: a value's weight, and the weighted value coordinate. */
  datatype Kernel<!T> = Kernel(weight: T -> real, weighted: T -> real)

  /** The query off the pool's rows, and off block values by block number. */
  ghost function OnPool<T>(q: Kernel<T>, pool: seq<T>): Query {
    Query((row: int) => if 0 <= row < |pool| then q.weight(pool[row]) else 0.0,
          (row: int) => if 0 <= row < |pool| then q.weighted(pool[row]) else 0.0)
  }

  ghost function OnBlocks<T>(q: Kernel<T>, value: nat -> T): Query {
    Query((b: int) => if b >= 0 then q.weight(value(b)) else 0.0,
          (b: int) => if b >= 0 then q.weighted(value(b)) else 0.0)
  }

  /** The reference: rank the `live` blocks by their keys, take the best `k`, accumulate their values. */
  ghost function OwnScores<K>(logit: K -> real, key: nat -> K, live: nat): (s: seq<Score>)
    ensures |s| == live && forall b :: 0 <= b < live ==> s[b] == Fin(logit(key(b)))
  {
    if live == 0 then [] else OwnScores(logit, key, live - 1) + [Fin(logit(key(live - 1)))]
  }

  ghost function OwnReading<T, K>(q: Kernel<T>, value: nat -> T, logit: K -> real, key: nat -> K, live: nat,
                                  k: nat): Acc {
    Fold(OnBlocks(q, value), TopK(OwnScores(logit, key, live), k))
  }

  /** The compressed half of a decode: rank the staged scores, gather through the snapshot, attend under
      the device-side count. */
  ghost function PoolReading<T>(q: Kernel<T>, pool: seq<T>, snap: seq<int>, staged: seq<Score>, live: nat, ratio: nat,
                                k: nat): Acc
    requires ratio > 0 && snap != [] && |staged| * ratio <= |snap|
  {
    var picks := TopK(staged, k);
    Dsv4.PicksInSnapshot(staged, Min(k, |staged|), picks, ratio, |snap|);
    Attend(OnPool(q, pool), Dsv4.SelectedRows(snap, picks, live, ratio), Min(live, |picks|))
  }

  lemma {:induction false} TotalPointwise(f: int -> real, a: seq<int>, h: int -> real, b: seq<int>)
    requires |a| == |b| && forall i :: 0 <= i < |a| ==> a[i] >= 0 && b[i] >= 0 && f(a[i]) == h(b[i])
    ensures Total(f, a) == Total(h, b)
  {
    if a != [] {
      TotalPointwise(f, a[1..], h, b[1..]);
    }
  }

  /** The pool holds the request for the tier. */
  ghost predicate Holds<T>(tier: Tier<T>, pool: seq<T>, toks: seq<Token>, locs: seq<int>) {
    tier.Valid() && PoolHolds(tier.g, pool, tier.cap, Request(toks, locs), tier.finish, tier.ape, tier.cfg)
  }

  ghost function ValueOf<T>(tier: Tier<T>, toks: seq<Token>): nat -> T {
    BlockValue(tier.finish, toks, tier.ape, tier.cfg)
  }

  /** A live block is read off its row. */
  lemma LiveBlockRead<T>(tier: Tier<T>, pool: seq<T>, toks: seq<Token>, locs: seq<int>, b: nat)
    requires Holds(tier, pool, toks, locs) && toks != [] && b < LiveBlocks(|toks| - 1, tier.cfg.ratio)
    ensures 0 <= b * tier.cfg.ratio < |locs|
    ensures var row := CompressedRows.CmpRow(locs[b * tier.cfg.ratio], tier.cfg.ratio);
            0 <= row < |pool| && pool[row] == ValueOf(tier, toks)(b)
  {
    CountIsBlock(|toks|, tier.cfg.ratio);
    assert HoldsBlock(tier.g, pool, tier.cap, Request(toks, locs), b, tier.finish, tier.ape, tier.cfg);
  }

  /** The staged scores of the live blocks are those of the keys in the pool. */
  ghost predicate ScoredOff<K>(staged: seq<Score>, logit: K -> real, pool: seq<K>, locs: seq<int>, live: nat,
                               ratio: nat) {
    && ratio > 0 && LiveRow(staged, live)
    && forall b: nat :: b < live ==>
         && 0 <= b * ratio < |locs| && 0 <= CompressedRows.CmpRow(locs[b * ratio], ratio) < |pool|
         && staged[b] == Fin(logit(pool[CompressedRows.CmpRow(locs[b * ratio], ratio)]))
  }

  lemma StagedAreOwn<K>(tier: Tier<K>, pool: seq<K>, toks: seq<Token>, locs: seq<int>, staged: seq<Score>,
                        logit: K -> real, live: nat)
    requires Holds(tier, pool, toks, locs) && toks != [] && live == LiveBlocks(|toks| - 1, tier.cfg.ratio)
    requires ScoredOff(staged, logit, pool, locs, live, tier.cfg.ratio)
    ensures live <= |staged| && staged[..live] == OwnScores(logit, ValueOf(tier, toks), live)
  {
    forall b: nat | b < live ensures staged[b] == OwnScores(logit, ValueOf(tier, toks), live)[b] {
      LiveBlockRead(tier, pool, toks, locs, b);
    }
  }

  /** The selection off the staged scores is the one off the request's own scores. */
  lemma PicksAreOwn(staged: seq<Score>, own: seq<Score>, k: nat)
    requires LiveRow(staged, |own|) && |own| <= |staged| && staged[..|own|] == own
    ensures var c := Min(|own|, k);
            |TopK(own, k)| == c <= |TopK(staged, k)| && TopK(staged, k)[..c] == TopK(own, k)
  {
    TopKIgnoresPadding(own, staged, k);
  }

  /** The rows of live blocks carry the values of those blocks. */
  lemma RowsReadValues<T>(tier: Tier<T>, pool: seq<T>, toks: seq<Token>, locs: seq<int>, q: Kernel<T>, picks: seq<nat>,
                          rows: seq<int>)
    requires Holds(tier, pool, toks, locs) && toks != [] && |rows| == |picks|
    requires forall i :: 0 <= i < |picks| ==>
               && picks[i] < LiveBlocks(|toks| - 1, tier.cfg.ratio) && 0 <= picks[i] * tier.cfg.ratio < |locs|
               && rows[i] == CompressedRows.CmpRow(locs[picks[i] * tier.cfg.ratio], tier.cfg.ratio)
    ensures Fold(OnPool(q, pool), rows) == Fold(OnBlocks(q, ValueOf(tier, toks)), picks)
  {
    forall i | 0 <= i < |picks| ensures 0 <= rows[i] < |pool| && pool[rows[i]] == ValueOf(tier, toks)(picks[i]) {
      LiveBlockRead(tier, pool, toks, locs, picks[i]);
    }
    TotalPointwise(OnPool(q, pool).weight, rows, OnBlocks(q, ValueOf(tier, toks)).weight, picks);
    TotalPointwise(OnPool(q, pool).weighted, rows, OnBlocks(q, ValueOf(tier, toks)).weighted, picks);
  }

  /** What the count exposes of the selected rows: the rows of the leading picks. */
  lemma ExposedRows(snap: seq<int>, staged: seq<Score>, live: nat, ratio: nat, k: nat, picks: seq<nat>)
    requires ratio > 0 && snap != [] && |staged| * ratio <= |snap| && LiveRow(staged, live) && picks == TopK(staged, k)
    ensures forall r :: 0 <= r < |picks| ==> 0 <= picks[r] * ratio < |snap|
    ensures var c := Min(live, |picks|);
            var rows := Dsv4.SelectedRows(snap, picks, live, ratio);
            && |rows| == |picks|
            && forall r :: 0 <= r < c ==>
                 picks[r] < live && rows[r] == CompressedRows.CmpRow(snap[picks[r] * ratio], ratio)
  {
    Dsv4.PicksInSnapshot(staged, Min(k, |staged|), picks, ratio, |snap|);
    LivePicksArePrefix(staged, live, Min(k, |staged|), picks);
  }

  /** The attention a served request reads off the pools is the reference reading of its own tokens:
      blocks ranked by the keys of its tokens, values of its tokens, whatever the staging width, the
      layout of its pages and the rest of both pools. */
  lemma ReadIsOwn<T, K>(tier: Tier<T>, pool: seq<T>, toks: seq<Token>, keys: Tier<K>, keyPool: seq<K>,
                        keyToks: seq<Token>, snap: seq<int>, staged: seq<Score>, logit: K -> real, q: Kernel<T>, k: nat)
    requires Holds(tier, pool, toks, snap) && Holds(keys, keyPool, keyToks, snap)
    requires |toks| == |keyToks| > 0 && keys.cfg.ratio == tier.cfg.ratio
    requires snap != [] && |staged| * tier.cfg.ratio <= |snap|
    requires ScoredOff(staged, logit, keyPool, snap, LiveBlocks(|toks| - 1, tier.cfg.ratio), tier.cfg.ratio)
    ensures var live := LiveBlocks(|toks| - 1, tier.cfg.ratio);
            PoolReading(q, pool, snap, staged, live, tier.cfg.ratio, k)
            == OwnReading(q, ValueOf(tier, toks), logit, ValueOf(keys, keyToks), live, k)
  {
    var live := LiveBlocks(|toks| - 1, tier.cfg.ratio);
    var own, picks := OwnScores(logit, ValueOf(keys, keyToks), live), TopK(staged, k);
    StagedAreOwn(keys, keyPool, keyToks, snap, staged, logit, live);
    PicksAreOwn(staged, own, k);
    ExposedRows(snap, staged, live, tier.cfg.ratio, k, picks);
    var c := Min(live, |picks|);
    assert c == Min(live, k);
    var rows := Dsv4.SelectedRows(snap, picks, live, tier.cfg.ratio);
    RowsReadValues(tier, pool, toks, snap, q, picks[..c], rows[..c]);
  }

  // ----- independence ---------------------------------------------------------------------------------

  lemma SameScores<K>(logit: K -> real, a: nat -> K, b: nat -> K, live: nat)
    requires forall i: nat :: i < live ==> a(i) == b(i)
    ensures OwnScores(logit, a, live) == OwnScores(logit, b, live)
  {
  }

  lemma SameReading<T, K>(q: Kernel<T>, a: nat -> T, b: nat -> T, logit: K -> real, ka: nat -> K, kb: nat -> K,
                          live: nat, k: nat)
    requires forall i: nat :: a(i) == b(i) && ka(i) == kb(i)
    ensures OwnReading(q, a, logit, ka, live, k) == OwnReading(q, b, logit, kb, live, k)
  {
    SameScores(logit, ka, kb, live);
    var picks := TopK(OwnScores(logit, ka, live), k);
    TotalPointwise(OnBlocks(q, a).weight, picks, OnBlocks(q, b).weight, picks);
    TotalPointwise(OnBlocks(q, a).weighted, picks, OnBlocks(q, b).weighted, picks);
  }

  /** Isolation.  Two servers that hold the same tokens -- at other locations, in other slots, staged to
      another width, next to other requests -- give the same attention. */
  lemma ReadIsIsolated<T, K>(tier: Tier<T>, keys: Tier<K>, logit: K -> real, q: Kernel<T>, k: nat,
                             pool: seq<T>, keyPool: seq<K>, toks: seq<Token>, keyToks: seq<Token>, snap: seq<int>,
                             staged: seq<Score>,
                             pool': seq<T>, keyPool': seq<K>, toks': seq<Token>, keyToks': seq<Token>, snap': seq<int>,
                             staged': seq<Score>)
    requires SameContent(toks, toks') && SameContent(keyToks, keyToks')
    requires |toks| == |keyToks| > 0 && keys.cfg.ratio == tier.cfg.ratio
    requires Holds(tier, pool, toks, snap) && Holds(keys, keyPool, keyToks, snap)
    requires Holds(tier, pool', toks', snap') && Holds(keys, keyPool', keyToks', snap')
    requires snap != [] && |staged| * tier.cfg.ratio <= |snap|
    requires snap' != [] && |staged'| * tier.cfg.ratio <= |snap'|
    requires ScoredOff(staged, logit, keyPool, snap, LiveBlocks(|toks| - 1, tier.cfg.ratio), tier.cfg.ratio)
    requires ScoredOff(staged', logit, keyPool', snap', LiveBlocks(|toks| - 1, tier.cfg.ratio), tier.cfg.ratio)
    ensures var live := LiveBlocks(|toks| - 1, tier.cfg.ratio);
            PoolReading(q, pool, snap, staged, live, tier.cfg.ratio, k)
            == PoolReading(q, pool', snap', staged', live, tier.cfg.ratio, k)
  {
    ReadIsOwn(tier, pool, toks, keys, keyPool, keyToks, snap, staged, logit, q, k);
    ReadIsOwn(tier, pool', toks', keys, keyPool', keyToks', snap', staged', logit, q, k);
    forall i: nat
      ensures ValueOf(tier, toks)(i) == ValueOf(tier, toks')(i)
              && ValueOf(keys, keyToks)(i) == ValueOf(keys, keyToks')(i)
    {
      SameValue(tier.finish, toks, toks', i, tier.ape, tier.cfg);
      SameValue(keys.finish, keyToks, keyToks', i, keys.ape, keys.cfg);
    }
    SameReading(q, ValueOf(tier, toks), ValueOf(tier, toks'), logit, ValueOf(keys, keyToks), ValueOf(keys, keyToks'),
                LiveBlocks(|toks| - 1, tier.cfg.ratio), k);
  }

  /** In every run.  At any moment of a run of the block tier and of the key tier, a request both of them
      serve at the same locations reads the reference of its own tokens. */
  lemma RunReadsOwn<T, K>(tier: Tier<T>, trace: seq<State<T>>, es: seq<Event>, m: nat, i: nat,
                          keys: Tier<K>, keyTrace: seq<State<K>>, keyEs: seq<Event>, n: nat, j: nat,
                          staged: seq<Score>, logit: K -> real, q: Kernel<T>, k: nat)
    requires tier.Valid() && Run(tier, trace, es) && trace[0].reqs == [] && tier.cap <= |trace[0].pool|
    requires keys.Valid() && Run(keys, keyTrace, keyEs) && keyTrace[0].reqs == [] && keys.cap <= |keyTrace[0].pool|
    requires m <= |es| && i < |trace[m].reqs| && n <= |keyEs| && j < |keyTrace[n].reqs|
    requires var r, kr := trace[m].reqs[i], keyTrace[n].reqs[j];
             && r.locs == kr.locs != [] && |r.toks| == |kr.toks| > 0 && keys.cfg.ratio == tier.cfg.ratio
             && |staged| * tier.cfg.ratio <= |r.locs|
             && ScoredOff(staged, logit, keyTrace[n].pool, r.locs, LiveBlocks(|r.toks| - 1, tier.cfg.ratio),
                          tier.cfg.ratio)
    ensures var r, kr := trace[m].reqs[i], keyTrace[n].reqs[j];
            var live := LiveBlocks(|r.toks| - 1, tier.cfg.ratio);
            PoolReading(q, trace[m].pool, r.locs, staged, live, tier.cfg.ratio, k)
            == OwnReading(q, ValueOf(tier, r.toks), logit, ValueOf(keys, kr.toks), live, k)
  {
    RunServes(tier, trace, es, m, i);
    RunServes(keys, keyTrace, keyEs, n, j);
    var r, kr := trace[m].reqs[i], keyTrace[n].reqs[j];
    ReadIsOwn(tier, trace[m].pool, r.toks, keys, keyTrace[n].pool, kr.toks, r.locs, staged, logit, q, k);
  }
}
