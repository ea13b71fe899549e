/** GDN track checkpoints: which recurrent-state snapshot each prefill chunk takes, and the
    ping-pong pair it alternates between. */
module TrackCheckpoints {
  import Core
  import opened Options
  import opened Sequences
  import opened Arithmetic

  const CHUNK_SIZE: nat := 64

  /** A request as one forward sees it. */
  datatype View = View(cachedLen: int, extendLen: int, pingPong: Option<(nat, nat)>, next: nat, last: Option<nat>) {
    ghost predicate Valid() {
      cachedLen >= 0 && extendLen >= 1 && next <= 1
    }

    function ExtendNat(): nat
      requires Valid()
    {
      extendLen
    }
  }

  function Slot(pair: (nat, nat), k: nat): nat {
    if k == 0 then pair.0 else pair.1
  }

  /** Chunks that end strictly inside the extend. */
  function InnerChunks(v: View): int {
    (v.extendLen - 1) / CHUNK_SIZE
  }

  predicate Tracks(v: View) {
    v.pingPong.Some? && InnerChunks(v) >= 1
  }

  function Boundary(v: View): int {
    v.cachedLen + InnerChunks(v) * CHUNK_SIZE
  }

  /** The request after the forward's bookkeeping. */
  function Tracked(v: View): View
    requires v.Valid()
  {
    if Tracks(v) then
      assert InnerChunks(v) * CHUNK_SIZE >= 0;
      v.(last := Some(Boundary(v)), next := 1 - v.next)
    else v
  }

  /** One snapshot: the request it belongs to, its destination slot, its row in the per-chunk
      states, and the token positions of its convolution window. */
  datatype Entry = Entry(req: nat, dst: nat, hRow: int, convSrc: seq<int>)

  function EntryOf(i: nat, v: View, off: nat, boh: nat, km1: nat): Entry
    requires Tracks(v)
  {
    var c := InnerChunks(v);
    Entry(i, Slot(v.pingPong.value, v.next), boh + c,
          seq(km1, j requires 0 <= j < km1 => off + c * CHUNK_SIZE - km1 + j))
  }

  ghost predicate ValidViews(views: seq<View>) {
    forall i :: 0 <= i < |views| ==> views[i].Valid()
  }

  function ExtendLens(views: seq<View>): (lens: seq<nat>)
    requires ValidViews(views)
    ensures |lens| == |views| && forall i :: 0 <= i < |lens| ==> lens[i] == views[i].extendLen
  {
    seq(|views|, i requires 0 <= i < |views| => views[i].ExtendNat())
  }

  function ChunkCounts(lens: seq<nat>): (counts: seq<nat>)
    ensures |counts| == |lens| && forall i :: 0 <= i < |lens| ==> counts[i] == DivCeil(lens[i], CHUNK_SIZE)
  {
    seq(|lens|, i requires 0 <= i < |lens| => DivCeil(lens[i], CHUNK_SIZE))
  }

  /** The snapshots of the first `n` requests, in batch order. */
  function Entries(views: seq<View>, cu: seq<nat>, boh: seq<nat>, km1: nat, n: nat): seq<Entry>
    requires n <= |views| <= |cu| && |views| <= |boh|
  {
    if n == 0 then [] else
    var before := Entries(views, cu, boh, km1, n - 1);
    var v := views[n - 1];
    if Tracks(v) then before + [EntryOf(n - 1, v, cu[n - 1], boh[n - 1], km1)] else before
  }

  lemma EntriesStep(views: seq<View>, cu: seq<nat>, boh: seq<nat>, km1: nat, i: nat)
    requires i < |views| <= |cu| && |views| <= |boh|
    ensures Entries(views, cu, boh, km1, i + 1)
            == Entries(views, cu, boh, km1, i)
               + if Tracks(views[i]) then [EntryOf(i, views[i], cu[i], boh[i], km1)] else []
  {
  }

  /** The snapshot bookkeeping of a request. */
  function Abs(r: Core.Req): View
    reads r
  {
    View(r.cachedLen, r.ExtendLen(), r.pingPong, r.nextTrackIdx, r.lastTrackSeqlen)
  }

  /** The loop body for one request: decide, record the boundary, flip the pair. */
  method Track(r: Core.Req) returns (tracked: bool)
    requires Abs(r).Valid()
    modifies r`nextTrackIdx, r`lastTrackSeqlen
    ensures tracked == Tracks(old(Abs(r)))
    ensures Abs(r) == Tracked(old(Abs(r)))
    ensures tracked <==> r.pingPong.Some? && r.deviceLen - r.cachedLen > 64
    ensures tracked ==>
              && r.lastTrackSeqlen.Some? && r.nextTrackIdx == 1 - old(r.nextTrackIdx)
              && (r.lastTrackSeqlen.value - r.cachedLen) % 64 == 0
              && r.lastTrackSeqlen.value < r.deviceLen <= r.lastTrackSeqlen.value + 64
    ensures !tracked ==> r.lastTrackSeqlen == old(r.lastTrackSeqlen) && r.nextTrackIdx == old(r.nextTrackIdx)
    ensures old(r.Valid()) ==> r.Valid()
  {
    if r.pingPong.None? {
      return false;
    }
    var c := (r.ExtendLen() - 1) / CHUNK_SIZE;
    if c < 1 {
      return false;
    }
    r.lastTrackSeqlen := Some(r.cachedLen + c * CHUNK_SIZE);
    r.nextTrackIdx := 1 - r.nextTrackIdx;
    tracked := true;
  }

  function Views(reqs: seq<Core.Req>): (vs: seq<View>)
    reads reqs
    ensures |vs| == |reqs| && forall i :: 0 <= i < |reqs| ==> vs[i] == Abs(reqs[i])
  {
    seq(|reqs|, i requires 0 <= i < |reqs| reads reqs => Abs(reqs[i]))
  }

  /** The loop of the forward's metadata builder.  `None` when no request of the batch takes a
      snapshot; otherwise the three parallel lists, one entry per tracking request. */
  method BuildTrackMetadata(reqs: seq<Core.Req>, cu: seq<nat>, km1: nat) returns (r: Option<seq<Entry>>)
    requires forall i, j :: 0 <= i < j < |reqs| ==> reqs[i] != reqs[j]
    requires ValidViews(Views(reqs)) && cu == PrefixSums(ExtendLens(Views(reqs)))
    modifies reqs
    ensures var views := old(Views(reqs));
            var boh := PrefixSums(ChunkCounts(ExtendLens(views)));
            var entries := Entries(views, cu, boh, km1, |views|);
            r == if entries == [] then None else Some(entries)
    ensures forall i :: 0 <= i < |reqs| ==> Abs(reqs[i]) == Tracked(old(Views(reqs))[i])
  {
    ghost var views := Views(reqs);
    var boh := PrefixSums(ChunkCounts(ExtendLens(Views(reqs))));
    var entries: seq<Entry> := [];
    for i := 0 to |reqs|
      invariant entries == Entries(views, cu, boh, km1, i)
      invariant forall k :: 0 <= k < i ==> Abs(reqs[k]) == Tracked(views[k])
      invariant forall k :: i <= k < |reqs| ==> Abs(reqs[k]) == views[k]
    {
      var v := Abs(reqs[i]);
      assert v == views[i];
      EntriesStep(views, cu, boh, km1, i);
      assert forall k :: 0 <= k < |reqs| && k != i ==> reqs[k] != reqs[i];
      var tracked := Track(reqs[i]);
      if tracked {
        entries := entries + [EntryOf(i, v, cu[i], boh[i], km1)];
      }
    }
    r := if entries == [] then None else Some(entries);
  }

  // ----- snapshot addressing ------------------------------------------------------------------

  lemma InnerChunkBounds(v: View)
    requires v.Valid()
    ensures 0 <= InnerChunks(v) * CHUNK_SIZE < v.extendLen
    ensures InnerChunks(v) < DivCeil(v.extendLen, CHUNK_SIZE)
  {
  }

  /** A request tracks exactly when its chunk reaches past a boundary, and the boundary it records is
      the deepest one inside the chunk: the last whole 64 tokens that leave at least one behind. */
  lemma BoundaryIsDeepest(v: View)
    requires v.Valid()
    ensures Tracks(v) <==> v.pingPong.Some? && v.extendLen > 64
    ensures Tracks(v) ==>
              && Boundary(v) < v.cachedLen + v.extendLen <= Boundary(v) + 64
              && (Boundary(v) - v.cachedLen) % 64 == 0
              && Tracked(v).last == Some(Boundary(v)) && Tracked(v).next == 1 - v.next
    ensures !Tracks(v) ==> Tracked(v) == v
  {
  }

  /** The snapshot of a tracking request: the slot whose turn it is, the state after the chunks up to
      the boundary, and the convolution inputs right before it. */
  lemma EntryMeaning(i: nat, v: View, off: nat, boh: nat, km1: nat)
    requires v.Valid() && Tracks(v)
    ensures var e := EntryOf(i, v, off, boh, km1);
            && e.req == i
            && e.dst == (if v.next == 0 then v.pingPong.value.0 else v.pingPong.value.1)
            && (e.hRow - boh) * 64 == Boundary(v) - v.cachedLen
            && |e.convSrc| == km1
            && forall j :: 0 <= j < km1 ==> e.convSrc[j] - off == Boundary(v) - v.cachedLen - km1 + j
  {
  }

  /** The state row of a snapshot is its request's own: it lies in the request's chunk-row interval,
      past the row of the starting state. */
  lemma StateRowIsOwn(views: seq<View>, i: nat, km1: nat)
    requires ValidViews(views)
    requires i < |views| && Tracks(views[i])
    ensures var boh := PrefixSums(ChunkCounts(ExtendLens(views)));
            boh[i] < EntryOf(i, views[i], PrefixSums(ExtendLens(views))[i], boh[i], km1).hRow < boh[i + 1]
  {
    PrefixSumsStep(ChunkCounts(ExtendLens(views)), i);
    InnerChunkBounds(views[i]);
  }

  /** The convolution window is exactly the `km1` tokens before the boundary.  It lies inside the
      request's own segment exactly when the kernel reaches back no further than the boundary. */
  lemma ConvWindowIsOwn(views: seq<View>, i: nat, boh: nat, km1: nat)
    requires ValidViews(views)
    requires i < |views| && Tracks(views[i])
    ensures var cu := PrefixSums(ExtendLens(views));
            var v := views[i];
            var src := EntryOf(i, v, cu[i], boh, km1).convSrc;
            && |src| == km1
            && (forall j :: 0 <= j < km1 ==> v.cachedLen + (src[j] - cu[i]) == Boundary(v) - km1 + j)
            && (forall j :: 0 <= j < km1 ==> src[j] < cu[i + 1])
            && ((forall j :: 0 <= j < km1 ==> cu[i] <= src[j]) <==> km1 <= InnerChunks(v) * CHUNK_SIZE)
  {
    var cu := PrefixSums(ExtendLens(views));
    PrefixSumsStep(ExtendLens(views), i);
    InnerChunkBounds(views[i]);
    var src := EntryOf(i, views[i], cu[i], boh, km1).convSrc;
    if km1 > InnerChunks(views[i]) * CHUNK_SIZE {
      assert src[0] < cu[i];
    }
  }

  /** The two slots of a request differ. */
  ghost predicate OwnSlotsDiffer(v: View) {
    v.pingPong.Some? ==> v.pingPong.value.0 != v.pingPong.value.1
  }

  ghost predicate PairsDisjoint(v: View, w: View) {
    v.pingPong.Some? && w.pingPong.Some? ==>
      var (p, q) := (v.pingPong.value, w.pingPong.value);
      p.0 != q.0 && p.0 != q.1 && p.1 != q.0 && p.1 != q.1
  }

  /** All ping-pong slots of the batch are different. */
  ghost predicate SlotsDisjoint(views: seq<View>) {
    && (forall i :: 0 <= i < |views| ==> OwnSlotsDiffer(views[i]))
    && (forall i, j :: 0 <= i < |views| && 0 <= j < |views| && i != j ==> PairsDisjoint(views[i], views[j]))
  }

  /** Entry `e` is the snapshot of some tracking request among the first `n`. */
  ghost predicate IsEntry(e: Entry, views: seq<View>, cu: seq<nat>, boh: seq<nat>, km1: nat, n: nat)
  {
    && e.req < n && e.req < |views| && e.req < |cu| && e.req < |boh|
    && Tracks(views[e.req])
    && e == EntryOf(e.req, views[e.req], cu[e.req], boh[e.req], km1)
  }

  /** One entry per tracking request, in batch order. */
  lemma {:induction false} EntriesMeaning(views: seq<View>, cu: seq<nat>, boh: seq<nat>, km1: nat, n: nat,
                                          es: seq<Entry>)
    requires n <= |views| <= |cu| && |views| <= |boh|
    requires es == Entries(views, cu, boh, km1, n)
    ensures forall k {:trigger es[k]} :: 0 <= k < |es| ==> IsEntry(es[k], views, cu, boh, km1, n)
    ensures forall k, l :: 0 <= k < l < |es| ==> es[k].req < es[l].req
    ensures forall i :: 0 <= i < n && Tracks(views[i]) ==> EntryOf(i, views[i], cu[i], boh[i], km1) in es
  {
    if n > 0 {
      var before := Entries(views, cu, boh, km1, n - 1);
      EntriesMeaning(views, cu, boh, km1, n - 1, before);
      assert forall k :: 0 <= k < |before| ==> es[k] == before[k];
    }
  }

  function Dsts(es: seq<Entry>): (d: seq<int>)
    ensures |d| == |es| && forall k :: 0 <= k < |es| ==> d[k] == es[k].dst
  {
    seq(|es|, k requires 0 <= k < |es| => es[k].dst)
  }

  /** Snapshots of one forward never share a destination. */
  lemma DestinationsDistinct(views: seq<View>, cu: seq<nat>, boh: seq<nat>, km1: nat)
    requires |views| <= |cu| && |views| <= |boh| && SlotsDisjoint(views)
    requires ValidViews(views)
    ensures Distinct(Dsts(Entries(views, cu, boh, km1, |views|)))
  {
    var es := Entries(views, cu, boh, km1, |views|);
    EntriesMeaning(views, cu, boh, km1, |views|, es);
    forall k, l | 0 <= k < l < |es| ensures es[k].dst != es[l].dst {
      assert IsEntry(es[k], views, cu, boh, km1, |views|) && IsEntry(es[l], views, cu, boh, km1, |views|);
      assert PairsDisjoint(views[es[k].req], views[es[l].req]);
    }
  }

  // ----- the snapshot pool --------------------------------------------------------------------

  /** The slot opposite the next destination holds the request's state at its last boundary. */
  ghost predicate Held<S>(pool: seq<S>, v: View, state: nat -> S) {
    v.pingPong.Some? && v.next <= 1 && v.last.Some? ==>
      var slot := Slot(v.pingPong.value, 1 - v.next);
      slot < |pool| && pool[slot] == state(v.last.value)
  }

  /** The per-chunk states of one forward: row `boh[i] + c` is request `i`'s state after `c` chunks
      of this extend. */
  ghost predicate ChunkStates<S>(h: seq<S>, views: seq<View>, boh: seq<nat>, state: seq<nat -> S>)
    requires |views| == |state| <= |boh|
  {
    forall i :: 0 <= i < |views| && views[i].Valid() && Tracks(views[i]) ==>
      0 <= boh[i] + InnerChunks(views[i]) < |h| && Boundary(views[i]) >= 0 &&
      h[boh[i] + InnerChunks(views[i])] == state[i](Boundary(views[i]))
  }

  function SnapshotValues<S>(h: seq<S>, es: seq<Entry>): (kv: seq<S>)
    requires forall k :: 0 <= k < |es| ==> 0 <= es[k].hRow < |h|
    ensures |kv| == |es| && forall k :: 0 <= k < |es| ==> kv[k] == h[es[k].hRow]
  {
    seq(|es|, k requires 0 <= k < |es| => h[es[k].hRow])
  }

  /** The pool has every slot of the batch. */
  ghost predicate SlotsIn(views: seq<View>, size: nat) {
    forall i :: 0 <= i < |views| && views[i].pingPong.Some? ==>
      views[i].pingPong.value.0 < size && views[i].pingPong.value.1 < size
  }

  lemma WritesInBounds<S>(h: seq<S>, views: seq<View>, cu: seq<nat>, boh: seq<nat>, km1: nat,
                          state: seq<nat -> S>, size: nat, es: seq<Entry>)
    requires |views| == |state| && |views| <= |cu| && |views| <= |boh|
    requires ValidViews(views) && SlotsIn(views, size) && ChunkStates(h, views, boh, state)
    requires es == Entries(views, cu, boh, km1, |views|)
    ensures forall k :: 0 <= k < |es| ==> 0 <= es[k].hRow < |h| && es[k].dst < size
  {
    EntriesMeaning(views, cu, boh, km1, |views|, es);
    forall k | 0 <= k < |es| ensures 0 <= es[k].hRow < |h| && es[k].dst < size {
      assert IsEntry(es[k], views, cu, boh, km1, |views|);
    }
  }

  /** One forward over a batch, its writes and its bookkeeping together: every request's held
      snapshot -- newly taken, or left from an earlier forward -- is the state at its recorded
      boundary, whatever its batch-mates did. */
  lemma ForwardKeepsHeld<S>(pool: seq<S>, h: seq<S>, views: seq<View>, cu: seq<nat>, boh: seq<nat>, km1: nat,
                            state: seq<nat -> S>, i: nat, es: seq<Entry>)
    requires |views| == |state| && |views| <= |cu| && |views| <= |boh| && SlotsDisjoint(views)
    requires ValidViews(views) && SlotsIn(views, |pool|) && ChunkStates(h, views, boh, state)
    requires es == Entries(views, cu, boh, km1, |views|)
    requires i < |views| && Held(pool, views[i], state[i])
    ensures forall k :: 0 <= k < |es| ==> 0 <= es[k].hRow < |h| && es[k].dst < |pool|
    ensures Held(Scatter(pool, Dsts(es), SnapshotValues(h, es)), Tracked(views[i]), state[i])
  {
    WritesInBounds(h, views, cu, boh, km1, state, |pool|, es);
    DestinationsDistinct(views, cu, boh, km1);
    var d, kv := Dsts(es), SnapshotValues(h, es);
    var v := views[i];
    if Tracks(v) {
      var k := OwnEntry(views, cu, boh, km1, i, es);
      TakenSnapshotHeld(pool, d, kv, v, state[i], k);
    } else if v.pingPong.Some? && v.last.Some? {
      PendingSurvivesNextSnapshot(pool, h, views, cu, boh, km1, state, i, es);
    }
  }

  lemma OwnEntry(views: seq<View>, cu: seq<nat>, boh: seq<nat>, km1: nat, i: nat, es: seq<Entry>) returns (k: nat)
    requires |views| <= |cu| && |views| <= |boh| && i < |views| && Tracks(views[i])
    requires es == Entries(views, cu, boh, km1, |views|)
    ensures k < |es| && es[k] == EntryOf(i, views[i], cu[i], boh[i], km1)
  {
    EntriesMeaning(views, cu, boh, km1, |views|, es);
    k :| 0 <= k < |es| && es[k] == EntryOf(i, views[i], cu[i], boh[i], km1);
  }

  /** No snapshot of a forward is written over a pending one: the slot opposite a request's next
      destination is nobody's destination. */
  lemma PendingSlotUntouched(views: seq<View>, cu: seq<nat>, boh: seq<nat>, km1: nat, i: nat, es: seq<Entry>)
    requires |views| <= |cu| && |views| <= |boh| && SlotsDisjoint(views) && ValidViews(views)
    requires es == Entries(views, cu, boh, km1, |views|)
    requires i < |views| && views[i].pingPong.Some?
    ensures forall k :: 0 <= k < |es| ==> es[k].dst != Slot(views[i].pingPong.value, 1 - views[i].next)
  {
    EntriesMeaning(views, cu, boh, km1, |views|, es);
    forall k | 0 <= k < |es|
      ensures es[k].dst != Slot(views[i].pingPong.value, 1 - views[i].next)
    {
      assert IsEntry(es[k], views, cu, boh, km1, |views|);
      if es[k].req == i {
        assert OwnSlotsDiffer(views[i]);
      } else {
        assert PairsDisjoint(views[es[k].req], views[i]);
      }
    }
  }

  /** So a pending snapshot outlives the forward that takes the next one. */
  lemma PendingSurvivesNextSnapshot<S>(pool: seq<S>, h: seq<S>, views: seq<View>, cu: seq<nat>, boh: seq<nat>, km1: nat,
                                       state: seq<nat -> S>, i: nat, es: seq<Entry>)
    requires |views| == |state| && |views| <= |cu| && |views| <= |boh| && SlotsDisjoint(views)
    requires ValidViews(views) && SlotsIn(views, |pool|) && ChunkStates(h, views, boh, state)
    requires es == Entries(views, cu, boh, km1, |views|)
    requires i < |views| && views[i].pingPong.Some? && views[i].last.Some? && Held(pool, views[i], state[i])
    ensures forall k :: 0 <= k < |es| ==> 0 <= es[k].hRow < |h| && es[k].dst < |pool|
    ensures Scatter(pool, Dsts(es), SnapshotValues(h, es))[Slot(views[i].pingPong.value, 1 - views[i].next)]
            == state[i](views[i].last.value)
  {
    WritesInBounds(h, views, cu, boh, km1, state, |pool|, es);
    DestinationsDistinct(views, cu, boh, km1);
    PendingSlotUntouched(views, cu, boh, km1, i, es);
    ScatterAt(pool, Dsts(es), SnapshotValues(h, es), Slot(views[i].pingPong.value, 1 - views[i].next),
              state[i](views[i].last.value));
  }

  lemma TakenSnapshotHeld<S>(pool: seq<S>, d: seq<int>, kv: seq<S>, v: View, state: nat -> S, k: nat)
    requires |d| == |kv| && Distinct(d) && forall l :: 0 <= l < |d| ==> 0 <= d[l] < |pool|
    requires v.Valid() && Tracks(v) && Boundary(v) >= 0
    requires k < |d| && d[k] == Slot(v.pingPong.value, v.next) && kv[k] == state(Boundary(v))
    ensures Held(Scatter(pool, d, kv), Tracked(v), state)
  {
    ScatterMeaning(pool, d, kv);
  }

  /** The chunk each request of the batch runs in one forward, and the per-chunk states it yields. */
  datatype Forward<S> = Forward(at: seq<nat>, extend: seq<nat>, h: seq<S>)

  /** The batch entering a forward: last time's bookkeeping, this time's chunk. */
  ghost function Entering<S>(views: seq<View>, f: Forward<S>): (r: seq<View>)
    requires |f.at| == |f.extend| == |views|
    ensures |r| == |views|
  {
    seq(|views|, i requires 0 <= i < |views| => views[i].(cachedLen := f.at[i], extendLen := f.extend[i]))
  }

  ghost function Leaving(views: seq<View>): (r: seq<View>)
    requires ValidViews(views)
    ensures |r| == |views| && forall i :: 0 <= i < |r| ==> r[i] == Tracked(views[i])
  {
    seq(|views|, i requires 0 <= i < |views| => Tracked(views[i]))
  }

  ghost predicate ForwardOk<S>(views: seq<View>, f: Forward<S>, state: seq<nat -> S>) {
    && |f.at| == |f.extend| == |views| == |state|
    && ValidViews(Entering(views, f))
    && ChunkStates(f.h, Entering(views, f), PrefixSums(ChunkCounts(ExtendLens(Entering(views, f)))), state)
  }

  ghost function SnapshotsOf<S>(views: seq<View>, f: Forward<S>, km1: nat): seq<Entry>
    requires |f.at| == |f.extend| == |views| && ValidViews(Entering(views, f))
  {
    var vs := Entering(views, f);
    Entries(vs, PrefixSums(ExtendLens(vs)), PrefixSums(ChunkCounts(ExtendLens(vs))), km1, |vs|)
  }

  lemma EnteringKeepsSlots<S>(views: seq<View>, f: Forward<S>, size: nat)
    requires |f.at| == |f.extend| == |views| && SlotsDisjoint(views) && SlotsIn(views, size)
    requires ValidViews(Entering(views, f))
    ensures SlotsDisjoint(Entering(views, f)) && SlotsIn(Entering(views, f), size)
    ensures SlotsDisjoint(Leaving(Entering(views, f))) && SlotsIn(Leaving(Entering(views, f)), size)
  {
    var vs := Entering(views, f);
    var ls := Leaving(vs);
    forall i, j | 0 <= i < |views| && 0 <= j < |views| && i != j
      ensures PairsDisjoint(vs[i], vs[j]) && PairsDisjoint(ls[i], ls[j])
    {
      assert PairsDisjoint(views[i], views[j]);
    }
    forall i | 0 <= i < |views| ensures OwnSlotsDiffer(vs[i]) && OwnSlotsDiffer(ls[i]) {
      assert OwnSlotsDiffer(views[i]);
    }
  }

  // ----- forwards, commits and the prefix tree --------------------------------------------------

  /** The slot pool, the requests' bookkeeping, and the snapshots the prefix tree owns. */
  datatype PoolState<S> = PoolState(pool: seq<S>, views: seq<View>, donated: map<nat, S>)

  /** A forward of the batch; the commit of request `req`'s pending snapshot, which the tree takes (its
      slot is replaced by a fresh one) or does not; or the eviction of a snapshot from the tree. */
  datatype PoolEvent<S> = Run(f: Forward<S>) | CommitOf(req: nat, replacement: Option<nat>) | Evict(slot: nat)

  /** The slot is in no request's pair. */
  ghost predicate Unpaired(views: seq<View>, slot: nat) {
    forall i :: 0 <= i < |views| && views[i].pingPong.Some? ==>
      views[i].pingPong.value.0 != slot && views[i].pingPong.value.1 != slot
  }

  /** What the tree owns is in no pair and holds what was donated. */
  ghost predicate TreeKeeps<S>(s: PoolState<S>) {
    forall d :: d in s.donated ==> d < |s.pool| && s.pool[d] == s.donated[d] && Unpaired(s.views, d)
  }

  ghost predicate AllHeld<S>(s: PoolState<S>, state: seq<nat -> S>) {
    && |s.views| == |state|
    && forall i :: 0 <= i < |s.views| ==> s.views[i].next <= 1 && Held(s.pool, s.views[i], state[i])
  }

  ghost predicate PoolOk<S>(s: PoolState<S>, state: seq<nat -> S>) {
    && SlotsDisjoint(s.views) && SlotsIn(s.views, |s.pool|)
    && AllHeld(s, state)
    && TreeKeeps(s)
  }

  /** The replacement of a donated slot comes from the free slots: no request's and not the tree's. */
  ghost predicate EventAllowed<S>(s: PoolState<S>, e: PoolEvent<S>, state: seq<nat -> S>) {
    match e
    case Run(f) => ForwardOk(s.views, f, state)
    case CommitOf(i, replacement) =>
      && i < |s.views| && s.views[i].pingPong.Some?
      && (replacement.Some? ==>
            replacement.value < |s.pool| && replacement.value !in s.donated && Unpaired(s.views, replacement.value))
    case Evict(_) => true
  }

  ghost function AfterRun<S>(s: PoolState<S>, f: Forward<S>, km1: nat, state: seq<nat -> S>): PoolState<S>
    requires SlotsDisjoint(s.views) && SlotsIn(s.views, |s.pool|) && ForwardOk(s.views, f, state)
  {
    var vs := Entering(s.views, f);
    EnteringKeepsSlots(s.views, f, |s.pool|);
    var es := SnapshotsOf(s.views, f, km1);
    WritesInBounds(f.h, vs, PrefixSums(ExtendLens(vs)), PrefixSums(ChunkCounts(ExtendLens(vs))), km1, state, |s.pool|,
                   es);
    s.(pool := Scatter(s.pool, Dsts(es), SnapshotValues(f.h, es)), views := Leaving(vs))
  }

  /** The pair with its committed slot replaced. */
  function Replaced(v: View, slot: nat): (nat, nat)
    requires v.pingPong.Some?
  {
    if v.next == 0 then (v.pingPong.value.0, slot) else (slot, v.pingPong.value.1)
  }

  function AfterCommit<S>(s: PoolState<S>, i: nat, replacement: Option<nat>): PoolState<S>
    requires i < |s.views| && s.views[i].pingPong.Some? && s.views[i].next <= 1
    requires Slot(s.views[i].pingPong.value, 1 - s.views[i].next) < |s.pool|
  {
    var v := s.views[i];
    if v.last.None? then s
    else if replacement.None? then s.(views := s.views[i := v.(last := None)])
    else
      var slot := Slot(v.pingPong.value, 1 - v.next);
      s.(views := s.views[i := v.(pingPong := Some(Replaced(v, replacement.value)), last := None)],
         donated := s.donated[slot := s.pool[slot]])
  }

  ghost function AfterEvent<S>(s: PoolState<S>, e: PoolEvent<S>, km1: nat, state: seq<nat -> S>): PoolState<S>
    requires PoolOk(s, state) && EventAllowed(s, e, state)
  {
    match e
    case Run(f) => AfterRun(s, f, km1, state)
    case CommitOf(i, replacement) => AfterCommit(s, i, replacement)
    case Evict(slot) => s.(donated := s.donated - {slot})
  }

  /** No snapshot of a forward is written over one the tree owns. */
  lemma RunSparesTree<S>(s: PoolState<S>, f: Forward<S>, km1: nat, state: seq<nat -> S>)
    requires PoolOk(s, state) && ForwardOk(s.views, f, state)
    ensures TreeKeeps(AfterRun(s, f, km1, state))
  {
    var vs := Entering(s.views, f);
    EnteringKeepsSlots(s.views, f, |s.pool|);
    var cu, boh := PrefixSums(ExtendLens(vs)), PrefixSums(ChunkCounts(ExtendLens(vs)));
    var es := SnapshotsOf(s.views, f, km1);
    WritesInBounds(f.h, vs, cu, boh, km1, state, |s.pool|, es);
    DestinationsDistinct(vs, cu, boh, km1);
    EntriesMeaning(vs, cu, boh, km1, |vs|, es);
    forall d | d in s.donated
      ensures Scatter(s.pool, Dsts(es), SnapshotValues(f.h, es))[d] == s.donated[d]
      ensures Unpaired(Leaving(vs), d)
    {
      forall k | 0 <= k < |es| ensures es[k].dst != d {
        assert IsEntry(es[k], vs, cu, boh, km1, |vs|);
      }
      ScatterAt(s.pool, Dsts(es), SnapshotValues(f.h, es), d, s.donated[d]);
    }
  }

  lemma RunKeepsHeld<S>(s: PoolState<S>, f: Forward<S>, km1: nat, state: seq<nat -> S>)
    requires PoolOk(s, state) && ForwardOk(s.views, f, state)
    ensures AllHeld(AfterRun(s, f, km1, state), state)
  {
    var vs := Entering(s.views, f);
    EnteringKeepsSlots(s.views, f, |s.pool|);
    var cu, boh := PrefixSums(ExtendLens(vs)), PrefixSums(ChunkCounts(ExtendLens(vs)));
    forall i | 0 <= i < |vs| ensures Held(AfterRun(s, f, km1, state).pool, Tracked(vs[i]), state[i]) {
      ForwardKeepsHeld(s.pool, f.h, vs, cu, boh, km1, state, i, SnapshotsOf(s.views, f, km1));
    }
  }

  /** What a commit donates is the request's state at its recorded boundary. */
  lemma CommitDonatesState<S>(s: PoolState<S>, i: nat, replacement: Option<nat>, state: seq<nat -> S>)
    requires PoolOk(s, state) && EventAllowed(s, CommitOf(i, replacement), state)
    requires s.views[i].last.Some? && replacement.Some?
    ensures var slot := Slot(s.views[i].pingPong.value, 1 - s.views[i].next);
            && slot < |s.pool|
            && AfterCommit(s, i, replacement).donated == s.donated[slot := state[i](s.views[i].last.value)]
  {
    assert Held(s.pool, s.views[i], state[i]);
  }

  lemma CommitKeepsSlots<S>(s: PoolState<S>, i: nat, replacement: Option<nat>, state: seq<nat -> S>)
    requires PoolOk(s, state) && EventAllowed(s, CommitOf(i, replacement), state)
    ensures Slot(s.views[i].pingPong.value, 1 - s.views[i].next) < |s.pool|
    ensures var s' := AfterCommit(s, i, replacement);
            SlotsDisjoint(s'.views) && SlotsIn(s'.views, |s'.pool|)
  {
    var s' := AfterCommit(s, i, replacement);
    forall k, l | 0 <= k < |s.views| && 0 <= l < |s.views| && k != l ensures PairsDisjoint(s'.views[k], s'.views[l]) {
      assert PairsDisjoint(s.views[k], s.views[l]);
    }
    forall k | 0 <= k < |s.views| ensures OwnSlotsDiffer(s'.views[k]) {
      assert OwnSlotsDiffer(s.views[k]);
    }
  }

  lemma CommitKeepsTree<S>(s: PoolState<S>, i: nat, replacement: Option<nat>, state: seq<nat -> S>)
    requires PoolOk(s, state) && EventAllowed(s, CommitOf(i, replacement), state)
    ensures Slot(s.views[i].pingPong.value, 1 - s.views[i].next) < |s.pool|
    ensures TreeKeeps(AfterCommit(s, i, replacement))
  {
    var s' := AfterCommit(s, i, replacement);
    var slot := Slot(s.views[i].pingPong.value, 1 - s.views[i].next);
    forall d | d in s'.donated ensures Unpaired(s'.views, d) {
      forall k | 0 <= k < |s.views| && s'.views[k].pingPong.Some?
        ensures s'.views[k].pingPong.value.0 != d && s'.views[k].pingPong.value.1 != d
      {
        assert OwnSlotsDiffer(s.views[i]);
        assert k != i ==> PairsDisjoint(s.views[i], s.views[k]);
        if d in s.donated {
          assert Unpaired(s.views, d);
        }
      }
    }
  }

  lemma EventKeepsPool<S>(s: PoolState<S>, e: PoolEvent<S>, km1: nat, state: seq<nat -> S>)
    requires PoolOk(s, state) && EventAllowed(s, e, state)
    ensures PoolOk(AfterEvent(s, e, km1, state), state)
  {
    match e
    case Run(f) =>
      EnteringKeepsSlots(s.views, f, |s.pool|);
      RunSparesTree(s, f, km1, state);
      RunKeepsHeld(s, f, km1, state);
    case CommitOf(i, replacement) =>
      CommitKeepsSlots(s, i, replacement, state);
      CommitKeepsTree(s, i, replacement, state);
    case Evict(_) =>
  }

  ghost predicate PoolRun<S>(s: PoolState<S>, es: seq<PoolEvent<S>>, km1: nat, state: seq<nat -> S>, s': PoolState<S>)
    decreases |es|
  {
    if es == [] then s == s' else
    && EventAllowed(s, es[0], state)
    && (PoolOk(s, state) ==> PoolRun(AfterEvent(s, es[0], km1, state), es[1..], km1, state, s'))
  }

  /** Ping-pong snapshots survive: over any sequence of forwards, commits and evictions, each
      request's pending snapshot is its state at its recorded boundary, all slots stay apart, and what
      the tree owns stays as it was donated -- no forward ever writes there. */
  lemma {:induction false} PoolRunKeepsHeld<S>(s: PoolState<S>, es: seq<PoolEvent<S>>, km1: nat, state: seq<nat -> S>,
                                               s': PoolState<S>)
    requires PoolOk(s, state) && PoolRun(s, es, km1, state, s')
    ensures PoolOk(s', state)
    decreases |es|
  {
    if es != [] {
      EventKeepsPool(s, es[0], km1, state);
      PoolRunKeepsHeld(AfterEvent(s, es[0], km1, state), es[1..], km1, state, s');
    }
  }

  // ----- a request over its prefill chunks ------------------------------------------------------

  /** A chunk of `extend` tokens is forwarded, or the pending snapshot is donated to the prefix tree
      (and its slot replaced by a fresh one, or kept). */
  datatype Event = Chunk(extend: nat) | Commit(replacement: Option<nat>)

  /** The request between forwards: `at` tokens are cached. */
  datatype Progress = Progress(at: nat, pair: (nat, nat), next: nat, last: Option<nat>, recorded: seq<nat>)

  function ViewOf(p: Progress, extend: nat): View {
    View(p.at, extend, Some(p.pair), p.next, p.last)
  }

  ghost predicate EventOk(p: Progress, e: Event) {
    match e
    case Chunk(extend) => extend >= 1
    case Commit(replacement) => replacement.Some? ==> replacement.value != Slot(p.pair, p.next)
  }

  ghost function After(p: Progress, e: Event): Progress
    requires EventOk(p, e) && p.next <= 1
  {
    match e
    case Chunk(extend) =>
      var v := ViewOf(p, extend);
      var t := Tracked(v);
      Progress(p.at + extend, p.pair, t.next, t.last,
               if Tracks(v) then p.recorded + [Boundary(v)] else p.recorded)
    case Commit(replacement) =>
      if p.last.None? then p
      else
        var pair := match replacement
                    case None => p.pair
                    case Some(s) => if p.next == 0 then (p.pair.0, s) else (s, p.pair.1);
        p.(pair := pair, last := None)
  }

  ghost predicate ProgressOk(p: Progress) {
    && p.next <= 1
    && p.pair.0 != p.pair.1
    && (forall i, j :: 0 <= i < j < |p.recorded| ==> p.recorded[i] < p.recorded[j])
    && (forall i :: 0 <= i < |p.recorded| ==> p.recorded[i] < p.at)
    && (p.last.Some? ==> p.recorded != [] && p.last.value == p.recorded[|p.recorded| - 1])
  }

  ghost predicate RecordedAligned(p: Progress) {
    forall i :: 0 <= i < |p.recorded| ==> p.recorded[i] % CHUNK_SIZE == 0
  }

  /** A boundary is chunk-aligned exactly when its chunk started aligned. */
  lemma BoundaryAlignedIff(v: View)
    requires v.Valid()
    ensures Boundary(v) % CHUNK_SIZE == 0 <==> v.cachedLen % CHUNK_SIZE == 0
    ensures v.cachedLen <= Boundary(v) < v.cachedLen + v.extendLen
  {
    InnerChunkBounds(v);
  }

  /** The event records a boundary only from a chunk-aligned start. */
  ghost predicate StartsAligned(p: Progress, e: Event) {
    e.Chunk? && Tracks(ViewOf(p, e.extend)) ==> p.at % CHUNK_SIZE == 0
  }

  lemma EventKeepsProgress(p: Progress, e: Event)
    requires ProgressOk(p) && EventOk(p, e)
    ensures ProgressOk(After(p, e)) && p.recorded <= After(p, e).recorded
    ensures RecordedAligned(After(p, e)) <==> RecordedAligned(p) && StartsAligned(p, e)
  {
    var q := After(p, e);
    if e.Chunk? {
      BoundaryAlignedIff(ViewOf(p, e.extend));
      if Tracks(ViewOf(p, e.extend)) {
        assert q.recorded[..|p.recorded|] == p.recorded;
        assert q.recorded[|p.recorded|] == Boundary(ViewOf(p, e.extend));
        assert forall i :: 0 <= i < |p.recorded| ==> q.recorded[i] == p.recorded[i];
      }
    }
  }

  ghost predicate Runs(p: Progress, es: seq<Event>, p': Progress)
    decreases |es|
  {
    if es == [] then p == p' else
    p.next <= 1 && EventOk(p, es[0]) && Runs(After(p, es[0]), es[1..], p')
  }

  ghost predicate RunStartsAligned(p: Progress, es: seq<Event>)
    decreases |es|
  {
    es != [] && p.next <= 1 && EventOk(p, es[0]) ==>
      StartsAligned(p, es[0]) && RunStartsAligned(After(p, es[0]), es[1..])
  }

  /** Over any sequence of prefill chunks and commits the recorded boundaries strictly increase and
      stay below the cached length, the pending boundary is the newest one, and all of them are
      chunk-aligned exactly when every chunk that records one starts aligned. */
  lemma {:induction false} RunKeepsProgress(p: Progress, es: seq<Event>, p': Progress)
    requires Runs(p, es, p') && ProgressOk(p)
    ensures ProgressOk(p') && p.recorded <= p'.recorded
    ensures RecordedAligned(p') <==> RecordedAligned(p) && RunStartsAligned(p, es)
    decreases |es|
  {
    if es != [] {
      EventKeepsProgress(p, es[0]);
      RunKeepsProgress(After(p, es[0]), es[1..], p');
    }
  }
}
