/** IndexShare: layers without an indexer of their own reuse the selection of the nearest
    full-indexer layer at or before them, and only one selection is kept at a time. */
module IndexShare {
  import opened Options
  import opened Sequences

  datatype Kind = Full | Shared

  datatype Maps = Maps(leader: map<nat, nat>, slot: map<nat, nat>)

  datatype Result<+T> = Ok(value: T) | Rejected

  /** `lead` is the last full layer at or before `layer`. */
  ghost predicate IsLeader(kinds: seq<Kind>, layer: nat, lead: nat)
    requires layer < |kinds|
  {
    lead <= layer && kinds[lead] == Full && forall j :: lead < j <= layer ==> kinds[j] == Shared
  }

  /** The keys are numbered 0, 1, 2, ... without gaps or repeats. */
  ghost predicate DenseSlots(slot: map<nat, nat>) {
    && (forall l :: l in slot ==> slot[l] < |slot|)
    && (forall k, l :: k in slot && l in slot && k != l ==> slot[k] != slot[l])
  }

  function CountFull(kinds: seq<Kind>, n: nat): (c: nat)
    requires n <= |kinds|
    ensures c <= n
  {
    if n == 0 then 0 else CountFull(kinds, n - 1) + (if kinds[n - 1] == Full then 1 else 0)
  }

  lemma {:induction false} CountFullGrows(kinds: seq<Kind>, m: nat, n: nat)
    requires m <= n <= |kinds|
    ensures CountFull(kinds, m) <= CountFull(kinds, n)
    ensures m < n && kinds[m] == Full ==> CountFull(kinds, m) < CountFull(kinds, n)
  {
    if m < n {
      CountFullGrows(kinds, m, n - 1);
    }
  }

  /** The leader map of the first `n` layers. */
  ghost predicate LeaderMap(kinds: seq<Kind>, n: nat, leader: map<nat, nat>)
    requires n <= |kinds|
  {
    && (forall l: nat :: l in leader <==> l < n)
    && (forall l: nat {:trigger leader[l]} :: l < n ==> IsLeader(kinds, l, leader[l]))
  }

  ghost predicate FullLayers(kinds: seq<Kind>, n: nat, slot: map<nat, nat>)
    requires n <= |kinds|
  {
    forall l: nat {:trigger l in slot} :: l in slot <==> l < n && kinds[l] == Full
  }

  ghost predicate Numbered(kinds: seq<Kind>, slot: map<nat, nat>) {
    forall l: nat {:trigger l in slot} :: l in slot ==> l < |kinds| && slot[l] == CountFull(kinds, l)
  }

  /** The slot map of the first `n` layers: each full layer is numbered by the full layers before
      it. */
  ghost predicate SlotMap(kinds: seq<Kind>, n: nat, slot: map<nat, nat>)
    requires n <= |kinds|
  {
    FullLayers(kinds, n, slot) && Numbered(kinds, slot) && |slot| == CountFull(kinds, n)
  }

  lemma NextFullLayers(kinds: seq<Kind>, n: nat, slot: map<nat, nat>)
    requires n < |kinds| && FullLayers(kinds, n, slot)
    ensures FullLayers(kinds, n + 1, if kinds[n] == Full then slot[n := |slot|] else slot)
  {
  }

  lemma NextNumbered(kinds: seq<Kind>, n: nat, slot: map<nat, nat>)
    requires n < |kinds| && Numbered(kinds, slot) && |slot| == CountFull(kinds, n)
    ensures Numbered(kinds, slot[n := |slot|])
  {
  }

  /** Leader and slot maps of a checkpoint with shared layers, over the served layers only.
      A list that does not start with a full layer is rejected. */
  method BuildSharedMaps(indexerTypes: seq<Kind>, served: nat) returns (r: Result<Maps>)
    ensures var kinds := indexerTypes[..Min(served, |indexerTypes|)];
            && (r.Rejected? <==> kinds != [] && kinds[0] == Shared)
            && (r.Ok? ==> LeaderMap(kinds, |kinds|, r.value.leader) && SlotMap(kinds, |kinds|, r.value.slot))
  {
    var kinds := indexerTypes[..Min(served, |indexerTypes|)];
    var leader: map<nat, nat>, slot: map<nat, nat> := map[], map[];
    var lead: Option<nat> := None;
    for lid := 0 to |kinds|
      invariant lead.None? <==> lid == 0
      invariant lead.Some? ==> kinds[0] == Full && IsLeader(kinds, lid - 1, lead.value)
      invariant LeaderMap(kinds, lid, leader)
      invariant FullLayers(kinds, lid, slot) && Numbered(kinds, slot)
      invariant |slot| == CountFull(kinds, lid)
    {
      NextFullLayers(kinds, lid, slot);
      NextNumbered(kinds, lid, slot);
      if kinds[lid] == Full {
        lead := Some(lid);
        slot := slot[lid := |slot|];
      }
      if lead.None? {
        return Rejected;
      }
      leader := leader[lid := lead.value];
    }
    r := Ok(Maps(leader, slot));
  }

  /** The pool slots are numbered densely, in layer order. */
  lemma SharedSlotsDense(kinds: seq<Kind>, slot: map<nat, nat>)
    requires SlotMap(kinds, |kinds|, slot)
    ensures DenseSlots(slot)
    ensures forall k, l :: k in slot && l in slot && k < l ==> slot[k] < slot[l]
  {
    forall l | l in slot ensures slot[l] < |slot| {
      CountFullGrows(kinds, l, |kinds|);
    }
    forall k, l | k in slot && l in slot && k < l ensures slot[k] < slot[l] {
      CountFullGrows(kinds, k, l);
    }
  }

  // ----- every layer its own leader -------------------------------------------------------

  function OwnSlots(ids: seq<nat>): map<nat, nat> {
    if ids == [] then map[] else
    var m := OwnSlots(ids[..|ids| - 1]);
    m[ids[|ids| - 1] := |m|]
  }

  method BuildOwnMaps(layerIds: seq<nat>) returns (maps: Maps)
    ensures forall l :: l in maps.leader <==> l in layerIds
    ensures forall l :: l in maps.leader ==> maps.leader[l] == l
    ensures maps.slot == OwnSlots(layerIds)
  {
    var leader: map<nat, nat>, slot: map<nat, nat> := map[], map[];
    for i := 0 to |layerIds|
      invariant forall l :: l in leader <==> l in layerIds[..i]
      invariant forall l :: l in leader ==> leader[l] == l
      invariant slot == OwnSlots(layerIds[..i])
    {
      leader := leader[layerIds[i] := layerIds[i]];
      slot := slot[layerIds[i] := |slot|];
      assert layerIds[..i + 1] == layerIds[..i] + [layerIds[i]];
    }
    assert layerIds[..|layerIds|] == layerIds;
    maps := Maps(leader, slot);
  }

  /** Giving layer `id` the next number keeps a numbering dense exactly when `id` is new. */
  lemma NextSlot(m: map<nat, nat>, id: nat)
    requires forall l :: l in m ==> m[l] <= |m|
    ensures DenseSlots(m[id := |m|]) <==> DenseSlots(m) && id !in m
  {
    var m' := m[id := |m|];
    if id in m {
      assert m'.Keys == m.Keys;
      assert m'[id] >= |m'|;
    } else {
      assert |m'| == |m| + 1;
      if !DenseSlots(m) {
        if l :| l in m && m[l] >= |m| {
          assert m'[l] == m'[id] && l != id;
        } else {
          var k, l :| k in m && l in m && k != l && m[k] == m[l];
          assert m'[k] == m'[l];
        }
      }
    }
  }

  /** Numbering a layer by the size of the map gives a dense numbering exactly when no layer id is
      listed twice. */
  lemma {:induction false} OwnSlotsDenseIff(ids: seq<nat>)
    ensures forall l :: l in OwnSlots(ids) <==> l in ids
    ensures forall l :: l in OwnSlots(ids) ==> OwnSlots(ids)[l] <= |OwnSlots(ids)|
    ensures DenseSlots(OwnSlots(ids)) <==> Distinct(ids)
  {
    if ids != [] {
      var last := |ids| - 1;
      var front, id := ids[..last], ids[last];
      OwnSlotsDenseIff(front);
      assert ids == front + [id];
      var m := OwnSlots(front);
      NextSlot(m, id);
      assert m[id := |m|].Keys == m.Keys + {id};
      assert Distinct(ids) <==> Distinct(front) && id !in front;
    }
  }

  lemma OwnSlotsNext(front: seq<nat>, id: nat)
    requires id !in front && |OwnSlots(front)| == |front|
    ensures var m := OwnSlots(front + [id]);
            && |m| == |front| + 1 && id in m && m[id] == |front|
            && forall l :: l in front ==> l in OwnSlots(front) && l in m && m[l] == OwnSlots(front)[l]
  {
    OwnSlotsDenseIff(front);
    assert (front + [id])[..|front|] == front;
    var before := OwnSlots(front);
    assert OwnSlots(front + [id]) == before[id := |before|];
    assert before[id := |before|].Keys == before.Keys + {id};
  }

  /** In list order: the `i`-th listed layer gets number `i`. */
  lemma {:induction false} OwnSlotsInOrder(ids: seq<nat>)
    requires Distinct(ids)
    ensures |OwnSlots(ids)| == |ids|
    ensures forall i :: 0 <= i < |ids| ==> ids[i] in OwnSlots(ids) && OwnSlots(ids)[ids[i]] == i
  {
    if ids != [] {
      var last := |ids| - 1;
      OwnSlotsInOrder(ids[..last]);
      assert ids == ids[..last] + [ids[last]];
      OwnSlotsNext(ids[..last], ids[last]);
      forall i | 0 <= i < last ensures ids[i] in OwnSlots(ids) && OwnSlots(ids)[ids[i]] == i {
        assert ids[..last][i] == ids[i];
      }
    }
  }

  // ----- one forward ----------------------------------------------------------------------

  /** The selection store of one forward; only the live leader's entry is retained. */
  class SelectionStore<T> {
    var sel: map<nat, T>

    constructor ()
      ensures sel == map[]
    {
      sel := map[];
    }

    /** One layer: a full layer replaces the store by its own selection, then every layer reads its
        leader's entry; a missing entry is a lookup failure. */
    method RunLayer(layer: nat, own: Option<T>, leader: nat) returns (used: Option<T>)
      modifies this
      ensures own.None? ==> sel == old(sel)
      ensures own.Some? ==> sel == map[layer := own.value]
      ensures used == if leader in sel then Some(sel[leader]) else None
    {
      if own.Some? {
        sel := map[];
        sel := sel[layer := own.value];
      }
      used := if leader in sel then Some(sel[leader]) else None;
    }
  }

  /** Running the layers `first, first + 1, ...` in order, from a fresh store: every lookup succeeds
      exactly when `first` is a full layer (or there is nothing to run), and then each layer uses
      the selection its own leader made in this forward, although one entry at most is ever
      stored. */
  method Forward<T>(kinds: seq<Kind>, leader: map<nat, nat>, select: nat -> T, first: nat)
    returns (ok: bool, used: seq<T>)
    requires first <= |kinds|
    requires LeaderMap(kinds, |kinds|, leader)
    ensures ok <==> first == |kinds| || kinds[first] == Full
    ensures ok ==> |used| == |kinds| - first
    ensures ok ==> forall i :: 0 <= i < |used| ==> used[i] == select(leader[first + i])
  {
    var store := new SelectionStore<T>();
    used := [];
    for layer := first to |kinds|
      invariant |used| == layer - first
      invariant layer == first ==> store.sel == map[]
      invariant layer > first ==> kinds[first] == Full && first <= leader[layer - 1]
      invariant layer > first ==> store.sel == map[leader[layer - 1] := select(leader[layer - 1])]
      invariant forall i :: 0 <= i < |used| ==> used[i] == select(leader[first + i])
    {
      var own := if kinds[layer] == Full then Some(select(layer)) else None;
      var u := store.RunLayer(layer, own, leader[layer]);
      if u == None {
        return false, used;
      }
      used := used + [u.value];
    }
    ok := true;
  }
}
