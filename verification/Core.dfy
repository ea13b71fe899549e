/** A request's counters and token buffer. */
module Core {
  import opened Options

  /** What a forward reads off a request. */
  datatype ReqView = ReqView(tableIdx: nat, cachedLen: nat, deviceLen: nat) {
    predicate Valid() {
      cachedLen < deviceLen
    }

    function ExtendLen(): int {
      deviceLen - cachedLen
    }
  }

  predicate ValidViews(reqs: seq<ReqView>) {
    forall i :: 0 <= i < |reqs| ==> reqs[i].Valid()
  }

  function ExtendLens(reqs: seq<ReqView>): (lens: seq<nat>)
    requires ValidViews(reqs)
    ensures |lens| == |reqs| && forall i :: 0 <= i < |reqs| ==> lens[i] == reqs[i].ExtendLen() >= 1
  {
    seq(|reqs|, i requires 0 <= i < |reqs| => reqs[i].deviceLen - reqs[i].cachedLen)
  }

  class Req {
    const tableIdx: nat
    const maxDeviceLen: nat
    const idsBuf: array<int>
    var idsLen: nat            // `input_ids` is the view idsBuf[..idsLen]
    var cachedLen: nat
    var deviceLen: nat
    var pingPong: Option<(nat, nat)>        // the two snapshot slots, when it has any
    var nextTrackIdx: nat                   // which of them is the next snapshot's
    var lastTrackSeqlen: Option<nat>        // boundary of the pending snapshot

    /** The counters and the buffer agree; kept by every step taken while `CanDecode`. */
    ghost predicate Valid()
      reads this
    {
      && idsBuf.Length == maxDeviceLen
      && idsLen <= maxDeviceLen
      && cachedLen < deviceLen <= maxDeviceLen
      && nextTrackIdx <= 1
    }

    function View(): ReqView
      reads this
    {
      ReqView(tableIdx, cachedLen, deviceLen)
    }

    function Ids(): seq<int>
      reads this, idsBuf
      requires idsLen <= idsBuf.Length
    {
      idsBuf[..idsLen]
    }

    function RemainLen(): int
      reads this
    {
      maxDeviceLen - deviceLen
    }

    function ExtendLen(): int
      reads this
    {
      View().ExtendLen()
    }

    predicate CanDecode()
      reads this
    {
      RemainLen() > 0
    }

    constructor (tableIdx: nat, inputIds: seq<int>, cachedLen: nat, outputLen: nat)
      requires cachedLen < |inputIds|
      ensures Valid() && Ids() == inputIds && fresh(idsBuf)
      ensures this.cachedLen == cachedLen && deviceLen == |inputIds|
      ensures maxDeviceLen == |inputIds| + outputLen && this.tableIdx == tableIdx
      ensures pingPong == None && nextTrackIdx == 0 && lastTrackSeqlen == None
    {
      this.tableIdx := tableIdx;
      maxDeviceLen := |inputIds| + outputLen;
      idsBuf := new int[|inputIds| + outputLen](i => if 0 <= i < |inputIds| then inputIds[i] else 0);
      idsLen := |inputIds|;
      this.cachedLen := cachedLen;
      deviceLen := |inputIds|;
      pingPong, nextTrackIdx, lastTrackSeqlen := None, 0, None;
    }

    /** One forward step done.  Unguarded: the invariant survives exactly when the request could
        still decode. */
    method CompleteOne()
      requires Valid()
      modifies this`cachedLen, this`deviceLen
      ensures cachedLen == old(deviceLen) && deviceLen == old(deviceLen) + 1
      ensures Valid() <==> old(CanDecode())
      ensures RemainLen() == old(RemainLen()) - 1 && ExtendLen() == 1
      ensures Ids() == old(Ids())
    {
      cachedLen := deviceLen;
      deviceLen := deviceLen + 1;
    }

    /** Append sampled tokens in place; refused when they would overrun the buffer. */
    method AppendHost(next: seq<int>) returns (ok: bool)
      requires Valid()
      modifies this`idsLen, idsBuf
      ensures Valid()
      ensures ok <==> old(idsLen) + |next| <= maxDeviceLen
      ensures Ids() == if ok then old(Ids()) + next else old(Ids())
    {
      var n := idsLen;
      var m := n + |next|;
      if m > maxDeviceLen {
        return false;
      }
      for i := 0 to |next|
        invariant idsBuf[..n + i] == old(Ids()) + next[..i]
        invariant idsLen == n
      {
        idsBuf[n + i] := next[i];
        assert idsBuf[..n + i + 1] == idsBuf[..n + i] + [next[i]];
      }
      idsLen := m;
      ok := true;
    }
  }

  /** Construction refuses what the class asserts: a prompt already cached in full, or a negative
      output budget. */
  method MakeReq(tableIdx: nat, inputIds: seq<int>, cachedLen: int, outputLen: int) returns (r: Option<Req>)
    ensures r.Some? <==> 0 <= cachedLen < |inputIds| && outputLen >= 0
    ensures r.Some? ==> fresh(r.value) && fresh(r.value.idsBuf) && r.value.Valid()
    ensures r.Some? ==> r.value.Ids() == inputIds && r.value.deviceLen == |inputIds|
    ensures r.Some? ==> r.value.cachedLen == cachedLen && r.value.RemainLen() == outputLen
    ensures r.Some? ==> r.value.tableIdx == tableIdx && r.value.View().Valid()
  {
    var maxDeviceLen := |inputIds| + outputLen;
    if 0 <= cachedLen < |inputIds| <= maxDeviceLen {
      var req := new Req(tableIdx, inputIds, cachedLen, outputLen);
      r := Some(req);
    } else {
      r := None;
    }
  }

  function Sampled(tokens: nat -> int, n: nat): (s: seq<int>)
    ensures |s| == n
  {
    seq(n, i requires 0 <= i < n => tokens(i))
  }

  /** Decode while possible: step, then append the sampled token.  The run ends after exactly the
      output budget, the prompt and every earlier token stay a prefix throughout, and no append is
      refused. */
  method Generate(tableIdx: nat, inputIds: seq<int>, cachedLen: nat, outputLen: nat, tokens: nat -> int)
    returns (req: Req, steps: nat)
    requires cachedLen < |inputIds|
    ensures fresh(req) && req.Valid() && !req.CanDecode()
    ensures steps == outputLen
    ensures req.Ids() == inputIds + Sampled(tokens, outputLen)
    ensures outputLen > 0 ==> req.cachedLen == |inputIds| + outputLen - 1
  {
    req := new Req(tableIdx, inputIds, cachedLen, outputLen);
    steps := 0;
    while req.CanDecode()
      invariant fresh(req) && fresh(req.idsBuf) && req.Valid()
      invariant req.maxDeviceLen == |inputIds| + outputLen
      invariant req.deviceLen == |inputIds| + steps
      invariant req.Ids() == inputIds + Sampled(tokens, steps)
      invariant steps > 0 ==> req.cachedLen == req.deviceLen - 1
      decreases req.RemainLen()
    {
      assert |req.Ids()| == |inputIds| + steps;
      req.CompleteOne();
      var ok := req.AppendHost([tokens(steps)]);
      assert Sampled(tokens, steps + 1) == Sampled(tokens, steps) + [tokens(steps)];
      steps := steps + 1;
    }
  }

  // ----- overlapped scheduling --------------------------------------------------------------

  /** With overlapped scheduling tokens are drained later than the steps that sampled them. */
  datatype Counters = Counters(cached: int, device: int, ids: seq<int>, max: int)

  datatype Event = Complete | Drain(tokens: seq<int>)

  predicate CountersOk(c: Counters, promptLen: nat) {
    && 0 <= c.cached < c.device <= c.max
    && promptLen <= |c.ids| <= c.device
  }

  /** A step is taken only while the request can decode; a drain delivers tokens already stepped. */
  predicate Enabled(c: Counters, e: Event) {
    match e
    case Complete => c.max - c.device > 0
    case Drain(tokens) => |c.ids| + |tokens| <= c.device
  }

  function Next(c: Counters, e: Event): Counters {
    match e
    case Complete => c.(cached := c.device, device := c.device + 1)
    case Drain(tokens) => c.(ids := c.ids + tokens)
  }

  /** The guards are no stricter than they have to be: an event keeps the counters in order exactly when
      it is enabled. */
  lemma GuardsAreExact(c: Counters, e: Event, promptLen: nat)
    requires CountersOk(c, promptLen)
    ensures Enabled(c, e) <==> CountersOk(Next(c, e), promptLen)
    ensures match e
            case Complete => Next(c, e).cached == c.device && Next(c, e).device == c.device + 1
            && Next(c, e).ids == c.ids
            case Drain(tokens) =>
              Next(c, e).cached == c.cached && Next(c, e).device == c.device && Next(c, e).ids == c.ids + tokens
  {
  }

  ghost predicate Runs(c: Counters, es: seq<Event>, c': Counters)
    decreases |es|
  {
    if es == [] then c == c' else Enabled(c, es[0]) && Runs(Next(c, es[0]), es[1..], c')
  }

  function Steps(es: seq<Event>): nat {
    if es == [] then 0 else (if es[0].Complete? then 1 else 0) + Steps(es[1..])
  }

  /** Over every interleaving of guarded steps and late drains: the counter invariant holds, the
      tokens delivered earlier stay a prefix, no drain can overrun the buffer, and the remaining
      length is the initial one minus the steps taken -- so no run takes more steps than the output
      budget, and a run that has taken them all can decode no further. */
  lemma {:induction false} RunKeepsCounters(c: Counters, es: seq<Event>, c': Counters, promptLen: nat)
    requires Runs(c, es, c') && CountersOk(c, promptLen)
    ensures CountersOk(c', promptLen) && c'.max == c.max
    ensures 0 <= c'.cached < c'.device <= c'.max && promptLen <= |c'.ids| <= c'.device
    ensures c.ids <= c'.ids && |c'.ids| <= c'.max
    ensures c'.max - c'.device == (c.max - c.device) - Steps(es)
    ensures Steps(es) <= c.max - c.device
    ensures Enabled(c', Complete) <==> Steps(es) < c.max - c.device
    decreases |es|
  {
    if es != [] {
      RunKeepsCounters(Next(c, es[0]), es[1..], c', promptLen);
    }
  }
}
