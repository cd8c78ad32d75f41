/** What every step of the two-session system keeps. */
module SystemInvariant {
  import opened Frames
  import opened CodecSpec
  import opened StreamSpec
  import opened SessionSpec
  import opened Logs
  import opened NodeSpec
  import opened NodeInvariant
  import opened NodeSteps
  import opened SystemSpec

  /** The largest frame size limit whose payloads fit the length field. */
  const MAX_SAFE_FRAME_SIZE := HEADER_SIZE + U16_MAX

  function IdsOf(hs: seq<Handle>, ks: seq<nat>): seq<U32>
    requires forall i :: 0 <= i < |ks| ==> ks[i] < |hs|
  {
    seq(|ks|, i requires 0 <= i < |ks| => hs[ks[i]].id)
  }

  /** The frames the sender's loop took are those the reader handled, then those in flight. */
  predicate PipeLog(s: Node, link: Link, r: Node) {
    s.popped == r.recvd + link.flight
  }

  /** Buffer and wire together hold exactly the encodings of the frames in flight. */
  predicate PipeBytes(s: Node, link: Link) {
    && AllEncodable(s.ep.config.maxFrameSize, link.flight)
    && link.buffer + link.wire == EncodeAll(link.flight)
  }

  /** The reader took in every SYN it saw, in order. */
  predicate AllAccepted(r: Node) {
    && (forall i :: 0 <= i < |Arrived(r)| ==> Arrived(r)[i] < |r.ep.handles|)
    && IdsOf(r.ep.handles, Arrived(r)) == Syns(r.recvd)
  }

  /** Before an endpoint opens a stream it has seen no frame with that stream's ID. */
  predicate OwnFresh(r: Node) {
    && |r.tracks| == |r.ep.handles|
    && (forall k :: 0 <= k < |r.tracks| && Opener(r.ep.isClient, r.ep.handles[k].id) ==>
          r.tracks[k].start <= |r.recvd| && FramesOf(r.recvd[..r.tracks[k].start], r.ep.handles[k].id) == [])
  }

  predicate Half(s: Node, link: Link, r: Node) {
    && PipeLog(s, link, r)
    && PipeBytes(s, link)
    && AllAccepted(r)
    && OwnFresh(r)
    && UniqueIds(r.ep.handles)
  }

  predicate SysInv(s: System) {
    && s.client.ep.isClient && !s.server.ep.isClient
    && s.client.ep.config.maxFrameSize <= MAX_SAFE_FRAME_SIZE
    && s.server.ep.config.maxFrameSize <= MAX_SAFE_FRAME_SIZE
    && Inv(s.client) && Inv(s.server)
    && Half(s.client, s.up, s.server)
    && Half(s.server, s.down, s.client)
  }

  predicate SysFits(s: System) {
    Fits(s.client) && Fits(s.server)
  }

  // ===== what one half says about the sender's log ===================================

  lemma FramesOfAll(s: Node, link: Link, r: Node, id: U32)
    requires SentOk(s) && PipeLog(s, link, r)
    ensures FramesOf(s.sent, id) ==
      FramesOf(r.recvd, id) + (FramesOf(link.flight, id) + FramesOf(s.ep.frames.queue, id) + FramesOf(s.lost, id))
  {
    var a, b, c, d := r.recvd, link.flight, s.ep.frames.queue, s.lost;
    FramesOfAppend(a, b, id);
    FramesOfAppend(a + b, c, id);
    FramesOfAppend(a + b + c, d, id);
  }

  /** The frames of one ID in the sender's log follow the grammar. */
  lemma SentGrammar(s: Node, id: U32)
    requires SentOk(s) && Tx(s) && Filtered(s) && UniqueIds(s.ep.handles) && id != 0
    ensures !PhaseOf(FirstPhase(Opener(s.ep.isClient, id)), FramesOf(s.sent, id)).Bad?
    ensures !HasHandle(s.ep.handles, id) ==> FramesOf(s.sent, id) == []
  {
    if HasHandle(s.ep.handles, id) {
      var k :| 0 <= k < |s.ep.handles| && s.ep.handles[k].id == id;
      assert FramesOf(s.sent, s.ep.handles[k].id) == s.tracks[k].out;
      assert TxOk(s.ep.isClient, s.ep.config, s.ep.frames.connected, s.ep.handles[k], s.tracks[k]);
    } else {
      forall i | 0 <= i < |s.sent|
        ensures s.sent[i].id != id
      {
      }
      FramesOfNone(s.sent, id);
    }
  }

  lemma {:induction false} FreshMeansEmpty(first: Phase, fs: seq<Frame>)
    requires PhaseOf(first, fs).Fresh?
    ensures fs == []
  {
  }

  lemma SynSplits(isClient: bool, before: seq<Frame>, f: Frame, after: seq<Frame>, id: U32)
    requires f.cmd.Syn? && f.id == id
    requires !PhaseOf(FirstPhase(Opener(isClient, id)), FramesOf(before + [f] + after, id)).Bad?
    ensures FramesOf(before, id) == [] && FramesOf(before + [f], id) == [f] && Opener(isClient, id)
  {
    var first := FirstPhase(Opener(isClient, id));
    var fs, gs := FramesOf(before, id), FramesOf(after, id);
    FramesOfAppend(before + [f], after, id);
    FramesOfSnoc(before, f, id);
    PhasePrefix(first, fs + [f], gs);
    PhaseSnoc(first, fs, f);
    FreshMeansEmpty(first, fs);
    assert [] + [f] == [f];
  }

  /** In a log that follows the grammar, a SYN is the first frame of its stream, and only the opener
      sends one. */
  lemma SynIsFirst(isClient: bool, log: seq<Frame>, i: nat, id: U32)
    requires i < |log| && log[i].cmd.Syn? && log[i].id == id
    requires !PhaseOf(FirstPhase(Opener(isClient, id)), FramesOf(log, id)).Bad?
    ensures FramesOf(log[..i], id) == []
    ensures FramesOf(log[..i + 1], id) == [log[i]]
    ensures Opener(isClient, id)
  {
    var before, f, after := log[..i], log[i], log[i + 1..];
    assert log[..i + 1] == before + [f];
    assert log == before + [f] + after;
    SynSplits(isClient, before, f, after, id);
  }

  /** A frame the reader handled was sent by one of the sender's streams. */
  lemma RecvdWasSent(s: Node, link: Link, r: Node, i: nat)
    requires SentOk(s) && PipeLog(s, link, r) && i < |r.recvd|
    ensures i < |s.sent| && s.sent[i] == r.recvd[i]
    ensures r.recvd[i].id == 0 || HasHandle(s.ep.handles, r.recvd[i].id)
  {
  }

  /** The frames of one ID the reader handled follow the sender's grammar. */
  lemma RecvdGrammar(s: Node, link: Link, r: Node, id: U32)
    requires SentOk(s) && Tx(s) && Filtered(s) && UniqueIds(s.ep.handles) && PipeLog(s, link, r) && id != 0
    ensures !PhaseOf(FirstPhase(Opener(s.ep.isClient, id)), FramesOf(r.recvd, id)).Bad?
  {
    SentGrammar(s, id);
    FramesOfAll(s, link, r, id);
    PhasePrefix(FirstPhase(Opener(s.ep.isClient, id)), FramesOf(r.recvd, id),
      FramesOf(link.flight, id) + FramesOf(s.ep.frames.queue, id) + FramesOf(s.lost, id));
  }

  // ===== steps of the sender ============================================================

  lemma PopPipe(x: Node, x': Node, link: Link, y: Node, f: Frame)
    requires PipeLog(x, link, y) && PipeBytes(x, link) && Encodable(x.ep.config.maxFrameSize, f)
    requires x'.popped == x.popped + [f] && x'.ep.config == x.ep.config
    ensures var l := link.(wire := link.wire + WireForm(f), flight := link.flight + [f]);
      PipeLog(x', l, y) && PipeBytes(x', l)
  {
    EncodeAllSnoc(link.flight, f);
    assert link.buffer + (link.wire + WireForm(f)) == link.buffer + link.wire + WireForm(f);
    assert y.recvd + (link.flight + [f]) == y.recvd + link.flight + [f];
  }

  lemma PopKeepsHalf(x: Node, link: Link, y: Node, f: Frame)
    requires Half(x, link, y)
    requires x.ep.frames.queue != [] && f == x.ep.frames.queue[0]
    requires Encodable(x.ep.config.maxFrameSize, f)
    ensures Half(TransmitNode(x), link.(wire := link.wire + WireForm(f), flight := link.flight + [f]), y)
  {
    PopPipe(x, TransmitNode(x), link, y, f);
  }

  /** A step of the sender that takes nothing out of its frame channel. */
  lemma SenderElsewhere(x: Node, x': Node, link: Link, y: Node)
    requires Half(x, link, y) && x'.popped == x.popped && x'.ep.config == x.ep.config
    ensures Half(x', link, y)
  {
  }

  // ===== steps of the reader ===============================================================

  /** A frame with an ID of the reader's own kind belongs to a stream the reader opened. */
  lemma SeenMeansOpened(s: Node, link: Link, r: Node, back: Link, i: nat)
    requires Inv(s) && SentOk(r) && s.ep.isClient != r.ep.isClient
    requires PipeLog(s, link, r) && PipeLog(r, back, s)
    requires i < |r.recvd| && r.recvd[i].id != 0 && Opener(r.ep.isClient, r.recvd[i].id)
    ensures HasHandle(r.ep.handles, r.recvd[i].id)
  {
    var id := r.recvd[i].id;
    RecvdWasSent(s, link, r, i);
    var j :| 0 <= j < |s.ep.handles| && s.ep.handles[j].id == id;
    assert SynBefore(s.recvd, s.tracks[j].start, id);
    RecvdWasSent(r, back, s, s.tracks[j].start - 1);
  }

  /** An ID the reader is about to hand out has not been seen in anything it received. */
  lemma OpenedIdUnseen(s: Node, link: Link, r: Node, back: Link)
    requires Inv(s) && Inv(r) && s.ep.isClient != r.ep.isClient
    requires PipeLog(s, link, r) && PipeLog(r, back, s)
    requires r.idCalls < IdLimit(r.ep.isClient)
    ensures FramesOf(r.recvd, r.ep.nextId) == []
  {
    FreshId(r);
    forall i | 0 <= i < |r.recvd|
      ensures r.recvd[i].id != r.ep.nextId
    {
      if r.recvd[i].id != 0 && Opener(r.ep.isClient, r.recvd[i].id) {
        SeenMeansOpened(s, link, r, back, i);
      }
    }
    FramesOfNone(r.recvd, r.ep.nextId);
  }

  /** A SYN about to be handled is for a stream the reader does not have, with an ID it accepts. */
  lemma NextSynIsNew(s: Node, link: Link, r: Node, f: Frame)
    requires Inv(s) && Peers(r) && s.ep.isClient != r.ep.isClient && UniqueIds(s.ep.handles)
    requires PipeLog(s, link, r) && link.flight != [] && f == link.flight[0] && f.cmd.Syn?
    ensures f.id != 0 && !Opener(r.ep.isClient, f.id)
    ensures forall k :: 0 <= k < |r.ep.handles| ==> r.ep.handles[k].id != f.id
  {
    var i := |r.recvd|;
    assert s.sent[i] == f;
    assert Produced(s.ep.config, s.sent[i]);
    SentGrammar(s, f.id);
    SynIsFirst(s.ep.isClient, s.sent, i, f.id);
    assert s.sent[..i] == r.recvd;
    FramesOfNone(r.recvd, f.id);
    forall k | 0 <= k < |r.ep.handles|
      ensures r.ep.handles[k].id != f.id
    {
      if !Opener(r.ep.isClient, r.ep.handles[k].id) {
        assert SynBefore(r.recvd, r.tracks[k].start, r.ep.handles[k].id);
        assert r.recvd[r.tracks[k].start - 1].id != f.id;
      }
    }
  }

  /** A step of the reader that handles no frame and opens no stream. */
  predicate Steady(r: Node, r': Node) {
    && r'.recvd == r.recvd && Arrived(r') == Arrived(r) && r'.ep.isClient == r.ep.isClient
    && |r'.ep.handles| == |r.ep.handles| && |r'.tracks| == |r.tracks|
    && (forall k :: 0 <= k < |r.ep.handles| ==> r'.ep.handles[k].id == r.ep.handles[k].id)
    && (forall k :: 0 <= k < |r.tracks| ==> r'.tracks[k].start == r.tracks[k].start)
  }

  lemma SteadyKeeps(s: Node, link: Link, r: Node, r': Node)
    requires Half(s, link, r) && Steady(r, r')
    ensures Half(s, link, r')
  {
    assert IdsOf(r'.ep.handles, Arrived(r')) == IdsOf(r.ep.handles, Arrived(r));
  }

  lemma CallSteady(n: Node, k: nat, call: Call)
    requires Tx(n) && At(n, k, CallPlace(call))
    ensures Steady(n, CallNode(n, k, call)) && CallNode(n, k, call).popped == n.popped
  {
    assert TxOk(n.ep.isClient, n.ep.config, n.ep.frames.connected, n.ep.handles[k], n.tracks[k]);
    CallIsGood(n.ep, n.ep.handles[k], n.tracks[k], call);
  }

  lemma AcceptSteady(n: Node, closed: bool)
    ensures Steady(n, AcceptNode(n, closed)) && AcceptNode(n, closed).popped == n.popped
  {
    if !closed && n.ep.acceptQueue != [] {
      AcceptArrived(n);
    }
  }

  lemma LocalSteady(n: Node, op: Op)
    requires Tx(n) && Rx(n) && NeverWaits(n) && IsLocal(op) && !op.OpOpen?
    ensures Steady(n, Apply(n, op)) && Apply(n, op).popped == n.popped
  {
    match op
    case OpAccept(passed) => AcceptSteady(n, Seen(n.ep, passed));
    case OpRead(k, room, passed) => if At(n, k, User) && room > 0 { ReadSame(n, k, room, Seen(n.ep, passed)); }
    case OpCall(k, call) => if At(n, k, CallPlace(call)) { CallSteady(n, k, call); }
    case OpAcceptResume => assert Arrived(Apply(n, op)) == Arrived(n);
    case OpTokenRetry =>
    case OpTokenAbort =>
    case OpSendStop =>
    case OpRecvStop =>
    case OpCloseSession =>
    case OpPing =>
    case OpTimeoutTick =>
  }

  lemma OpenShape(r: Node, closed: bool)
    requires Mapped(r.ep) && Ids(r) && IdsFit(OpenNode(r, closed)) && |r.tracks| == |r.ep.handles|
    ensures var r' := OpenNode(r, closed);
      && r'.recvd == r.recvd && Arrived(r') == Arrived(r) && r'.ep.isClient == r.ep.isClient && r'.popped == r.popped
      && (if closed then r' == r else
            && r'.ep.handles == r.ep.handles + [NewHandle(r.ep.nextId, Opening)]
            && r'.tracks == r.tracks + [NewTrack(|r.recvd|)])
  {
    if !closed {
      FreshId(r);
    }
  }

  /** One more handle on the reader's side that is not (yet) an arrival. */
  lemma OwnGrows(r: Node, r': Node, id: U32)
    requires AllAccepted(r) && OwnFresh(r) && UniqueIds(r.ep.handles)
    requires r'.recvd == r.recvd && Arrived(r') == Arrived(r) && r'.ep.isClient == r.ep.isClient
    requires r'.ep.handles == r.ep.handles + [NewHandle(id, Opening)] && r'.tracks == r.tracks + [NewTrack(|r.recvd|)]
    requires FramesOf(r.recvd, id) == []
    requires forall k :: 0 <= k < |r.ep.handles| ==> r.ep.handles[k].id != id
    ensures AllAccepted(r') && OwnFresh(r') && UniqueIds(r'.ep.handles)
  {
    assert IdsOf(r'.ep.handles, Arrived(r')) == IdsOf(r.ep.handles, Arrived(r));
    assert r.recvd[..|r.recvd|] == r.recvd;
  }

  lemma OpenKeepsHalf(s: Node, link: Link, r: Node, back: Link, closed: bool)
    requires Inv(s) && Inv(r) && s.ep.isClient != r.ep.isClient && IdsFit(OpenNode(r, closed))
    requires Half(s, link, r) && PipeLog(r, back, s)
    ensures Half(s, link, OpenNode(r, closed))
  {
    OpenShape(r, closed);
    if !closed {
      FreshId(r);
      OpenedIdUnseen(s, link, r, back);
      OwnGrows(r, OpenNode(r, closed), r.ep.nextId);
    }
  }

  lemma PrefixFresh(r: Node, r': Node)
    requires OwnFresh(r) && r'.ep.isClient == r.ep.isClient
    requires |r.recvd| <= |r'.recvd| && r'.recvd[..|r.recvd|] == r.recvd
    requires |r'.tracks| == |r'.ep.handles| >= |r.tracks|
    requires forall k :: 0 <= k < |r.tracks| ==>
      r'.tracks[k].start == r.tracks[k].start && r'.ep.handles[k].id == r.ep.handles[k].id
    requires forall k :: |r.tracks| <= k < |r'.tracks| ==> !Opener(r.ep.isClient, r'.ep.handles[k].id)
    ensures OwnFresh(r')
  {
    forall k | 0 <= k < |r'.tracks| && Opener(r'.ep.isClient, r'.ep.handles[k].id)
      ensures r'.tracks[k].start <= |r'.recvd| && FramesOf(r'.recvd[..r'.tracks[k].start], r'.ep.handles[k].id) == []
    {
      assert r'.recvd[..r.tracks[k].start] == r.recvd[..r.tracks[k].start];
    }
  }

  lemma PlainReader(r: Node, r': Node, f: Frame)
    requires AllAccepted(r) && OwnFresh(r) && UniqueIds(r.ep.handles)
    requires SameTx(r, r') && Arrived(r') == Arrived(r) && r'.recvd == r.recvd + [f] && !f.cmd.Syn?
    ensures AllAccepted(r') && OwnFresh(r') && UniqueIds(r'.ep.handles)
  {
    SynsSnoc(r.recvd, f);
    assert IdsOf(r'.ep.handles, Arrived(r')) == IdsOf(r.ep.handles, Arrived(r));
    PrefixFresh(r, r');
  }

  lemma SynReader(r: Node, r': Node, f: Frame)
    requires AllAccepted(r) && OwnFresh(r) && UniqueIds(r.ep.handles)
    requires f.cmd.Syn? && !Opener(r.ep.isClient, f.id)
    requires forall k :: 0 <= k < |r.ep.handles| ==> r.ep.handles[k].id != f.id
    requires r'.recvd == r.recvd + [f] && r'.ep.isClient == r.ep.isClient
    requires Arrived(r') == Arrived(r) + [|r.ep.handles|]
    requires r'.ep.handles == r.ep.handles + [NewHandle(f.id, Queued)]
    requires r'.tracks == r.tracks + [NewTrack(|r.recvd| + 1)]
    ensures AllAccepted(r') && OwnFresh(r') && UniqueIds(r'.ep.handles)
  {
    SynAccepted(r, r', f);
    assert r'.recvd[..|r.recvd|] == r.recvd;
    PrefixFresh(r, r');
  }

  lemma SynAccepted(r: Node, r': Node, f: Frame)
    requires AllAccepted(r) && f.cmd.Syn? && r'.recvd == r.recvd + [f]
    requires Arrived(r') == Arrived(r) + [|r.ep.handles|]
    requires r'.ep.handles == r.ep.handles + [NewHandle(f.id, Queued)]
    ensures AllAccepted(r')
  {
    SynsSnoc(r.recvd, f);
    assert IdsOf(r'.ep.handles, Arrived(r')) == IdsOf(r.ep.handles, Arrived(r)) + [f.id];
  }

  /** A SYN with an acceptable ID that no handle has always creates a stream. */
  lemma NewSynAccepted(r: Node, f: Frame)
    requires Mapped(r.ep) && f.cmd.Syn? && f.id != 0 && !Opener(r.ep.isClient, f.id)
    requires forall k :: 0 <= k < |r.ep.handles| ==> r.ep.handles[k].id != f.id
    ensures !Plain(r, f)
  {
    assert f.id !in r.ep.streams;
  }

  /** The reader's log and accepted streams after one more frame. */
  lemma DispatchKeepsReader(r: Node, f: Frame)
    requires Inv(r) && LedgerFits(r) && r.ep.task.Idle? && AllAccepted(r) && OwnFresh(r) && UniqueIds(r.ep.handles)
    requires f.cmd.Syn? ==>
      f.id != 0 && !Opener(r.ep.isClient, f.id) && forall k :: 0 <= k < |r.ep.handles| ==> r.ep.handles[k].id != f.id
    ensures var r' := DispatchNode(r, f);
      AllAccepted(r') && OwnFresh(r') && UniqueIds(r'.ep.handles) && r'.recvd == r.recvd + [f] && r'.popped == r.popped
  {
    if f.cmd.Syn? {
      NewSynAccepted(r, f);
      SynShape(r, f);
      SynPeers(r, f);
      SynReader(r, DispatchNode(r, f), f);
    } else {
      if !Plain(r, f) { SynShape(r, f); }
      PositiveTokens(r);
      PlainAbsorbs(r, f);
      AbsorbsSame(r, DispatchNode(r, f), f);
      PlainReader(r, DispatchNode(r, f), f);
    }
  }

  /** Decoding the bytes in flight, whole or in part, meets the first frame in flight. */
  lemma FlightDecodes(max: nat, peerMax: nat, link: Link)
    requires AllEncodable(max, link.flight) && link.buffer + link.wire == EncodeAll(link.flight)
    requires !Decode(peerMax, link.buffer).NeedMore?
    ensures link.flight != []
    ensures var f := link.flight[0]; var rest := EncodeAll(link.flight[1..]);
      Decode(peerMax, link.buffer + link.wire) ==
        if |WireForm(f)| <= peerMax then Yield(f, rest)
        else Broken(FrameTooLarge(|WireForm(f)|, peerMax), link.buffer + link.wire)
    ensures |WireForm(link.flight[0])| <= max
  {
    var f := link.flight[0];
    var fs := link.flight[1..];
    assert link.flight == [f] + fs;
    EncodeAllCons(f, fs, []);
    assert EncodeAll(link.flight) + [] == EncodeAll(link.flight);
    assert EncodeAll(fs) + [] == EncodeAll(fs);
    EncodableIs(max, f);
    DecodeEncoded(max, peerMax, f, EncodeAll(fs));
  }

  /** What the reader's next decoding step can be, when its buffer and the wire hold the encodings of
      the frames in flight. */
  lemma ReceivedYield(max: nat, peerMax: nat, link: Link, f: Frame, rest: Bytes)
    requires AllEncodable(max, link.flight) && link.buffer + link.wire == EncodeAll(link.flight)
    requires Decode(peerMax, link.buffer) == Yield(f, rest)
    ensures link.flight != [] && f == link.flight[0]
    ensures AllEncodable(max, link.flight[1..]) && rest + link.wire == EncodeAll(link.flight[1..])
  {
    FlightDecodes(max, peerMax, link);
    DecodeStable(peerMax, link.buffer, link.wire);
  }

  lemma ReceivedBroken(max: nat, peerMax: nat, link: Link)
    requires AllEncodable(max, link.flight) && link.buffer + link.wire == EncodeAll(link.flight)
    requires Decode(peerMax, link.buffer).Broken?
    ensures Decode(peerMax, link.buffer).rest == link.buffer && peerMax < max
  {
    FlightDecodes(max, peerMax, link);
    DecodeStable(peerMax, link.buffer, link.wire);
    BrokenRest(peerMax, link.buffer, link.wire);
  }

  lemma BrokenRest(max: nat, src: Bytes, more: Bytes)
    requires Decode(max, src).Broken? && Decode(max, src + more).Broken? && Decode(max, src + more).rest == src + more
    ensures Decode(max, src).rest == src
  {
    DecodeStable(max, src, more);
    assert |Decode(max, src).rest + more| == |src + more|;
  }

  // ===== one step of one side ================================================================

  /** Everything one side's step has to keep: its own invariant and both halves it takes part in. */
  predicate Sides(x: Node, outgoing: Link, incoming: Link, y: Node) {
    && x.ep.isClient != y.ep.isClient
    && x.ep.config.maxFrameSize <= MAX_SAFE_FRAME_SIZE
    && y.ep.config.maxFrameSize <= MAX_SAFE_FRAME_SIZE
    && Inv(x) && Inv(y)
    && Half(x, outgoing, y)
    && Half(y, incoming, x)
  }

  lemma LocalKeeps(x: Node, outgoing: Link, incoming: Link, y: Node, op: Op)
    requires Sides(x, outgoing, incoming, y) && IsLocal(op) && Fits(Apply(x, op))
    ensures Sides(Apply(x, op), outgoing, incoming, y)
  {
    ApplyExtends(x, op);
    ApplyKeeps(x, op);
    if op.OpOpen? {
      OpenShape(x, Seen(x.ep, op.passed));
      OpenKeepsHalf(y, incoming, x, outgoing, Seen(x.ep, op.passed));
    } else {
      LocalSteady(x, op);
      SteadyKeeps(y, incoming, x, Apply(x, op));
    }
    SenderElsewhere(x, Apply(x, op), outgoing, y);
  }

  lemma TransmitSteady(x: Node)
    requires x.ep.frames.queue != []
    ensures Steady(x, TransmitNode(x))
  {
  }

  /** Every frame waiting to be sent is one the library produces, with a payload the wire can carry. */
  lemma WaitingIsProduced(x: Node, i: nat)
    requires SentOk(x) && x.ep.config.maxFrameSize <= MAX_SAFE_FRAME_SIZE && i < |x.ep.frames.queue|
    ensures Produced(x.ep.config, x.ep.frames.queue[i]) && |x.ep.frames.queue[i].data| <= U16_MAX
  {
    assert x.sent[|x.popped| + i] == x.ep.frames.queue[i];
  }

  lemma SendsKeep(x: Node, outgoing: Link, incoming: Link, y: Node, f: Frame)
    requires Sides(x, outgoing, incoming, y) && x.ep.frames.queue != [] && f == x.ep.frames.queue[0]
    requires Encodable(x.ep.config.maxFrameSize, f)
    ensures Sides(TransmitNode(x),
      outgoing.(wire := outgoing.wire + WireForm(f), flight := outgoing.flight + [f]), incoming, y)
  {
    TransmitKeeps(x);
    TransmitSteady(x);
    SteadyKeeps(y, incoming, x, TransmitNode(x));
    PopKeepsHalf(x, outgoing, y, f);
  }

  lemma SendKeeps(x: Node, outgoing: Link, incoming: Link, y: Node)
    requires Sides(x, outgoing, incoming, y) && Fits(SendAct(x, outgoing).0)
    ensures Sides(SendAct(x, outgoing).0, SendAct(x, outgoing).1, incoming, y)
  {
    if x.ep.frames.queue != [] {
      var f := x.ep.frames.queue[0];
      WaitingIsProduced(x, 0);
      EncodableIs(x.ep.config.maxFrameSize, f);
      match Encode(x.ep.config.maxFrameSize, f)
      case Failure(_) => LocalKeeps(x, outgoing, incoming, y, OpSendStop);
      case Success(bytes) => SendsKeep(x, outgoing, incoming, y, f);
    }
  }

  lemma MovedBytes(b: Bytes, w: Bytes, n: nat)
    requires n <= |w|
    ensures b + w[..n] + w[n..] == b + w
  {
  }

  lemma CarryKeeps(x: Node, outgoing: Link, incoming: Link, y: Node, count: nat)
    requires Sides(x, outgoing, incoming, y)
    ensures Sides(x, outgoing, CarryAct(incoming, count), y)
  {
    if count <= |incoming.wire| {
      MovedBytes(incoming.buffer, incoming.wire, count);
    }
  }

  lemma YieldPipe(y: Node, incoming: Link, x: Node, x': Node, f: Frame, rest: Bytes)
    requires PipeLog(y, incoming, x) && x'.recvd == x.recvd + [f]
    requires incoming.flight != [] && f == incoming.flight[0]
    requires AllEncodable(y.ep.config.maxFrameSize, incoming.flight[1..])
    requires rest + incoming.wire == EncodeAll(incoming.flight[1..])
    ensures var i := incoming.(buffer := rest, flight := incoming.flight[1..]); PipeLog(y, i, x') && PipeBytes(y, i)
  {
    assert incoming.flight == [f] + incoming.flight[1..];
  }

  lemma YieldReader(y: Node, incoming: Link, x: Node, f: Frame)
    requires Half(y, incoming, x) && Inv(x) && Inv(y) && x.ep.isClient != y.ep.isClient && UniqueIds(y.ep.handles)
    requires x.ep.task.Idle? && LedgerFits(x) && incoming.flight != [] && f == incoming.flight[0]
    ensures var x' := DispatchNode(x, f); AllAccepted(x') && OwnFresh(x') && UniqueIds(x'.ep.handles)
  {
    if f.cmd.Syn? {
      NextSynIsNew(y, incoming, x, f);
    }
    DispatchKeepsReader(x, f);
  }

  lemma DispatchLogs(x: Node, f: Frame)
    ensures DispatchNode(x, f).recvd == x.recvd + [f] && DispatchNode(x, f).popped == x.popped
  {
    DispatchHistory(x, f);
  }

  lemma YieldHalf(y: Node, incoming: Link, x: Node, f: Frame, rest: Bytes)
    requires Half(y, incoming, x) && Inv(x) && Inv(y) && x.ep.isClient != y.ep.isClient && UniqueIds(y.ep.handles)
    requires x.ep.task.Idle? && LedgerFits(x) && incoming.flight != [] && f == incoming.flight[0]
    requires AllEncodable(y.ep.config.maxFrameSize, incoming.flight[1..])
    requires rest + incoming.wire == EncodeAll(incoming.flight[1..])
    ensures Half(y, incoming.(buffer := rest, flight := incoming.flight[1..]), DispatchNode(x, f))
  {
    DispatchLogs(x, f);
    YieldPipe(y, incoming, x, DispatchNode(x, f), f, rest);
    YieldReader(y, incoming, x, f);
  }

  /** A decoding step that fits the frames in flight. */
  predicate Expected(max: nat, peerMax: nat, link: Link, d: Decoded) {
    match d
    case NeedMore => true
    case Broken(_, rest) => rest == link.buffer && peerMax < max
    case Yield(f, rest) =>
      && link.flight != [] && f == link.flight[0]
      && AllEncodable(max, link.flight[1..]) && rest + link.wire == EncodeAll(link.flight[1..])
  }

  lemma DecodeExpected(max: nat, peerMax: nat, link: Link)
    requires AllEncodable(max, link.flight) && link.buffer + link.wire == EncodeAll(link.flight)
    ensures Expected(max, peerMax, link, Decode(peerMax, link.buffer))
  {
    match Decode(peerMax, link.buffer)
    case NeedMore =>
    case Broken(_, _) => ReceivedBroken(max, peerMax, link);
    case Yield(f, rest) => ReceivedYield(max, peerMax, link, f, rest);
  }

  lemma YieldKeeps(x: Node, outgoing: Link, incoming: Link, y: Node, f: Frame, rest: Bytes)
    requires Sides(x, outgoing, incoming, y) && x.ep.task.Idle? && Fits(DispatchNode(x, f))
    requires Expected(y.ep.config.maxFrameSize, x.ep.config.maxFrameSize, incoming, Yield(f, rest))
    ensures Sides(DispatchNode(x, f), outgoing, incoming.(buffer := rest, flight := incoming.flight[1..]), y)
  {
    DispatchExtends(x, f);
    DispatchKeeps(x, f);
    YieldHalf(y, incoming, x, f, rest);
    DispatchLogs(x, f);
    SenderElsewhere(x, DispatchNode(x, f), outgoing, y);
  }

  lemma ReceivedKeeps(x: Node, outgoing: Link, incoming: Link, y: Node, d: Decoded)
    requires Sides(x, outgoing, incoming, y) && x.ep.task.Idle? && Fits(Received(x, incoming, d).0)
    requires Expected(y.ep.config.maxFrameSize, x.ep.config.maxFrameSize, incoming, d)
    ensures Sides(Received(x, incoming, d).0, outgoing, Received(x, incoming, d).1, y)
  {
    match d
    case NeedMore =>
    case Broken(_, rest) => LocalKeeps(x, outgoing, incoming, y, OpRecvStop);
    case Yield(f, rest) => YieldKeeps(x, outgoing, incoming, y, f, rest);
  }

  lemma ReceiveKeeps(x: Node, outgoing: Link, incoming: Link, y: Node)
    requires Sides(x, outgoing, incoming, y) && Fits(ReceiveAct(x, incoming).0)
    ensures Sides(ReceiveAct(x, incoming).0, outgoing, ReceiveAct(x, incoming).1, y)
  {
    if x.ep.task.Idle? {
      DecodeExpected(y.ep.config.maxFrameSize, x.ep.config.maxFrameSize, incoming);
      ReceivedKeeps(x, outgoing, incoming, y, Decode(x.ep.config.maxFrameSize, incoming.buffer));
    }
  }

  lemma ActKeeps(x: Node, outgoing: Link, incoming: Link, y: Node, action: Action)
    requires Sides(x, outgoing, incoming, y) && Fits(Act(x, outgoing, incoming, action).0)
    ensures var (x', o, i) := Act(x, outgoing, incoming, action); Sides(x', o, i, y)
  {
    match action
    case Local(op) => if IsLocal(op) { LocalKeeps(x, outgoing, incoming, y, op); }
    case Send => SendKeeps(x, outgoing, incoming, y);
    case Carry(count) => CarryKeeps(x, outgoing, incoming, y, count);
    case Receive => ReceiveKeeps(x, outgoing, incoming, y);
  }

  /** Configuration and roles never change, counters only grow. */
  lemma ActExtends(x: Node, outgoing: Link, incoming: Link, action: Action)
    ensures Extends(x, Act(x, outgoing, incoming, action).0)
  {
    match action
    case Local(op) => if IsLocal(op) { ApplyExtends(x, op); }
    case Send => ApplyExtends(x, OpSendStop); ApplyExtends(x, OpTransmit);
    case Carry(count) =>
    case Receive =>
      ApplyExtends(x, OpRecvStop);
      if Decode(x.ep.config.maxFrameSize, incoming.buffer).Yield? {
        ApplyExtends(x, OpDispatch(Decode(x.ep.config.maxFrameSize, incoming.buffer).frame));
      }
  }

  // ===== any run ==================================================================================

  lemma MoveKeeps(s: System, step: Step)
    requires SysInv(s) && SysFits(Move(s, step))
    ensures SysInv(Move(s, step))
  {
    if step.byClient {
      ActExtends(s.client, s.up, s.down, step.action);
      ActKeeps(s.client, s.up, s.down, s.server, step.action);
    } else {
      ActExtends(s.server, s.down, s.up, step.action);
      ActKeeps(s.server, s.down, s.up, s.client, step.action);
    }
  }

  lemma FitsBefore(s: System, step: Step)
    requires SysFits(Move(s, step))
    ensures SysFits(s)
  {
    if step.byClient {
      ActExtends(s.client, s.up, s.down, step.action);
    } else {
      ActExtends(s.server, s.down, s.up, step.action);
    }
  }

  /** Configurations the end-to-end results hold for. */
  predicate GoodConfig(c: Config) {
    c.Validates() && c.maxFrameSize <= MAX_SAFE_FRAME_SIZE
  }

  lemma InitHalf(senderIsClient: bool, senderConfig: Config, readerConfig: Config)
    ensures Half(NewNode(senderIsClient, senderConfig), Link([], [], []), NewNode(!senderIsClient, readerConfig))
  {
  }

  lemma InitSystem(clientConfig: Config, serverConfig: Config)
    requires GoodConfig(clientConfig) && GoodConfig(serverConfig)
    ensures SysInv(NewSystem(clientConfig, serverConfig))
  {
    InitInv(true, clientConfig);
    InitInv(false, serverConfig);
    InitHalf(true, clientConfig, serverConfig);
    InitHalf(false, serverConfig, clientConfig);
  }

  lemma {:induction false} SystemRunInv(clientConfig: Config, serverConfig: Config, steps: seq<Step>)
    requires GoodConfig(clientConfig) && GoodConfig(serverConfig)
    requires SysFits(RunSystem(NewSystem(clientConfig, serverConfig), steps))
    ensures SysInv(RunSystem(NewSystem(clientConfig, serverConfig), steps))
  {
    if steps == [] {
      InitSystem(clientConfig, serverConfig);
    } else {
      var before := RunSystem(NewSystem(clientConfig, serverConfig), steps[..|steps| - 1]);
      FitsBefore(before, steps[|steps| - 1]);
      SystemRunInv(clientConfig, serverConfig, steps[..|steps| - 1]);
      MoveKeeps(before, steps[|steps| - 1]);
    }
  }
}
