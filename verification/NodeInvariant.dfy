/** What every operation of one endpoint keeps, whatever frames arrive and however tasks interleave. */
module NodeInvariant {
  import opened Frames
  import opened StreamSpec
  import opened SessionSpec
  import opened Logs
  import opened NodeSpec

  /** The IDs an endpoint hands out itself. */
  predicate Opener(isClient: bool, id: U32) {
    id % 2 == if isClient then 1 else 0
  }

  // ----- the stream map ------------------------------------------------------

  /** An entry holds the sending half of its handle's channel, and every open sending half is in an entry. */
  predicate Mapped(ep: Endpoint) {
    && (forall id :: id in ep.streams ==>
          ep.streams[id] < |ep.handles| && ep.handles[ep.streams[id]].id == id && ep.handles[ep.streams[id]].txOpen)
    && (forall k :: 0 <= k < |ep.handles| && ep.handles[k].txOpen ==>
          ep.handles[k].id in ep.streams && ep.streams[ep.handles[k].id] == k)
  }

  // ----- the receiving half of a handle --------------------------------------

  /** What was read, then what is held, is what the receive log delivers from the stream's creation to
      its FIN; the channel is open exactly until that FIN. Of a dropped handle only the latter half of
      the second part is known. */
  predicate RxOk(h: Handle, t: Track, recvd: seq<Frame>) {
    && t.start <= |recvd|
    && WellChunked(h)
    && (Ended(recvd, t.start, h.id) ==> !h.txOpen)
    && (!h.place.Dropped? ==>
          && (h.txOpen <==> !Ended(recvd, t.start, h.id))
          && t.read + Flat(h) == Delivered(recvd, t.start, h.id))
  }

  predicate Rx(n: Node) {
    && |n.tracks| == |n.ep.handles|
    && (forall k :: 0 <= k < |n.tracks| ==> RxOk(n.ep.handles[k], n.tracks[k], n.recvd))
  }

  // ----- the sending half of a handle ----------------------------------------

  /** The frames the library produces. */
  predicate Produced(config: Config, f: Frame) {
    && f.version == (if f.cmd.Syn? || f.cmd.Nop? then config.version else 1)
    && !f.cmd.Upd?
    && (f.cmd.Nop? <==> f.id == 0)
    && (if f.cmd.Psh? then |f.data| <= MaxPayload(config.maxFrameSize) else f.data == [])
  }

  function PhaseNow(isClient: bool, h: Handle, t: Track): Phase {
    PhaseOf(FirstPhase(Opener(isClient, h.id)), t.out)
  }

  /** `connected`: the send loop still lives. A stream in the application's hands that is closed for writing
      has sent its FIN, unless the send loop was gone. */
  predicate PlaceOk(h: Handle, p: Phase, connected: bool) {
    match h.place
    case Opening => p.Fresh? && !h.writeClosed
    case Queued => p.Live? && !h.writeClosed
    case User => if h.writeClosed then p.Finished? || (p.Live? && !connected) else p.Live?
    case Closing => p.Live? && h.writeClosed
    case Dropped => !p.Bad? && h.writeClosed
  }

  predicate TxOk(isClient: bool, config: Config, connected: bool, h: Handle, t: Track) {
    && h.id != 0
    && PlaceOk(h, PhaseNow(isClient, h, t), connected)
    && DataOf(t.out) == t.written
    && (forall i :: 0 <= i < |t.out| ==> t.out[i].id == h.id && Produced(config, t.out[i]))
  }

  predicate Tx(n: Node) {
    && |n.tracks| == |n.ep.handles|
    && (forall k :: 0 <= k < |n.tracks| ==>
          TxOk(n.ep.isClient, n.ep.config, n.ep.frames.connected, n.ep.handles[k], n.tracks[k]))
  }

  // ----- the send log ----------------------------------------------------------

  predicate HasHandle(hs: seq<Handle>, id: U32) {
    exists k :: 0 <= k < |hs| && hs[k].id == id
  }

  predicate UniqueIds(hs: seq<Handle>) {
    forall i, j :: 0 <= i < j < |hs| ==> hs[i].id != hs[j].id
  }

  predicate SentOk(n: Node) {
    && (forall i :: 0 <= i < |n.sent| ==>
          Produced(n.ep.config, n.sent[i]) && (n.sent[i].id == 0 || HasHandle(n.ep.handles, n.sent[i].id)))
    && n.sent == n.popped + n.ep.frames.queue + n.lost
    && (n.ep.frames.connected ==> n.lost == [])
    && (!n.ep.frames.connected ==> n.ep.frames.queue == [])
  }

  /** As long as IDs are not reused, the log's frames with a handle's ID are that handle's frames. */
  predicate Filtered(n: Node) {
    && |n.tracks| == |n.ep.handles|
    && (UniqueIds(n.ep.handles) ==>
          forall k :: 0 <= k < |n.tracks| ==> FramesOf(n.sent, n.ep.handles[k].id) == n.tracks[k].out)
  }

  // ----- stream IDs --------------------------------------------------------------

  predicate Ids(n: Node) {
    && n.ep.nextId == InitialId(n.ep.isClient) + 2 * n.idCalls
    && (forall k :: 0 <= k < |n.ep.handles| && Opener(n.ep.isClient, n.ep.handles[k].id) ==>
          n.ep.handles[k].id < n.ep.nextId)
    && (forall j, k :: 0 <= j < k < |n.ep.handles| && Opener(n.ep.isClient, n.ep.handles[k].id) ==>
          n.ep.handles[j].id != n.ep.handles[k].id)
  }

  // ----- streams opened by the peer ----------------------------------------------

  /** The peer's streams in the order in which their SYNs were handled. */
  function Arrived(n: Node): seq<nat> {
    n.accepted + n.ep.acceptQueue + if n.ep.task.AwaitAccept? then [n.ep.task.handle] else []
  }

  predicate SynBefore(recvd: seq<Frame>, start: nat, id: U32) {
    1 <= start <= |recvd| && recvd[start - 1].cmd.Syn? && recvd[start - 1].id == id
  }

  predicate Peers(n: Node) {
    && |n.tracks| == |n.ep.handles|
    && (forall i :: 0 <= i < |Arrived(n)| ==> Arrived(n)[i] < |n.ep.handles|)
    && (forall i, j :: 0 <= i < j < |Arrived(n)| ==> Arrived(n)[i] < Arrived(n)[j])
    && (forall i :: |n.accepted| <= i < |Arrived(n)| ==> n.ep.handles[Arrived(n)[i]].place == Queued)
    && (forall k :: 0 <= k < |n.ep.handles| && !Opener(n.ep.isClient, n.ep.handles[k].id) ==>
          k in Arrived(n) && SynBefore(n.recvd, n.tracks[k].start, n.ep.handles[k].id))
  }

  // ----- tokens --------------------------------------------------------------------

  /** The counter shows the initial buffer size, plus bytes read, plus bytes discarded, minus bytes taken
      in the token loop, modulo the width of the counter. */
  predicate Ledger(n: Node) {
    n.ep.tokens == WrapI64(LedgerValue(n))
  }

  predicate NeverWaits(n: Node) {
    n.taken == 0 && !n.ep.task.AwaitTokens?
  }

  predicate Inv(n: Node) {
    && n.ep.config.Validates()
    && Mapped(n.ep)
    && Rx(n)
    && Tx(n)
    && SentOk(n)
    && Filtered(n)
    && Ids(n)
    && Peers(n)
    && Ledger(n)
    && NeverWaits(n)
  }

  /** A new stream's entry replaces one with the same ID, whose stream loses its sending half; so the map stays
      in step even where IDs come round again. */
  lemma InsertReplaces(ep: Endpoint, id: U32, place: Place)
    requires Mapped(ep)
    ensures var ep' := InsertHandle(ep, id, place);
      && Mapped(ep') && |ep'.handles| == |ep.handles| + 1
      && id in ep'.streams && ep'.streams[id] == |ep.handles|
      && (id in ep.streams ==> ep'.handles[ep.streams[id]] == ep.handles[ep.streams[id]].(txOpen := false))
  {
  }

  lemma InitLogs(isClient: bool, config: Config)
    ensures SentOk(NewNode(isClient, config)) && Peers(NewNode(isClient, config))
  {
    assert Arrived(NewNode(isClient, config)) == [];
  }

  lemma InitStreams(isClient: bool, config: Config)
    ensures var n := NewNode(isClient, config); Mapped(n.ep) && Rx(n) && Tx(n) && Filtered(n) && Ids(n)
  {
  }

  lemma InitInv(isClient: bool, config: Config)
    requires config.Validates()
    ensures Inv(NewNode(isClient, config))
  {
    InitLogs(isClient, config);
    InitStreams(isClient, config);
  }

  // ===== calls on one stream =====================================================

  predicate SameRx(h: Handle, h': Handle) {
    && h'.id == h.id && h'.chunk == h.chunk && h'.queue == h.queue
    && h'.txOpen == h.txOpen && h'.readClosed == h.readClosed
    && (h.place.Dropped? ==> h'.place.Dropped?)
  }

  lemma TrySendEmits(ch: FrameChan, f: Frame)
    ensures var (s, ch') := TrySend(ch, f);
      && Emitted(ch, ch') == (if s.Sent? then [f] else [])
      && ch' == ch.(queue := ch.queue + Emitted(ch, ch'))
      && (s.Sent? ==> ch.connected)
  {
    assert (ch.queue + [f])[|ch.queue|..] == [f];
    assert ch.queue + [] == ch.queue;
  }

  lemma NothingEmitted(ch: FrameChan)
    ensures Emitted(ch, ch) == [] && ch == ch.(queue := ch.queue + Emitted(ch, ch))
  {
    assert ch.queue + [] == ch.queue;
  }

  /** What a call may add to the channel: nothing, or one frame the grammar allows next. */
  predicate GoodCall(isClient: bool, config: Config, h: Handle, t: Track, ch: FrameChan,
                     h': Handle, ch': FrameChan, bytes: Bytes) {
    var e := Emitted(ch, ch');
    && SameRx(h, h')
    && !h'.place.Queued?
    && ch' == ch.(queue := ch.queue + e)
    && (e != [] ==> ch.connected)
    && (forall i :: 0 <= i < |e| ==> e[i].id == h.id && e[i].id != 0 && Produced(config, e[i]))
    && TxOk(isClient, config, ch.connected, h', t.(out := t.out + e, written := t.written + bytes))
  }

  lemma LogAppend(first: Phase, out: seq<Frame>, f: Frame)
    ensures DataOf(out + [f]) == DataOf(out) + if f.cmd.Psh? then f.data else []
    ensures PhaseOf(first, out + [f]) == Next(PhaseOf(first, out), f)
  {
    DataOfSnoc(out, f);
    PhaseSnoc(first, out, f);
    assert DataOf(out) + [] == DataOf(out);
  }

  /** Appending one frame, or nothing, to a handle's history. */
  lemma TxAppend(isClient: bool, config: Config, connected: bool, h: Handle, h': Handle, t: Track,
                 e: seq<Frame>, bytes: Bytes)
    requires TxOk(isClient, config, connected, h, t) && h'.id == h.id
    requires e == [] || (e == [e[0]] && e[0].id == h.id && Produced(config, e[0]))
    requires bytes == if e != [] && e[0].cmd.Psh? then e[0].data else []
    requires PlaceOk(h', if e == [] then PhaseNow(isClient, h, t) else Next(PhaseNow(isClient, h, t), e[0]), connected)
    ensures TxOk(isClient, config, connected, h', t.(out := t.out + e, written := t.written + bytes))
  {
    if e == [] {
      assert t.written + [] == t.written && t.out + e == t.out;
    } else {
      LogAppend(FirstPhase(Opener(isClient, h.id)), t.out, e[0]);
      var out := t.out + e;
      forall i | 0 <= i < |out|
        ensures out[i].id == h.id && Produced(config, out[i])
      {
        assert out[i] == if i < |t.out| then t.out[i] else e[0];
      }
    }
  }

  lemma OneFrameIsGood(isClient: bool, config: Config, h: Handle, t: Track, ch: FrameChan, f: Frame,
                       h': Handle, bytes: Bytes)
    requires TxOk(isClient, config, ch.connected, h, t) && SameRx(h, h') && !h'.place.Queued?
    requires f.id == h.id && Produced(config, f)
    requires bytes == if TrySend(ch, f).0.Sent? && f.cmd.Psh? then f.data else []
    requires PlaceOk(h', if TrySend(ch, f).0.Sent? then Next(PhaseNow(isClient, h, t), f) else PhaseNow(isClient, h, t),
                     ch.connected)
    ensures GoodCall(isClient, config, h, t, ch, h', TrySend(ch, f).1, bytes)
  {
    TrySendEmits(ch, f);
    TxAppend(isClient, config, ch.connected, h, h', t, Emitted(ch, TrySend(ch, f).1), bytes);
  }

  lemma NoFrameIsGood(isClient: bool, config: Config, h: Handle, t: Track, ch: FrameChan, h': Handle)
    requires TxOk(isClient, config, ch.connected, h, t) && SameRx(h, h') && !h'.place.Queued?
    requires PlaceOk(h', PhaseNow(isClient, h, t), ch.connected)
    ensures GoodCall(isClient, config, h, t, ch, h', ch, [])
  {
    NothingEmitted(ch);
    TxAppend(isClient, config, ch.connected, h, h', t, [], []);
  }

  lemma WriteIsGood(ep: Endpoint, h: Handle, t: Track, buf: Bytes, passed: bool)
    requires TxOk(ep.isClient, ep.config, ep.frames.connected, h, t) && h.place.User?
    ensures var (h', ch', bytes) := CallEffect(ep, h, Writing(buf, passed));
      GoodCall(ep.isClient, ep.config, h, t, ep.frames, h', ch', bytes)
  {
    var n := Min(|buf|, MaxPayload(ep.config.maxFrameSize));
    assert buf[..0] == [];
    NoFrameIsGood(ep.isClient, ep.config, h, t, ep.frames, h);
    if !Seen(ep, passed) && !h.writeClosed && buf != [] {
      var f := NewPsh(1, h.id, buf[..n]);
      var accepted := if TrySend(ep.frames, f).0.Sent? then f.data else [];
      OneFrameIsGood(ep.isClient, ep.config, h, t, ep.frames, f, h, accepted);
    }
  }

  lemma CallIsGood(ep: Endpoint, h: Handle, t: Track, call: Call)
    requires TxOk(ep.isClient, ep.config, ep.frames.connected, h, t) && h.place == CallPlace(call)
    ensures var (h', ch', bytes) := CallEffect(ep, h, call);
      GoodCall(ep.isClient, ep.config, h, t, ep.frames, h', ch', bytes)
  {
    var (h', ch', bytes) := CallEffect(ep, h, call);
    match call {
      case Writing(buf, passed) => WriteIsGood(ep, h, t, buf, passed);
      case OpenResuming =>
        OneFrameIsGood(ep.isClient, ep.config, h, t, ep.frames, NewSyn(ep.config.version, h.id), h', []);
      case ClosingStart => NoFrameIsGood(ep.isClient, ep.config, h, t, ep.frames, h');
      case _ =>
        if h.writeClosed && h.place.User? {
          NoFrameIsGood(ep.isClient, ep.config, h, t, ep.frames, h');
        } else {
          OneFrameIsGood(ep.isClient, ep.config, h, t, ep.frames, NewFin(1, h.id), h', []);
        }
    }
  }

  /** The send log grows by frames of one stream. */
  lemma {:induction false} FramesOfOthers(log: seq<Frame>, e: seq<Frame>, id: U32, mine: U32)
    requires forall i :: 0 <= i < |e| ==> e[i].id == mine
    ensures FramesOf(log + e, id) == FramesOf(log, id) + if id == mine then e else []
  {
    FramesOfAppend(log, e, id);
    AllMine(e, mine);
    FramesOfNone(e, id);
    assert e == [] ==> FramesOf(e, id) == [];
  }

  lemma {:induction false} AllMine(e: seq<Frame>, id: U32)
    requires forall i :: 0 <= i < |e| ==> e[i].id == id
    ensures FramesOf(e, id) == e
  {
    if e != [] {
      AllMine(e[..|e| - 1], id);
      assert e == e[..|e| - 1] + [e[|e| - 1]];
    }
  }

  lemma TouchRx(n: Node, k: nat, h: Handle, ch: FrameChan, bytes: Bytes)
    requires Mapped(n.ep) && Rx(n) && k < |n.tracks| && SameRx(n.ep.handles[k], h)
    ensures Mapped(Touch(n, k, h, ch, bytes).ep) && Rx(Touch(n, k, h, ch, bytes))
  {
    var n' := Touch(n, k, h, ch, bytes);
    forall j | 0 <= j < |n'.tracks|
      ensures RxOk(n'.ep.handles[j], n'.tracks[j], n'.recvd)
    {
      assert RxOk(n.ep.handles[j], n.tracks[j], n.recvd);
    }
  }

  lemma TouchTx(n: Node, k: nat, h: Handle, ch: FrameChan, bytes: Bytes)
    requires Tx(n) && k < |n.tracks|
    requires GoodCall(n.ep.isClient, n.ep.config, n.ep.handles[k], n.tracks[k], n.ep.frames, h, ch, bytes)
    ensures Tx(Touch(n, k, h, ch, bytes))
  {
    var n' := Touch(n, k, h, ch, bytes);
    forall j | 0 <= j < |n'.tracks|
      ensures TxOk(n'.ep.isClient, n'.ep.config, n'.ep.frames.connected, n'.ep.handles[j], n'.tracks[j])
    {
      assert TxOk(n.ep.isClient, n.ep.config, n.ep.frames.connected, n.ep.handles[j], n.tracks[j]);
    }
  }

  /** Handles that keep their IDs keep every ID known and every clash. */
  lemma SameIds(hs: seq<Handle>, hs': seq<Handle>)
    requires |hs'| == |hs| && forall k :: 0 <= k < |hs| ==> hs'[k].id == hs[k].id
    ensures UniqueIds(hs') <==> UniqueIds(hs)
    ensures forall id: U32 :: HasHandle(hs, id) ==> HasHandle(hs', id)
  {
    forall id: U32 | HasHandle(hs, id)
      ensures HasHandle(hs', id)
    {
      var k :| 0 <= k < |hs| && hs[k].id == id;
      assert hs'[k].id == id;
    }
  }

  lemma TouchSent(n: Node, k: nat, h: Handle, ch: FrameChan, bytes: Bytes)
    requires SentOk(n) && k < |n.tracks| && k < |n.ep.handles|
    requires GoodCall(n.ep.isClient, n.ep.config, n.ep.handles[k], n.tracks[k], n.ep.frames, h, ch, bytes)
    ensures SentOk(Touch(n, k, h, ch, bytes))
  {
    var n' := Touch(n, k, h, ch, bytes);
    var e := Emitted(n.ep.frames, ch);
    SameIds(n.ep.handles, n'.ep.handles);
    forall i | 0 <= i < |n'.sent|
      ensures Produced(n'.ep.config, n'.sent[i]) && (n'.sent[i].id == 0 || HasHandle(n'.ep.handles, n'.sent[i].id))
    {
      if i < |n.sent| {
        assert n'.sent[i] == n.sent[i];
      } else {
        assert n'.sent[i] == e[i - |n.sent|];
        assert n'.ep.handles[k].id == n'.sent[i].id;
      }
    }
    var q := n.ep.frames.queue;
    if e == [] {
      assert q + e == q && n.sent + e == n.sent;
    } else {
      assert n.sent + e == n.popped + (q + e) + [];
    }
  }

  lemma TouchFiltered(n: Node, k: nat, h: Handle, ch: FrameChan, bytes: Bytes)
    requires Filtered(n) && k < |n.tracks|
    requires GoodCall(n.ep.isClient, n.ep.config, n.ep.handles[k], n.tracks[k], n.ep.frames, h, ch, bytes)
    ensures Filtered(Touch(n, k, h, ch, bytes))
  {
    var n' := Touch(n, k, h, ch, bytes);
    var e := Emitted(n.ep.frames, ch);
    SameIds(n.ep.handles, n'.ep.handles);
    if UniqueIds(n'.ep.handles) {
      forall j | 0 <= j < |n'.tracks|
        ensures FramesOf(n'.sent, n'.ep.handles[j].id) == n'.tracks[j].out
      {
        FramesOfOthers(n.sent, e, n.ep.handles[j].id, n.ep.handles[k].id);
        assert n.tracks[j].out + [] == n.tracks[j].out;
      }
    }
  }

  lemma TouchPeers(n: Node, k: nat, h: Handle, ch: FrameChan, bytes: Bytes)
    requires Peers(n) && Ids(n) && k < |n.tracks|
    requires SameRx(n.ep.handles[k], h) && !n.ep.handles[k].place.Queued?
    ensures Peers(Touch(n, k, h, ch, bytes)) && Ids(Touch(n, k, h, ch, bytes))
  {
    var n' := Touch(n, k, h, ch, bytes);
    assert Arrived(n') == Arrived(n);
  }

  lemma TouchLedger(n: Node, k: nat, h: Handle, ch: FrameChan, bytes: Bytes)
    requires Ledger(n) && NeverWaits(n) && k < |n.tracks| && k < |n.ep.handles|
    ensures Ledger(Touch(n, k, h, ch, bytes)) && NeverWaits(Touch(n, k, h, ch, bytes))
    ensures Touch(n, k, h, ch, bytes).ep.config == n.ep.config
  {
  }

  lemma TouchKeeps(n: Node, k: nat, h: Handle, ch: FrameChan, bytes: Bytes)
    requires Inv(n) && k < |n.tracks| && !n.ep.handles[k].place.Queued?
    requires GoodCall(n.ep.isClient, n.ep.config, n.ep.handles[k], n.tracks[k], n.ep.frames, h, ch, bytes)
    ensures Inv(Touch(n, k, h, ch, bytes))
  {
    TouchRx(n, k, h, ch, bytes);
    TouchTx(n, k, h, ch, bytes);
    TouchSent(n, k, h, ch, bytes);
    TouchFiltered(n, k, h, ch, bytes);
    TouchPeers(n, k, h, ch, bytes);
    TouchLedger(n, k, h, ch, bytes);
  }

  lemma CallKeeps(n: Node, k: nat, call: Call)
    requires Inv(n) && At(n, k, CallPlace(call))
    ensures Inv(CallNode(n, k, call))
  {
    assert TxOk(n.ep.isClient, n.ep.config, n.ep.frames.connected, n.ep.handles[k], n.tracks[k]);
    CallIsGood(n.ep, n.ep.handles[k], n.tracks[k], call);
    var (h, ch, bytes) := CallEffect(n.ep, n.ep.handles[k], call);
    TouchKeeps(n, k, h, ch, bytes);
  }
}
