/** The session as the source keeps it: a map of channels, an accept queue and shared flags, updated in
    place by the tasks. Every method is tied to the endpoint function it implements. */
module Sessions {
  import opened Wrappers
  import opened Frames
  import opened LittleEndian
  import CodecSpec
  import C = Codec
  import opened StreamSpec
  import SessionSpec
  import opened Streams

  /** Where the receive loop stands. */
  datatype Waiting = NotWaiting | ForTokens(frame: Frame) | ForRoom(stream: Stream) | Ended

  /** Both maps have the same keys, and lead to the same channel. */
  ghost predicate PointsTo(streams: map<U32, DataChannel>, at: map<U32, nat>, channels: seq<DataChannel>) {
    && (forall id :: id in at <==> id in streams)
    && (forall id :: id in streams ==> at[id] < |channels| && streams[id] == channels[at[id]])
  }

  lemma PointsToWithout(streams: map<U32, DataChannel>, at: map<U32, nat>, channels: seq<DataChannel>, id: U32)
    requires PointsTo(streams, at, channels)
    ensures PointsTo(streams - {id}, at - {id}, channels)
  {
  }

  lemma PointsToWith(streams: map<U32, DataChannel>, at: map<U32, nat>, channels: seq<DataChannel>, id: U32, k: nat)
    requires PointsTo(streams, at, channels) && k < |channels|
    ensures PointsTo(streams[id := channels[k]], at[id := k], channels)
  {
  }

  class Session {
    const isClient: bool
    const config: Config
    const frameTx: FrameChannel
    const state: SessionState
    var nextStreamId: U32
    var streams: map<U32, DataChannel>
    var incoming: seq<Stream>
    var waiting: Waiting
    var pinging: bool

    /** Every stream ever created and its channel, and where the others' references point in that list. */
    ghost var registry: seq<Stream>
    ghost var channels: seq<DataChannel>
    ghost var entryAt: map<U32, nat>
    ghost var incomingAt: seq<nat>
    ghost var waitingAt: nat

    ghost predicate Wired()
      reads this`registry, this`channels
    {
      && |channels| == |registry|
      && (forall i :: 0 <= i < |registry| ==> registry[i].dataRx == channels[i])
    }

    /** The streams belong to this session and their channels are distinct. */
    ghost predicate Registered()
      reads this`registry, this`channels, registry, channels
    {
      && Wired()
      && (forall i :: 0 <= i < |registry| ==>
            && registry[i].Valid()
            && registry[i].frameTx == frameTx && registry[i].state == state && registry[i].config == config)
      && (forall i, j :: 0 <= i < j < |channels| ==> channels[i] != channels[j])
    }

    /** Nobody holds the stream yet: it is in the accept queue or waits for room there. */
    ghost predicate AwaitsAccept(k: nat)
      reads this`incomingAt, this`waiting, this`waitingAt
    {
      k in incomingAt || (waiting.ForRoom? && waitingAt == k)
    }

    /** The entries of the stream map point to their channels. */
    ghost predicate EntriesOk()
      reads this`streams, this`entryAt, this`channels
    {
      PointsTo(streams, entryAt, channels)
    }

    /** The accept queue points to streams that nobody has dropped. */
    ghost predicate IncomingOk()
      reads this`incoming, this`incomingAt, this`registry, registry
    {
      && |incomingAt| == |incoming|
      && (forall i :: 0 <= i < |incoming| ==>
            incomingAt[i] < |registry| && incoming[i] == registry[incomingAt[i]] && !incoming[i].place.Dropped?)
    }

    ghost predicate WaitingOk()
      reads this`waiting, this`waitingAt, this`registry, registry
    {
      waiting.ForRoom? ==>
        waitingAt < |registry| && waiting.stream == registry[waitingAt] && !waiting.stream.place.Dropped?
    }

    ghost predicate Valid()
      reads this, registry, channels
    {
      Registered() && EntriesOk() && IncomingOk() && WaitingOk()
    }

    ghost function Handles(): (hs: seq<Handle>)
      requires Wired()
      reads this`registry, this`channels, registry, channels
      ensures |hs| == |registry| && forall i :: 0 <= i < |hs| ==> hs[i] == registry[i].View()
    {
      ViewsOf(registry, channels)
    }

    static ghost function ViewsOf(ss: seq<Stream>, chs: seq<DataChannel>): (hs: seq<Handle>)
      requires |chs| == |ss| && forall i :: 0 <= i < |ss| ==> ss[i].dataRx == chs[i]
      reads ss, chs
      ensures |hs| == |ss| && forall i :: 0 <= i < |hs| ==> hs[i] == ss[i].View()
    {
      seq(|ss|, i requires 0 <= i < |ss| && i < |chs| && ss[i].dataRx == chs[i] reads ss, chs => ss[i].View())
    }

    ghost function Task(): SessionSpec.RecvTask
      reads this`waiting, this`waitingAt
    {
      match waiting
      case NotWaiting => SessionSpec.Idle
      case ForTokens(f) => SessionSpec.AwaitTokens(f)
      case ForRoom(_) => SessionSpec.AwaitAccept(waitingAt)
      case Ended => SessionSpec.Stopped
    }

    ghost function View(): SessionSpec.Endpoint
      requires Wired()
      reads this, registry, channels, frameTx, state
    {
      SessionSpec.Endpoint(isClient, config, nextStreamId, entryAt, Handles(), incomingAt,
                           frameTx.View(), state.closed, state.tokens, state.dataReceived, Task(), pinging)
    }

    constructor (isClient: bool, config: Config)
      ensures Valid() && View() == SessionSpec.NewEndpoint(isClient, config)
      ensures fresh(frameTx) && fresh(state) && registry == []
    {
      this.isClient := isClient;
      this.config := config;
      frameTx := new FrameChannel(config.frameChannelCapacity);
      state := new SessionState(config.maxReceiveBuffer);
      nextStreamId := if isClient then 1 else 2;
      streams := map[];
      incoming := [];
      waiting := NotWaiting;
      pinging := false;
      registry := [];
      channels := [];
      entryAt := map[];
      incomingAt := [];
      waitingAt := 0;
    }

    /** `next_stream_id`: the counter moves on even when the answer is an error. */
    method NextStreamId() returns (r: Result<U32, Error>)
      requires Valid()
      modifies this`nextStreamId
      ensures Valid() && r == SessionSpec.IdAnswer(old(nextStreamId))
      ensures View() == old(View()).(nextId := SessionSpec.Advance(old(nextStreamId)))
    {
      var current := nextStreamId;
      nextStreamId := (nextStreamId + 2) % 0x1_0000_0000;
      if current > U32_MAX - 2 {
        return Failure(ProtocolViolation(StreamIdOverflow));
      }
      r := Success(current);
    }

    method ValidatePeerStreamId(id: U32) returns (r: Outcome<Error>)
      ensures r == SessionSpec.ValidatePeerStreamId(isClient, id)
    {
      if id == 0 {
        return Fail(InvalidStreamId(id));
      }
      var expectedParity := if isClient then 0 else 1;
      r := if id % 2 != expectedParity then Fail(InvalidStreamId(id)) else Pass;
    }

    /** Drops the sending half of one stream's channel. */
    method DropSender(ch: DataChannel, ghost k: nat)
      requires Valid() && k < |channels| && channels[k] == ch
      modifies ch`txOpen
      ensures Valid() && Handles() == SessionSpec.CloseTx(old(Handles()), k)
    {
      ch.DropSender();
    }

    method ForgetEntry(id: U32)
      requires Valid()
      modifies this`streams, this`entryAt
      ensures Valid() && View() == old(View()).(streams := old(entryAt) - {id})
    {
      PointsToWithout(streams, entryAt, channels, id);
      streams, entryAt := streams - {id}, entryAt - {id};
      assert Registered() && Handles() == old(Handles());
    }

    /** Taking an entry out of the map drops its sending half. */
    method RemoveStream(id: U32)
      requires Valid()
      modifies this`streams, this`entryAt, if id in streams then {streams[id]} else {}
      ensures Valid() && View() == SessionSpec.RemoveEntry(old(View()), id)
    {
      if id in streams {
        DropSender(streams[id], entryAt[id]);
        ForgetEntry(id);
      }
    }

    method CreateStream(id: U32, ghost place: Place) returns (stream: Stream)
      requires Valid() && !place.Dropped?
      modifies this`registry, this`channels
      ensures Valid() && fresh(stream) && fresh(stream.dataRx)
      ensures registry == old(registry) + [stream] && channels == old(channels) + [stream.dataRx]
      ensures View() == old(View()).(handles := old(Handles()) + [NewHandle(id, place)])
    {
      var ch := new DataChannel();
      stream := new Stream(id, frameTx, ch, state, config, place);
      registry, channels := registry + [stream], channels + [ch];
      assert Handles() == old(Handles()) + [NewHandle(id, place)];
    }

    method EnterStream(stream: Stream, id: U32, ghost k: nat)
      requires Valid() && k < |registry| && registry[k] == stream
      modifies this`streams, this`entryAt
      ensures Valid() && View() == old(View()).(streams := old(entryAt)[id := k])
    {
      PointsToWith(streams, entryAt, channels, id, k);
      streams, entryAt := streams[id := stream.dataRx], entryAt[id := k];
      assert Registered() && Handles() == old(Handles());
    }

    method AddStream(id: U32, ghost place: Place) returns (stream: Stream)
      requires Valid() && !place.Dropped?
      modifies this`streams, this`entryAt, this`registry, this`channels
      ensures Valid() && registry == old(registry) + [stream]
      ensures View() == SessionSpec.AddHandle(old(View()), id, place)
    {
      ghost var k, before := |registry|, View();
      stream := CreateStream(id, place);
      assert View() == before.(handles := before.handles + [NewHandle(id, place)]);
      EnterStream(stream, id, k);
    }

    /** A new stream with its map entry, replacing an entry that is already there. */
    method InsertStream(id: U32, ghost place: Place) returns (stream: Stream)
      requires Valid() && !place.Dropped?
      modifies this`streams, this`entryAt, this`registry, this`channels, if id in streams then {streams[id]} else {}
      ensures Valid() && registry == old(registry) + [stream]
      ensures View() == SessionSpec.InsertHandle(old(View()), id, place)
    {
      RemoveStream(id);
      stream := AddStream(id, place);
    }

    /** `open_stream` up to its await. `passed`: the call looked at the closed flag before the session closed. */
    method OpenStream(passed: bool) returns (r: Result<Stream, Error>)
      requires Valid()
      modifies this`nextStreamId, this`streams, this`entryAt, this`registry, this`channels, streams.Values
      ensures Valid()
      ensures var (want, ep) := SessionSpec.OpenStart(old(View()), old(state.closed) && !passed);
        && View() == ep
        && (want.Failure? ==> r == Failure(want.error))
        && (want.Success? ==> r.Success? && want.value < |registry| && r.value == registry[want.value])
    {
      if state.closed && !passed {
        return Failure(SessionClosed);
      }
      var id := NextStreamId();
      if id.Failure? {
        return Failure(id.error);
      }
      var stream := InsertStream(id.value, Opening);
      r := Success(stream);
    }

    method TakeIncoming() returns (stream: Stream)
      requires Valid() && incoming != []
      modifies this`incoming, this`incomingAt
      ensures Valid() && stream == old(incoming)[0]
      ensures old(incomingAt) != [] && old(incomingAt)[0] < |registry| && registry[old(incomingAt)[0]] == stream
      ensures View() == old(View()).(acceptQueue := old(incomingAt)[1..])
    {
      stream := incoming[0];
      incoming, incomingAt := incoming[1..], incomingAt[1..];
    }

    ghost method HandOver(stream: Stream, k: nat)
      requires Valid() && k < |registry| && registry[k] == stream && !stream.place.Dropped?
      modifies stream`place
      ensures Valid() && View() == old(View()).(handles := old(Handles())[k := old(Handles()[k]).(place := User)])
    {
      stream.place := User;
    }

    /** `accept_stream`. `passed`: the call was let through, or has been waiting, since before the session
        closed; its wait may then end with a stream although the session is closed by now. */
    method AcceptStream(passed: bool) returns (r: Result<Option<Stream>, Error>)
      requires Valid()
      modifies this`incoming, this`incomingAt, (if incoming != [] then {incoming[0]} else {})`place
      ensures Valid()
      ensures var (want, ep) := SessionSpec.AcceptStream(old(View()), old(state.closed) && !passed);
        && View() == ep
        && match want
           case AcceptClosed => r == Failure(SessionClosed)
           case AcceptPending => r == Success(None)
           case AcceptedStream(k) => k < |registry| && r == Success(Some(registry[k]))
    {
      if state.closed && !passed {
        return Failure(SessionClosed);
      }
      if incoming == [] {
        return Success(None);
      }
      ghost var k := incomingAt[0];
      var stream := TakeIncoming();
      HandOver(stream, k);
      r := Success(Some(stream));
    }

    method SetWaiting(w: Waiting, ghost at: nat)
      requires Valid() && (w.ForRoom? ==> at < |registry| && w.stream == registry[at] && !w.stream.place.Dropped?)
      modifies this`waiting, this`waitingAt
      ensures Valid() && waiting == w && waitingAt == at && View() == old(View()).(task := Task())
    {
      waiting, waitingAt := w, at;
    }

    method NewPeerStream(id: U32)
      requires Valid() && id !in streams
      modifies this`streams, this`entryAt, this`registry, this`channels, this`waiting, this`waitingAt
      ensures Valid()
      ensures View() ==
        SessionSpec.InsertHandle(old(View()), id, Queued).(task := SessionSpec.AwaitAccept(|old(registry)|))
    {
      var stream := AddStream(id, Queued);
      SetWaiting(ForRoom(stream), |registry| - 1);
    }

    /** `handle_syn_frame` up to its await. */
    method HandleSyn(f: Frame) returns (r: Outcome<Error>)
      requires Valid()
      modifies this`streams, this`entryAt, this`registry, this`channels, this`waiting, this`waitingAt
      ensures Valid() && (r, View()) == SessionSpec.HandleSyn(old(View()), f)
    {
      r := ValidatePeerStreamId(f.id);
      if r.Pass? {
        if f.id in streams {
          r := Fail(StreamAlreadyExists(f.id));
        } else {
          NewPeerStream(f.id);
        }
      }
    }

    /** The accept queue takes the waiting stream once it has room. */
    method AcceptResume()
      requires Valid()
      modifies this`incoming, this`incomingAt, this`waiting
      ensures Valid() && View() == SessionSpec.AcceptResume(old(View()))
    {
      if waiting.ForRoom? && |incoming| < SessionSpec.ACCEPT_CAPACITY {
        incoming, incomingAt, waiting := incoming + [waiting.stream], incomingAt + [waitingAt], NotWaiting;
      }
    }

    /** `handle_fin_frame`. */
    method HandleFin(f: Frame)
      requires Valid()
      modifies this`streams, this`entryAt, if f.id in streams then {streams[f.id]} else {}
      ensures Valid() && View() == SessionSpec.HandleFin(old(View()), f)
    {
      RemoveStream(f.id);
    }

    method Push(ch: DataChannel, ghost k: nat, data: Bytes) returns (ok: bool)
      requires Valid() && k < |channels| && channels[k] == ch
      modifies ch`queue
      ensures Valid() && (ok <==> !Handles()[k].place.Dropped?)
      ensures View() == old(View()).(handles := if ok
        then old(Handles())[k := old(Handles()[k]).(queue := old(Handles()[k]).queue + [data])] else old(Handles()))
    {
      assert registry[k].Valid() && registry[k].dataRx == ch;
      ok := ch.Send(data);
      forall i | 0 <= i < |registry| && i != k
        ensures registry[i].View() == old(registry[i].View()) && registry[i].Valid()
      {
        assert registry[i].dataRx == channels[i] && old(registry[i].Valid());
      }
      assert Registered();
      assert Handles() == if ok
        then old(Handles())[k := old(Handles()[k]).(queue := old(Handles()[k]).queue + [data])] else old(Handles());
    }

    method Refund(count: nat)
      requires Valid()
      modifies state`tokens
      ensures Valid() && View() == old(View()).(tokens := SessionSpec.WrapI64(old(state.tokens) + count))
    {
      state.ReturnTokens(count);
    }

    method Discard(f: Frame)
      requires Valid()
      modifies this`streams, this`entryAt, state`tokens, if f.id in streams then {streams[f.id]} else {}
      ensures Valid()
      ensures View() ==
        SessionSpec.RemoveEntry(old(View()), f.id).(tokens := SessionSpec.WrapI64(old(state.tokens) + |f.data|))
    {
      Refund(|f.data|);
      RemoveStream(f.id);
    }

    method PushToEntry(f: Frame)
      requires Valid() && f.id in streams
      modifies this`streams, this`entryAt, state`tokens, streams[f.id]
      ensures Valid() && View() == SessionSpec.Deliver(old(View()), f).1.(task := old(Task()))
    {
      var ok := Push(streams[f.id], entryAt[f.id], f.data);
      if !ok {
        Discard(f);
      }
    }

    method PushOrDiscard(f: Frame)
      requires Valid()
      modifies this`streams, this`entryAt, state`tokens, if f.id in streams then {streams[f.id]} else {}
      ensures Valid() && View() == SessionSpec.Deliver(old(View()), f).1.(task := old(Task()))
    {
      if f.id in streams {
        PushToEntry(f);
      } else {
        Refund(|f.data|);
      }
    }

    /** The end of `handle_psh_frame`. */
    method Deliver(f: Frame)
      requires Valid()
      modifies this`streams, this`entryAt, this`waiting, this`waitingAt, state`tokens
      modifies if f.id in streams then {streams[f.id]} else {}
      ensures Valid() && View() == SessionSpec.Deliver(old(View()), f).1
    {
      PushOrDiscard(f);
      SetWaiting(NotWaiting, 0);
    }

    /** One turn of the token loop of `handle_psh_frame`. */
    method TokenTurn(f: Frame)
      requires Valid()
      modifies this`streams, this`entryAt, this`waiting, this`waitingAt, state`tokens
      modifies if f.id in streams then {streams[f.id]} else {}
      ensures Valid() && View() == SessionSpec.TokenTurn(old(View()), f).1
    {
      if state.tokens > 0 {
        Deliver(f);
      } else {
        var _ := state.TakeTokens(|f.data|);
        SetWaiting(ForTokens(f), 0);
      }
    }

    /** `handle_psh_frame` up to its first await, if it comes to one. */
    method HandlePsh(f: Frame)
      requires Valid()
      modifies this`streams, this`entryAt, this`waiting, this`waitingAt, state`tokens
      modifies if f.id in streams then {streams[f.id]} else {}
      ensures Valid() && View() == SessionSpec.HandlePsh(old(View()), f).1
    {
      if f.data != [] {
        TokenTurn(f);
      }
    }

    /** The session closes while a frame waits for tokens. */
    method TokenAbort()
      requires Valid()
      modifies this`waiting, this`waitingAt, state`tokens
      ensures Valid() && View() == SessionSpec.TokenAbort(old(View()))
    {
      if waiting.ForTokens? && state.closed {
        Refund(|waiting.frame.data|);
        SetWaiting(NotWaiting, 0);
      }
    }

    method MarkDataReceived()
      requires Valid()
      modifies state`dataReceived
      ensures Valid() && View() == old(View()).(dataReceived := true)
    {
      state.MarkDataReceived();
    }

    /** One decoded frame in the receive loop; errors are not acted on. */
    method HandleFrame(f: Frame)
      requires Valid()
      modifies this`streams, this`entryAt, this`registry, this`channels, this`waiting, this`waitingAt
      modifies state`tokens, state`dataReceived, if f.id in streams then {streams[f.id]} else {}
      ensures Valid() && View() == SessionSpec.HandleFrame(old(View()), f)
    {
      MarkDataReceived();
      match f.cmd
      case Syn => var _ := HandleSyn(f);
      case Fin => HandleFin(f);
      case Psh => HandlePsh(f);
      case Nop =>
      case Upd(_, _) =>
    }

    /** `close`, or a loop's last statement. */
    method Close()
      requires Valid()
      modifies state`closed
      ensures Valid() && View() == old(View()).(closed := true)
    {
      state.Close();
    }

    /** The receive loop ends, and the session closes. */
    method StopReceiving()
      requires Valid()
      modifies this`waiting, this`waitingAt, state`closed
      ensures Valid() && View() == SessionSpec.RecvStop(old(View()))
    {
      SetWaiting(Ended, 0);
      Close();
    }

    method HandleResult(r: Result<Option<Frame>, Error>)
      requires Valid()
      modifies this`streams, this`entryAt, this`registry, this`channels, this`waiting, this`waitingAt
      modifies state`tokens, state`dataReceived, state`closed, streams.Values
      ensures Valid()
      ensures match r
        case Success(Some(f)) => View() == SessionSpec.HandleFrame(old(View()), f)
        case Success(None) => View() == old(View())
        case Failure(_) => View() == SessionSpec.RecvStop(old(View()))
    {
      match r
      case Success(Some(f)) => HandleFrame(f);
      case Success(None) =>
      case Failure(_) => StopReceiving();
    }

    /** One turn of `recv_loop`: decode a frame from what has arrived and handle it, or end. */
    method RecvNext(codec: C.Codec, src: BytesMut)
      requires Valid() && codec.maxFrameSize == config.maxFrameSize && waiting.NotWaiting?
      modifies src, this`streams, this`entryAt, this`registry, this`channels, this`waiting, this`waitingAt
      modifies state`tokens, state`dataReceived, state`closed, streams.Values
      ensures Valid()
      ensures match CodecSpec.Decode(config.maxFrameSize, old(src.data))
        case NeedMore => View() == old(View()) && src.data == old(src.data)
        case Yield(f, rest) => View() == SessionSpec.HandleFrame(old(View()), f) && src.data == rest
        case Broken(_, rest) => View() == SessionSpec.RecvStop(old(View())) && src.data == rest
    {
      var r := codec.Decode(src);
      HandleResult(r);
    }

    /** The send loop ends: its half of the channel goes, and the session closes. */
    method StopSending()
      requires Valid()
      modifies frameTx, state`closed
      ensures Valid() && View() == SessionSpec.SendStop(old(View()))
    {
      frameTx.Disconnect();
      Close();
    }

    method NextFrame() returns (f: Frame)
      requires Valid() && frameTx.queue != []
      modifies frameTx
      ensures Valid() && f == old(frameTx.queue)[0]
      ensures View() == old(View()).(frames := old(frameTx.View()).(queue := old(frameTx.queue)[1..]))
    {
      var next := frameTx.Recv();
      f := next.value;
    }

    /** One turn of `send_loop`: encode the next frame onto the transport, or end. */
    method SendNext(codec: C.Codec, dst: BytesMut) returns (running: bool)
      requires Valid() && codec.maxFrameSize == config.maxFrameSize && frameTx.queue != []
      modifies dst, frameTx, state`closed
      ensures Valid()
      ensures match CodecSpec.Encode(config.maxFrameSize, old(frameTx.queue)[0])
        case Success(bytes) =>
          && running && dst.data == old(dst.data) + bytes
          && View() == old(View()).(frames := old(frameTx.View()).(queue := old(frameTx.queue)[1..]))
        case Failure(_) => !running && dst.data == old(dst.data) && View() == SessionSpec.SendStop(old(View()))
    {
      var f := NextFrame();
      var r := codec.Encode(f, dst);
      running := r.Pass?;
      if r.Fail? {
        StopSending();
      }
    }

    /** A ping tick of `keep_alive_loop`, or another try of a ping that waits for room. */
    method Ping()
      requires Valid()
      modifies this`pinging, frameTx
      ensures Valid() && View() == SessionSpec.Ping(old(View()))
    {
      if config.enableKeepAlive {
        var s := frameTx.TrySend(NewNop(config.version));
        pinging := s.Full?;
      }
    }

    /** A timeout tick of `keep_alive_loop`. */
    method TimeoutTick()
      requires Valid()
      modifies state`dataReceived, state`closed
      ensures Valid() && View() == SessionSpec.TimeoutTick(old(View()))
    {
      if config.enableKeepAlive && !state.closed && !pinging {
        var received := state.CheckAndResetDataReceived();
        if !received && state.tokens > 0 {
          state.Close();
        }
      }
    }
  }

  /** A call on a stream is seen by its session as a change of that one handle, of the frame channel and of
      the shared flags, and of nothing else. */
  twostate lemma StreamCallSeen(s: Session, k: nat)
    requires old(s.Valid()) && unchanged(s) && k < |s.registry|
    requires s.registry[k].Valid() && !(s.registry[k].place.Dropped? && s.AwaitsAccept(k))
    requires forall i :: 0 <= i < |s.registry| && i != k ==> unchanged(s.registry[i]) && unchanged(s.channels[i])
    ensures s.Valid()
    ensures s.View() == old(s.View()).(
      handles := old(s.Handles())[k := s.registry[k].View()], frames := s.frameTx.View(),
      closed := s.state.closed, tokens := s.state.tokens, dataReceived := s.state.dataReceived)
  {
    forall i | 0 <= i < |s.registry| && i != k
      ensures s.registry[i].View() == old(s.registry[i].View()) && s.registry[i].Valid()
    {
      assert s.registry[i].dataRx == s.channels[i];
      assert old(s.registry[i].Valid());
    }
    assert s.Handles() == old(s.Handles())[k := s.registry[k].View()];
  }
}
