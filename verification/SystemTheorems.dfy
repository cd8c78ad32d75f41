/** The end-to-end results, for every reachable state of the two-session system. */
module SystemTheorems {
  import opened Wrappers
  import opened Frames
  import opened CodecSpec
  import opened StreamSpec
  import opened SessionSpec
  import opened Logs
  import opened NodeSpec
  import opened NodeInvariant
  import opened NodeTheorems
  import opened SystemSpec
  import opened SystemInvariant

  /** One direction of a system: who writes, the transport between, who reads. */
  datatype Direction = Direction(writer: Node, link: Link, reader: Node)

  function DirectionOf(s: System, toServer: bool): Direction {
    if toServer then Direction(s.client, s.up, s.server) else Direction(s.server, s.down, s.client)
  }

  /** The states some run reaches with neither counter overflown. */
  predicate ReachedBy(s: System, clientConfig: Config, serverConfig: Config, steps: seq<Step>) {
    && GoodConfig(clientConfig) && GoodConfig(serverConfig)
    && s == RunSystem(NewSystem(clientConfig, serverConfig), steps)
    && SysFits(s)
  }

  /** Everything the writer's `poll_write` accepted for a stream ID. */
  function Written(n: Node, id: U32): Bytes {
    WrittenUpTo(n, id, Min(|n.ep.handles|, |n.tracks|))
  }

  function WrittenUpTo(n: Node, id: U32, count: nat): Bytes
    requires count <= |n.ep.handles| && count <= |n.tracks|
  {
    if count == 0 then []
    else WrittenUpTo(n, id, count - 1) + if n.ep.handles[count - 1].id == id then n.tracks[count - 1].written else []
  }

  /** The stream's bytes that are somewhere between the writer and the reader's queue. */
  function InTransit(d: Direction, id: U32): Bytes {
    DataOf(FramesOf(d.link.flight, id)) + DataOf(FramesOf(d.writer.ep.frames.queue, id))
      + DataOf(FramesOf(d.writer.lost, id))
  }

  // ----- one direction in a state that satisfies the invariant -----------------------

  predicate Sound(d: Direction) {
    && d.writer.ep.isClient != d.reader.ep.isClient
    && Inv(d.writer) && Inv(d.reader)
    && Half(d.writer, d.link, d.reader)
    && UniqueIds(d.writer.ep.handles)
  }

  lemma {:induction false} WrittenIsSent(n: Node, id: U32, count: nat)
    requires count <= |n.ep.handles| && count <= |n.tracks| && UniqueIds(n.ep.handles)
    ensures forall k :: 0 <= k < count && n.ep.handles[k].id == id ==> WrittenUpTo(n, id, count) == n.tracks[k].written
    ensures (forall k :: 0 <= k < count ==> n.ep.handles[k].id != id) ==> WrittenUpTo(n, id, count) == []
  {
    if count > 0 {
      WrittenIsSent(n, id, count - 1);
      var w := WrittenUpTo(n, id, count - 1);
      assert w + [] == w;
      assert [] + n.tracks[count - 1].written == n.tracks[count - 1].written;
    }
  }

  /** What was written on a stream is what the send log carries for it. */
  lemma WrittenInLog(n: Node, id: U32)
    requires Tx(n) && Filtered(n) && SentOk(n) && UniqueIds(n.ep.handles) && id != 0
    ensures Written(n, id) == DataOf(FramesOf(n.sent, id))
  {
    WrittenIsSent(n, id, |n.tracks|);
    SentGrammar(n, id);
    if HasHandle(n.ep.handles, id) {
      var k :| 0 <= k < |n.ep.handles| && n.ep.handles[k].id == id;
      assert TxOk(n.ep.isClient, n.ep.config, n.ep.frames.connected, n.ep.handles[k], n.tracks[k]);
      assert FramesOf(n.sent, n.ep.handles[k].id) == n.tracks[k].out;
    }
  }

  /** A SYN handled for a stream was the first frame handled for it. */
  lemma SynComesFirst(d: Direction, start: nat, id: U32)
    requires Sound(d) && SynBefore(d.reader.recvd, start, id) && id != 0
    ensures var fs := FramesOf(d.reader.recvd[..start], id);
      DataOf(fs) == [] && !PhaseOf(FirstPhase(Opener(d.writer.ep.isClient, id)), fs).Finished?
  {
    var log, i := d.reader.recvd, start - 1;
    RecvdGrammar(d.writer, d.link, d.reader, id);
    SynIsFirst(d.writer.ep.isClient, log, i, id);
    assert log[..i + 1] == log[..start];
    OneSyn(FirstPhase(Opener(d.writer.ep.isClient, id)), log[i]);
  }

  lemma HandleFacts(d: Direction, k: nat)
    requires Sound(d) && k < |d.reader.tracks|
    ensures var h, t := d.reader.ep.handles[k], d.reader.tracks[k];
      && h.id != 0 && t.start <= |d.reader.recvd|
      && RxOk(h, t, d.reader.recvd)
      && (Opener(d.reader.ep.isClient, h.id) ==> FramesOf(d.reader.recvd[..t.start], h.id) == [])
      && (!Opener(d.reader.ep.isClient, h.id) ==> SynBefore(d.reader.recvd, t.start, h.id))
  {
    var h, t := d.reader.ep.handles[k], d.reader.tracks[k];
    assert TxOk(d.reader.ep.isClient, d.reader.ep.config, d.reader.ep.frames.connected, h, t);
    assert RxOk(h, t, d.reader.recvd);
  }

  /** What comes before a stream's creation carries no data for it and no FIN. */
  lemma NothingBefore(d: Direction, k: nat)
    requires Sound(d) && k < |d.reader.tracks|
    ensures var h, t := d.reader.ep.handles[k], d.reader.tracks[k];
      && h.id != 0 && t.start <= |d.reader.recvd|
      && DataOf(FramesOf(d.reader.recvd[..t.start], h.id)) == []
      && !PhaseOf(FirstPhase(Opener(d.writer.ep.isClient, h.id)), FramesOf(d.reader.recvd[..t.start], h.id)).Finished?
  {
    HandleFacts(d, k);
    var h, t := d.reader.ep.handles[k], d.reader.tracks[k];
    if !Opener(d.reader.ep.isClient, h.id) {
      SynComesFirst(d, t.start, h.id);
    }
  }

  lemma OneSyn(first: Phase, f: Frame)
    requires f.cmd.Syn?
    ensures DataOf([f]) == [] && !PhaseOf(first, [f]).Finished?
  {
    DataOfSnoc([], f);
    PhaseSnoc(first, [], f);
    assert [] + [f] == [f];
  }

  /** What the reader was delivered on a stream is all its log carries for it; a FIN there is the end. */
  lemma DeliveredAll(d: Direction, k: nat)
    requires Sound(d) && k < |d.reader.tracks|
    ensures var h, t := d.reader.ep.handles[k], d.reader.tracks[k];
      && Delivered(d.reader.recvd, t.start, h.id) == DataOf(FramesOf(d.reader.recvd, h.id))
      && (Ended(d.reader.recvd, t.start, h.id) <==>
          PhaseOf(FirstPhase(Opener(d.writer.ep.isClient, h.id)), FramesOf(d.reader.recvd, h.id)).Finished?)
  {
    var h, t := d.reader.ep.handles[k], d.reader.tracks[k];
    NothingBefore(d, k);
    RecvdGrammar(d.writer, d.link, d.reader, h.id);
    DeliveredIsAll(Opener(d.writer.ep.isClient, h.id), d.reader.recvd, t.start, h.id);
  }

  lemma LogSplit(d: Direction, id: U32)
    requires Sound(d) && id != 0
    ensures Written(d.writer, id) == DataOf(FramesOf(d.reader.recvd, id)) + InTransit(d, id)
  {
    WrittenInLog(d.writer, id);
    FramesOfAll(d.writer, d.link, d.reader, id);
    var a, b := FramesOf(d.reader.recvd, id), FramesOf(d.link.flight, id);
    var c, e := FramesOf(d.writer.ep.frames.queue, id), FramesOf(d.writer.lost, id);
    DataOfAppend(a, b + c + e);
    DataOfAppend(b + c, e);
    DataOfAppend(b, c);
  }

  /** Conservation, in any sound direction. */
  lemma Conserved(d: Direction, k: nat)
    requires Sound(d) && k < |d.reader.tracks| && !d.reader.ep.handles[k].place.Dropped?
    ensures var h, t := d.reader.ep.handles[k], d.reader.tracks[k];
      t.read + Flat(h) + InTransit(d, h.id) == Written(d.writer, h.id)
  {
    HandleFacts(d, k);
    DeliveredAll(d, k);
    LogSplit(d, d.reader.ep.handles[k].id);
  }

  lemma PrefixOf(read: Bytes, held: Bytes, way: Bytes, written: Bytes)
    requires read + held + way == written
    ensures read <= written
  {
    assert read + held + way == read + (held + way);
  }

  lemma TracksMatch(d: Direction)
    requires Sound(d)
    ensures |d.reader.tracks| == |d.reader.ep.handles|
  {
  }

  lemma ReachedSound(s: System, clientConfig: Config, serverConfig: Config, steps: seq<Step>, toServer: bool)
    requires ReachedBy(s, clientConfig, serverConfig, steps)
    ensures Sound(DirectionOf(s, toServer))
  {
    SystemRunInv(clientConfig, serverConfig, steps);
  }

  // ===== the results =====================================================================

  /** End-to-end conservation. In every reachable state, for every stream and direction whose reader
      handle is not dropped: the bytes read, the bytes held by the handle and the bytes still under way
      are, in this order, exactly the bytes `poll_write` accepted on the other side. What is on the wire and in
      the receive buffer is the encoding of the frames under way. What was read is always a beginning of what
      was written. */
  lemma Conservation(s: System, clientConfig: Config, serverConfig: Config, steps: seq<Step>, toServer: bool, k: nat)
    requires ReachedBy(s, clientConfig, serverConfig, steps)
    ensures var l := DirectionOf(s, toServer).link; l.buffer + l.wire == EncodeAll(l.flight)
    ensures var d := DirectionOf(s, toServer);
      k < |d.reader.ep.handles| && !d.reader.ep.handles[k].place.Dropped? ==>
        && |d.reader.tracks| == |d.reader.ep.handles|
        && var h, t := d.reader.ep.handles[k], d.reader.tracks[k];
           && t.read + Flat(h) + InTransit(d, h.id) == Written(d.writer, h.id)
           && t.read <= Written(d.writer, h.id)
  {
    ReachedSound(s, clientConfig, serverConfig, steps, toServer);
    var d := DirectionOf(s, toServer);
    TracksMatch(d);
    if k < |d.reader.ep.handles| && !d.reader.ep.handles[k].place.Dropped? {
      Conserved(d, k);
      var h, t := d.reader.ep.handles[k], d.reader.tracks[k];
      PrefixOf(t.read, Flat(h), InTransit(d, h.id), Written(d.writer, h.id));
    }
  }

  /** The side has closed its stream for writing, and the stream's FIN went out. */
  predicate FinSent(n: Node, id: U32) {
    exists j :: 0 <= j < |n.ep.handles| && j < |n.tracks|
      && n.ep.handles[j].id == id && n.ep.handles[j].writeClosed && FinOut(n.tracks[j])
  }

  /** A stream whose frames end with the FIN is one that was closed for writing. */
  lemma FinishedMeansSent(n: Node, id: U32)
    requires Tx(n) && Filtered(n) && SentOk(n) && UniqueIds(n.ep.handles) && id != 0
    requires PhaseOf(FirstPhase(Opener(n.ep.isClient, id)), FramesOf(n.sent, id)).Finished?
    ensures FinSent(n, id)
  {
    SentGrammar(n, id);
    var j :| 0 <= j < |n.ep.handles| && n.ep.handles[j].id == id;
    assert FramesOf(n.sent, n.ep.handles[j].id) == n.tracks[j].out;
    assert TxOk(n.ep.isClient, n.ep.config, n.ep.frames.connected, n.ep.handles[j], n.tracks[j]);
    FinishedMeansFin(FirstPhase(Opener(n.ep.isClient, id)), n.tracks[j].out);
  }

  lemma FinishedMeansFin(first: Phase, fs: seq<Frame>)
    requires PhaseOf(first, fs).Finished? && !first.Finished?
    ensures fs != [] && fs[|fs| - 1].cmd.Fin?
  {
  }

  /** The writer's FIN was handled: no byte of the stream is under way behind it. */
  lemma FinishedMeansAll(d: Direction, id: U32)
    requires Sound(d) && id != 0
    requires PhaseOf(FirstPhase(Opener(d.writer.ep.isClient, id)), FramesOf(d.reader.recvd, id)).Finished?
    ensures InTransit(d, id) == [] && FramesOf(d.writer.sent, id) == FramesOf(d.reader.recvd, id)
  {
    var first := FirstPhase(Opener(d.writer.ep.isClient, id));
    FramesOfAll(d.writer, d.link, d.reader, id);
    SentGrammar(d.writer, id);
    var b := FramesOf(d.link.flight, id);
    var c, e := FramesOf(d.writer.ep.frames.queue, id), FramesOf(d.writer.lost, id);
    PhasePrefix(first, FramesOf(d.reader.recvd, id), b + c + e);
    assert |b| + |c| + |e| == 0;
  }

  /** EOF is exact. On an open session, a read into a non-empty buffer reports EOF (zero bytes) if and
      only if the peer's FIN was handled and the bytes read are all the bytes ever written to the stream;
      and then the peer has closed its writing side and its FIN went out. So a stream whose peer was dropped
      while the frame channel was full never sees EOF. */
  lemma EofExact(s: System, clientConfig: Config, serverConfig: Config, steps: seq<Step>, toServer: bool, k: nat,
                 room: nat)
    requires ReachedBy(s, clientConfig, serverConfig, steps) && room > 0
    ensures var d := DirectionOf(s, toServer);
      k < |d.reader.ep.handles| && d.reader.ep.handles[k].place.User? && !d.reader.ep.closed ==>
        && |d.reader.tracks| == |d.reader.ep.handles|
        && var h, t := d.reader.ep.handles[k], d.reader.tracks[k];
           && (PollRead(h, d.reader.ep.closed, room).0 == Copied([]) <==>
                 Ended(d.reader.recvd, t.start, h.id) && t.read == Written(d.writer, h.id))
           && (PollRead(h, d.reader.ep.closed, room).0 == Copied([]) ==>
                 FinSent(d.writer, h.id))
  {
    ReachedSound(s, clientConfig, serverConfig, steps, toServer);
    var d := DirectionOf(s, toServer);
    TracksMatch(d);
    if k < |d.reader.ep.handles| && d.reader.ep.handles[k].place.User? && !d.reader.ep.closed {
      EofInDirection(d, k, room);
    }
  }

  lemma EofInDirection(d: Direction, k: nat, room: nat)
    requires Sound(d) && k < |d.reader.tracks| && d.reader.ep.handles[k].place.User? && room > 0
    ensures var h, t := d.reader.ep.handles[k], d.reader.tracks[k];
      && (PollRead(h, false, room).0 == Copied([]) <==>
            Ended(d.reader.recvd, t.start, h.id) && t.read == Written(d.writer, h.id))
      && (Ended(d.reader.recvd, t.start, h.id) ==>
            FinSent(d.writer, h.id))
  {
    HandleFacts(d, k);
    var h, t := d.reader.ep.handles[k], d.reader.tracks[k];
    ReadAmount(h, room);
    FlatEmpty(h);
    Conserved(d, k);
    DeliveredAll(d, k);
    if Ended(d.reader.recvd, t.start, h.id) {
      FinishedMeansAll(d, h.id);
      FinishedMeansSent(d.writer, h.id);
      assert |t.read| + |Flat(h)| == |Written(d.writer, h.id)|;
      assert Flat(h) == [] ==> t.read + Flat(h) + [] == t.read;
    }
  }

  /** SYN conservation and accept order. The IDs of the streams given out by `accept_stream`, of those in
      the accept queue and of one waiting for room there, followed by the SYNs under way, are exactly the
      SYNs the opener put into its frame channel, in order, and none occurs twice. */
  lemma AcceptOrder(s: System, clientConfig: Config, serverConfig: Config, steps: seq<Step>, toServer: bool)
    requires ReachedBy(s, clientConfig, serverConfig, steps)
    ensures var d := DirectionOf(s, toServer);
      && (forall i :: 0 <= i < |Arrived(d.reader)| ==> Arrived(d.reader)[i] < |d.reader.ep.handles|)
      && IdsOf(d.reader.ep.handles, Arrived(d.reader))
         + (Syns(d.link.flight) + Syns(d.writer.ep.frames.queue) + Syns(d.writer.lost)) == Syns(d.writer.sent)
      && (forall i, j :: 0 <= i < j < |Syns(d.writer.sent)| ==> Syns(d.writer.sent)[i] != Syns(d.writer.sent)[j])
  {
    ReachedSound(s, clientConfig, serverConfig, steps, toServer);
    SynsSplit(DirectionOf(s, toServer));
    AllSynsDistinct(DirectionOf(s, toServer).writer);
  }

  /** The answers of `accept_stream`, told from the log of received frames. On an open session the call waits
      exactly when every SYN handled so far has been accepted, but for one that waits for room in the accept
      queue; otherwise it hands out the stream of the first SYN not accepted yet. It never fails. */
  lemma AcceptFollowsLog(s: System, clientConfig: Config, serverConfig: Config, steps: seq<Step>, toServer: bool)
    requires ReachedBy(s, clientConfig, serverConfig, steps)
    ensures var r := DirectionOf(s, toServer).reader;
      var answer := AcceptStream(r.ep, false).0;
      var waiting := if r.ep.task.AwaitAccept? then 1 else 0;
      && !answer.AcceptClosed?
      && |r.accepted| + waiting <= |Syns(r.recvd)|
      && (answer.AcceptPending? <==> |r.accepted| + waiting == |Syns(r.recvd)|)
      && (answer.AcceptedStream? ==>
            answer.handle < |r.ep.handles| && r.ep.handles[answer.handle].id == Syns(r.recvd)[|r.accepted|])
  {
    ReachedSound(s, clientConfig, serverConfig, steps, toServer);
    var r := DirectionOf(s, toServer).reader;
    AcceptAnswers(r.ep, false);
    assert |IdsOf(r.ep.handles, Arrived(r))| == |Syns(r.recvd)|;
    if r.ep.acceptQueue != [] {
      assert Arrived(r)[|r.accepted|] == r.ep.acceptQueue[0];
      assert IdsOf(r.ep.handles, Arrived(r))[|r.accepted|] == Syns(r.recvd)[|r.accepted|];
    }
  }

  lemma SynsSplit(d: Direction)
    requires SentOk(d.writer) && PipeLog(d.writer, d.link, d.reader) && AllAccepted(d.reader)
    ensures IdsOf(d.reader.ep.handles, Arrived(d.reader))
      + (Syns(d.link.flight) + Syns(d.writer.ep.frames.queue) + Syns(d.writer.lost)) == Syns(d.writer.sent)
  {
    var a, b, c, e := d.reader.recvd, d.link.flight, d.writer.ep.frames.queue, d.writer.lost;
    SynsAppend(a, b);
    SynsAppend(a + b, c);
    SynsAppend(a + b + c, e);
  }

  lemma AllSynsDistinct(n: Node)
    requires SentOk(n) && Tx(n) && Filtered(n) && UniqueIds(n.ep.handles)
    ensures forall i, j :: 0 <= i < j < |Syns(n.sent)| ==> Syns(n.sent)[i] != Syns(n.sent)[j]
  {
    forall i, j | 0 <= i < j < |Syns(n.sent)|
      ensures Syns(n.sent)[i] != Syns(n.sent)[j]
    {
      SynsDistinct(n, n.sent, i, j);
    }
  }

  /** Where a SYN of a log sits. */
  lemma {:induction false} SynPosition(log: seq<Frame>, i: nat) returns (at: nat)
    requires i < |Syns(log)|
    ensures at < |log| && log[at].cmd.Syn? && log[at].id == Syns(log)[i] && Syns(log[..at]) == Syns(log)[..i]
  {
    var front, f := log[..|log| - 1], log[|log| - 1];
    if i < |Syns(front)| {
      at := SynPosition(front, i);
      assert log[..at] == front[..at];
      assert Syns(log)[..i] == Syns(front)[..i];
    } else {
      at := |log| - 1;
    }
  }

  lemma SynsDistinct(n: Node, log: seq<Frame>, i: nat, j: nat)
    requires SentOk(n) && Tx(n) && Filtered(n) && UniqueIds(n.ep.handles) && log == n.sent
    requires i < j < |Syns(log)|
    ensures Syns(log)[i] != Syns(log)[j]
  {
    var q := SynPosition(log, j);
    var p := SynPosition(log[..q], i);
    assert log[..q][p] == log[p];
    assert Produced(n.ep.config, n.sent[q]);
    SentGrammar(n, log[q].id);
    SynIsFirst(n.ep.isClient, log, q, log[q].id);
    FramesOfNone(log[..q], log[q].id);
  }

  /** `handle_syn_frame` never refuses a stream: the next SYN to be handled passes the parity check and
      names no stream the reader has. */
  lemma SynNeverRefused(s: System, clientConfig: Config, serverConfig: Config, steps: seq<Step>, toServer: bool)
    requires ReachedBy(s, clientConfig, serverConfig, steps)
    ensures var d := DirectionOf(s, toServer);
      d.link.flight != [] && d.link.flight[0].cmd.Syn? ==> HandleSyn(d.reader.ep, d.link.flight[0]).0 == Pass
  {
    ReachedSound(s, clientConfig, serverConfig, steps, toServer);
    var d := DirectionOf(s, toServer);
    if d.link.flight != [] && d.link.flight[0].cmd.Syn? {
      NextSynIsNew(d.writer, d.link, d.reader, d.link.flight[0]);
    }
  }

  /** Producer and codec agree. With a limit that admits a header, every frame waiting to be sent is
      encoded without error; with a reader's limit no smaller than the writer's, decoding what arrives
      never fails. So neither loop ends because of the codec. */
  lemma CodecNeverFails(s: System, clientConfig: Config, serverConfig: Config, steps: seq<Step>, toServer: bool)
    requires ReachedBy(s, clientConfig, serverConfig, steps)
    ensures var d := DirectionOf(s, toServer);
      var limit := d.writer.ep.config.maxFrameSize;
      && (limit >= HEADER_SIZE ==>
            forall i :: 0 <= i < |d.writer.ep.frames.queue| ==> Encode(limit, d.writer.ep.frames.queue[i]).Success?)
      && (limit <= d.reader.ep.config.maxFrameSize ==> !Decode(d.reader.ep.config.maxFrameSize, d.link.buffer).Broken?)
  {
    SystemRunInv(clientConfig, serverConfig, steps);
    var d := DirectionOf(s, toServer);
    var limit := d.writer.ep.config.maxFrameSize;
    if limit >= HEADER_SIZE {
      forall i | 0 <= i < |d.writer.ep.frames.queue|
        ensures Encode(limit, d.writer.ep.frames.queue[i]).Success?
      {
        WaitingIsProduced(d.writer, i);
        EncodableIs(limit, d.writer.ep.frames.queue[i]);
      }
    }
    if limit <= d.reader.ep.config.maxFrameSize {
      DecodeExpected(limit, d.reader.ep.config.maxFrameSize, d.link);
    }
  }

  /** And where the limits do not fit, the loops end. A writer whose limit does not admit a header stops at its
      first frame: nothing reaches the wire and the session closes. */
  lemma TinyLimitStopsSending(x: Node, outgoing: Link)
    requires x.ep.frames.queue != [] && x.ep.config.maxFrameSize < HEADER_SIZE
    ensures var (x', o) := SendAct(x, outgoing);
      o == outgoing && x'.ep.closed && !x'.ep.frames.connected && x'.popped == x.popped
  {
    EncodeAccepts(x.ep.config.maxFrameSize, x.ep.frames.queue[0]);
    LoopsEnd(x.ep);
  }

  /** A reader whose limit does not admit the next frame refuses it as soon as its header is there: its receive
      loop ends, the session closes, and the frame reaches no stream. */
  lemma OversizedFrameCloses(s: System, clientConfig: Config, serverConfig: Config, steps: seq<Step>, toServer: bool)
    requires ReachedBy(s, clientConfig, serverConfig, steps)
    requires var d := DirectionOf(s, toServer);
      && d.reader.ep.task.Idle? && d.link.flight != [] && |d.link.buffer| >= HEADER_SIZE
      && |WireForm(d.link.flight[0])| > d.reader.ep.config.maxFrameSize
    ensures var d := DirectionOf(s, toServer);
      var (x', i) := ReceiveAct(d.reader, d.link);
      && i == d.link && x'.ep.closed && x'.ep.task.Stopped?
      && x'.ep.handles == d.reader.ep.handles && x'.recvd == d.reader.recvd
  {
    SystemRunInv(clientConfig, serverConfig, steps);
    var d := DirectionOf(s, toServer);
    NextHeader(d);
    DecodeVerdicts(d.reader.ep.config.maxFrameSize, d.link.buffer);
    DecodeExpected(d.writer.ep.config.maxFrameSize, d.reader.ep.config.maxFrameSize, d.link);
    LoopsEnd(d.reader.ep);
  }

  /** The header at the front of the buffer is that of the oldest frame under way. */
  lemma NextHeader(d: Direction)
    requires PipeBytes(d.writer, d.link) && d.link.flight != [] && |d.link.buffer| >= HEADER_SIZE
    ensures DeclaredSize(d.link.buffer) == |WireForm(d.link.flight[0])|
  {
    var f, fs := d.link.flight[0], d.link.flight[1..];
    assert d.link.flight == [f] + fs;
    EncodeAllCons(f, fs, []);
    assert EncodeAll(d.link.flight) + [] == EncodeAll(d.link.flight);
    FrontSize(d.link.buffer, d.link.wire, f, EncodeAll(fs) + []);
  }

  lemma FrontSize(buffer: Bytes, wire: Bytes, f: Frame, rest: Bytes)
    requires buffer + wire == WireForm(f) + rest && |buffer| >= HEADER_SIZE && |EncodedPayload(f)| <= U16_MAX
    ensures DeclaredSize(buffer) == |WireForm(f)|
  {
    var header, p := EncodeHeader(f.version, f.cmd, f.id, |EncodedPayload(f)|), EncodedPayload(f);
    HeaderFields(f.version, f.cmd, f.id, |p|, p + rest);
    assert header + (p + rest) == WireForm(f) + rest;
    SameField(buffer, wire, header + (p + rest));
  }

  lemma SameField(buffer: Bytes, wire: Bytes, all: Bytes)
    requires buffer + wire == all && |buffer| >= HEADER_SIZE
    ensures buffer[2..4] == all[2..4]
  {
  }
}
