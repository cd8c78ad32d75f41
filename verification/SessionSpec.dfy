/** One session endpoint as a value: the stream map, the accept queue, the frame channel, the token
    counter and the flags, with every handler of the source as a function on it. An async function is
    cut at its awaits; each piece runs without interruption. */
module SessionSpec {
  import opened Wrappers
  import opened Frames
  import opened StreamSpec

  const ACCEPT_CAPACITY := 16
  const TWO_63 := 0x8000_0000_0000_0000
  const TWO_64 := 0x1_0000_0000_0000_0000

  type I64 = x: int | -TWO_63 <= x < TWO_63

  /** The value an `AtomicI64` holds after arithmetic that may overflow. */
  function WrapI64(x: int): (w: I64)
    ensures -TWO_63 <= x < TWO_63 ==> w == x
  {
    (x + TWO_63) % TWO_64 - TWO_63
  }

  lemma WrapAdd(x: int, y: int)
    ensures WrapI64(WrapI64(x) + y) == WrapI64(x + y)
  {
  }

  /** What `recv_loop` is doing: ready for the next frame, in the token loop with a PSH frame, waiting
      for room in the accept queue with a new stream, or ended. */
  datatype RecvTask = Idle | AwaitTokens(frame: Frame) | AwaitAccept(handle: nat) | Stopped

  /** `streams` maps a stream ID to the position of its handle in `handles`, the list of all streams
      this endpoint ever created; `pinging` says that the keep-alive loop waits to send a NOP. */
  datatype Endpoint = Endpoint(
    isClient: bool,
    config: Config,
    nextId: U32,
    streams: map<U32, nat>,
    handles: seq<Handle>,
    acceptQueue: seq<nat>,
    frames: FrameChan,
    closed: bool,
    tokens: I64,
    dataReceived: bool,
    task: RecvTask,
    pinging: bool)

  function InitialId(isClient: bool): U32 {
    if isClient then 1 else 2
  }

  function NewEndpoint(isClient: bool, config: Config): Endpoint {
    Endpoint(isClient, config, InitialId(isClient), map[], [], [],
             FrameChan([], config.frameChannelCapacity, true),
             false, WrapI64(config.maxReceiveBuffer), true, Idle, false)
  }

  // ----- stream IDs ----------------------------------------------------------

  function Advance(current: U32): U32 {
    (current + 2) % 0x1_0000_0000
  }

  /** The answer of `next_stream_id` when the counter shows `current`. The counter has moved on even if
      the answer is an error. */
  function IdAnswer(current: U32): Result<U32, Error> {
    if current > U32_MAX - 2 then Failure(ProtocolViolation(StreamIdOverflow)) else Success(current)
  }

  function ValidatePeerStreamId(isClient: bool, id: U32): Outcome<Error> {
    if id == 0 then Fail(InvalidStreamId(id))
    else if id % 2 != (if isClient then 0 else 1) then Fail(InvalidStreamId(id))
    else Pass
  }

  function CounterAfter(isClient: bool, calls: nat): U32 {
    if calls == 0 then InitialId(isClient) else Advance(CounterAfter(isClient, calls - 1))
  }

  /** Call number n (from 0) of `next_stream_id`, on any interleaving of callers. */
  function NthId(isClient: bool, n: nat): Result<U32, Error> {
    IdAnswer(CounterAfter(isClient, n))
  }

  lemma AdvanceResidue(x: int)
    ensures Advance(x % 0x1_0000_0000) == (x + 2) % 0x1_0000_0000
  {
  }

  lemma {:induction false} CounterClosedForm(isClient: bool, calls: nat)
    ensures CounterAfter(isClient, calls) == (InitialId(isClient) + 2 * calls) % 0x1_0000_0000
  {
    if calls > 0 {
      CounterClosedForm(isClient, calls - 1);
      AdvanceResidue(InitialId(isClient) + 2 * (calls - 1));
    }
  }

  /** How many IDs an endpoint hands out before its first overflow error. */
  function IdLimit(isClient: bool): nat {
    if isClient then 0x7FFF_FFFF else 0x7FFF_FFFE
  }

  /** The first error is call number IdLimit; every call before it yields a fresh valid ID. */
  lemma IdsUntilOverflow(isClient: bool, n: nat)
    ensures n < IdLimit(isClient) ==>
      && NthId(isClient, n) == Success(InitialId(isClient) + 2 * n)
      && ValidatePeerStreamId(!isClient, InitialId(isClient) + 2 * n).Pass?
      && ValidatePeerStreamId(isClient, InitialId(isClient) + 2 * n).Fail?
    ensures n == IdLimit(isClient) ==> NthId(isClient, n) == Failure(ProtocolViolation(StreamIdOverflow))
  {
    CounterClosedForm(isClient, n);
  }

  /** a and b agree modulo 2^32 exactly if their difference is a multiple of it. */
  lemma SameResidue(a: int, b: int)
    ensures a % 0x1_0000_0000 == b % 0x1_0000_0000 <==> (a - b) % 0x1_0000_0000 == 0
  {
  }

  lemma HalfResidue(d: int)
    ensures (2 * d) % 0x1_0000_0000 == 0 <==> d % 0x8000_0000 == 0
  {
    var q, r := d / 0x8000_0000, d % 0x8000_0000;
    assert 2 * d == q * 0x1_0000_0000 + 2 * r && 0 <= 2 * r < 0x1_0000_0000;
  }

  /** Exactly when two calls hand out the same ID: the counter comes round every 2^31 calls, whatever
      errors were reported on the way. */
  lemma IdsRepeat(isClient: bool, i: nat, j: nat)
    requires NthId(isClient, i).Success? && NthId(isClient, j).Success?
    ensures NthId(isClient, i) == NthId(isClient, j) <==> (i - j) % 0x8000_0000 == 0
  {
    CounterClosedForm(isClient, i);
    CounterClosedForm(isClient, j);
    SameResidue(InitialId(isClient) + 2 * i, InitialId(isClient) + 2 * j);
    HalfResidue(i - j);
    assert 2 * (i - j) == 2 * i - 2 * j;
  }

  /** Exactly which calls fail, and exactly which calls hand out the ID that no peer accepts: the
      server's call after each failure. */
  lemma IdsAfterOverflow(isClient: bool, n: nat)
    ensures NthId(isClient, n).Failure? <==> n % 0x8000_0000 == IdLimit(isClient)
    ensures NthId(isClient, n).Failure? ==> NthId(isClient, n) == Failure(ProtocolViolation(StreamIdOverflow))
    ensures NthId(isClient, n) == Success(0) <==> !isClient && n % 0x8000_0000 == 0x7FFF_FFFF
  {
    CounterClosedForm(isClient, n);
    var q, r := n / 0x8000_0000, n % 0x8000_0000;
    assert InitialId(isClient) + 2 * n == q * 0x1_0000_0000 + (InitialId(isClient) + 2 * r);
    SameResidue(InitialId(isClient) + 2 * n, InitialId(isClient) + 2 * r);
  }

  // ----- opening and accepting -----------------------------------------------

  function CloseTx(handles: seq<Handle>, k: nat): seq<Handle> {
    if k < |handles| then handles[k := handles[k].(txOpen := false)] else handles
  }

  /** Taking an entry out of the stream map drops its sending half. */
  function RemoveEntry(ep: Endpoint, id: U32): Endpoint {
    if id in ep.streams then
      ep.(streams := ep.streams - {id}, handles := CloseTx(ep.handles, ep.streams[id]))
    else
      ep
  }

  function AddHandle(ep: Endpoint, id: U32, place: Place): Endpoint {
    ep.(handles := ep.handles + [NewHandle(id, place)], streams := ep.streams[id := |ep.handles|])
  }

  /** A new stream with its entry; an entry already there is overwritten and its sending half dropped. */
  function InsertHandle(ep: Endpoint, id: U32, place: Place): Endpoint {
    AddHandle(RemoveEntry(ep, id), id, place)
  }

  /** `open_stream` up to its await; `closed` is what the call read from the closed flag. */
  function OpenStart(ep: Endpoint, closed: bool): (Result<nat, Error>, Endpoint) {
    if closed then
      (Failure(SessionClosed), ep)
    else
      var counted := ep.(nextId := Advance(ep.nextId));
      match IdAnswer(ep.nextId)
      case Failure(e) => (Failure(e), counted)
      case Success(id) => (Success(|ep.handles|), InsertHandle(counted, id, Opening))
  }

  /** `open_stream` once its SYN gets an answer from the channel. On failure the stream is dropped but
      its map entry stays. */
  function OpenResume(h: Handle, version: Byte, ch: FrameChan): (Sending, Handle, FrameChan) {
    var (s, ch') := TrySend(ch, NewSyn(version, h.id));
    match s
    case Sent => (s, h.(place := User), ch')
    case Full => (s, h, ch')
    case Disconnected => var (d, ch'') := DropHandle(h, ch'); (s, d, ch'')
  }

  datatype AcceptResult = AcceptedStream(handle: nat) | AcceptPending | AcceptClosed

  function AcceptStream(ep: Endpoint, closed: bool): (AcceptResult, Endpoint) {
    if closed then (AcceptClosed, ep)
    else if ep.acceptQueue == [] then (AcceptPending, ep)
    else
      var k := ep.acceptQueue[0];
      (AcceptedStream(k),
       ep.(acceptQueue := ep.acceptQueue[1..],
           handles := if k < |ep.handles| then ep.handles[k := ep.handles[k].(place := User)] else ep.handles))
  }

  /** What each answer of `open_stream` before its await means. A refused call leaves everything as it is but
      the ID counter, which a call on an open session has moved on in any case. */
  lemma OpenAnswers(ep: Endpoint, closed: bool)
    ensures var (r, ep') := OpenStart(ep, closed);
      && (r == Failure(SessionClosed) <==> closed)
      && (r == Failure(ProtocolViolation(StreamIdOverflow)) <==> !closed && ep.nextId >= 0xFFFF_FFFE)
      && (r == Success(|ep.handles|) <==> !closed && ep.nextId < 0xFFFF_FFFE)
      && ep'.nextId == (if closed then ep.nextId else (ep.nextId + 2) % 0x1_0000_0000)
      && (r.Failure? ==> ep' == ep.(nextId := ep'.nextId))
  {
  }

  /** What each answer of `open_stream` after its await means: it waits exactly while a live frame channel is
      full; it succeeds with its SYN queued; it fails exactly if the send loop is gone, and the stream is then
      dropped. */
  lemma OpenResumeAnswers(h: Handle, version: Byte, ch: FrameChan)
    ensures var (s, h', ch') := OpenResume(h, version, ch);
      && (s.Full? <==> ch.connected && !HasRoom(ch))
      && (s.Disconnected? <==> !ch.connected)
      && (s.Sent? ==> h' == h.(place := User) && ch' == ch.(queue := ch.queue + [NewSyn(version, h.id)]))
      && (s.Full? ==> h' == h && ch' == ch)
      && (s.Disconnected? ==> h' == h.(place := Dropped, writeClosed := true) && ch' == ch)
  {
  }

  /** What each answer of `accept_stream` means: it fails exactly if the session was closed, waits exactly if it
      was not and no stream is queued, and otherwise takes the oldest stream off the queue. */
  lemma AcceptAnswers(ep: Endpoint, closed: bool)
    ensures var (r, ep') := AcceptStream(ep, closed);
      && (r.AcceptClosed? <==> closed)
      && (r.AcceptPending? <==> !closed && ep.acceptQueue == [])
      && (r.AcceptedStream? ==> [r.handle] + ep'.acceptQueue == ep.acceptQueue)
      && (!r.AcceptedStream? ==> ep' == ep)
  {
  }

  // ----- the receive loop ----------------------------------------------------

  /** `handle_syn_frame` up to its await. */
  function HandleSyn(ep: Endpoint, f: Frame): (Outcome<Error>, Endpoint) {
    match ValidatePeerStreamId(ep.isClient, f.id)
    case Fail(e) => (Fail(e), ep)
    case Pass =>
      if f.id in ep.streams then
        (Fail(StreamAlreadyExists(f.id)), ep)
      else
        (Pass, InsertHandle(ep, f.id, Queued).(task := AwaitAccept(|ep.handles|)))
  }

  /** The accept queue takes the new stream when it has room. */
  function AcceptResume(ep: Endpoint): Endpoint {
    if ep.task.AwaitAccept? && |ep.acceptQueue| < ACCEPT_CAPACITY then
      ep.(acceptQueue := ep.acceptQueue + [ep.task.handle], task := Idle)
    else
      ep
  }

  function HandleFin(ep: Endpoint, f: Frame): Endpoint {
    RemoveEntry(ep, f.id)
  }

  datatype PshOutcome = PshIgnored | PshDelivered | PshDiscarded | PshWaits

  /** The end of `handle_psh_frame`: into the stream's channel, or the tokens go back. */
  function Deliver(ep: Endpoint, f: Frame): (PshOutcome, Endpoint) {
    if f.id in ep.streams && ep.streams[f.id] < |ep.handles| && !ep.handles[ep.streams[f.id]].place.Dropped? then
      var k := ep.streams[f.id];
      var h := ep.handles[k];
      (PshDelivered, ep.(handles := ep.handles[k := h.(queue := h.queue + [f.data])], task := Idle))
    else
      (PshDiscarded, RemoveEntry(ep, f.id).(tokens := WrapI64(ep.tokens + |f.data|), task := Idle))
  }

  /** One turn of the token loop: proceed if the counter is positive; otherwise take the frame's length
      from it and wait. */
  function TokenTurn(ep: Endpoint, f: Frame): (PshOutcome, Endpoint) {
    if ep.tokens > 0 then Deliver(ep, f)
    else (PshWaits, ep.(tokens := WrapI64(ep.tokens - |f.data|), task := AwaitTokens(f)))
  }

  function HandlePsh(ep: Endpoint, f: Frame): (PshOutcome, Endpoint) {
    if f.data == [] then (PshIgnored, ep) else TokenTurn(ep, f)
  }

  /** The session closes while a frame waits for tokens: the frame is dropped. */
  function TokenAbort(ep: Endpoint): Endpoint {
    if ep.task.AwaitTokens? && ep.closed then
      ep.(tokens := WrapI64(ep.tokens + |ep.task.frame.data|), task := Idle)
    else
      ep
  }

  /** What `recv_loop` does with a decoded frame. Errors are logged, not acted on. */
  function HandleFrame(ep: Endpoint, f: Frame): Endpoint {
    var ep1 := ep.(dataReceived := true);
    match f.cmd
    case Syn => HandleSyn(ep1, f).1
    case Fin => HandleFin(ep1, f)
    case Psh => HandlePsh(ep1, f).1
    case Nop => ep1
    case Upd(_, _) => ep1
  }

  /** What handling a frame leaves alone; a new stream is still on its way to the accept queue. */
  lemma HandleFrameKeeps(ep: Endpoint, f: Frame)
    ensures var ep' := HandleFrame(ep, f);
      && ep'.config == ep.config && ep'.isClient == ep.isClient && ep'.nextId == ep.nextId
      && ep'.acceptQueue == ep.acceptQueue && ep'.frames == ep.frames
      && ep'.closed == ep.closed && ep'.dataReceived && ep'.pinging == ep.pinging
      && (ep.task.Idle? ==> !ep'.task.Stopped?)
      && |ep.handles| <= |ep'.handles| <= |ep.handles| + 1
  {
    match f.cmd
    case Syn => SynKeeps(ep.(dataReceived := true), f);
    case Psh => PshKeeps(ep.(dataReceived := true), f);
    case _ =>
  }

  lemma SynKeeps(ep: Endpoint, f: Frame)
    ensures var ep' := HandleSyn(ep, f).1;
      && ep' == ep.(streams := ep'.streams, handles := ep'.handles, task := ep'.task)
      && |ep.handles| <= |ep'.handles| <= |ep.handles| + 1
  {
  }

  lemma PshKeeps(ep: Endpoint, f: Frame)
    ensures var ep' := HandlePsh(ep, f).1;
      && ep' == ep.(streams := ep'.streams, handles := ep'.handles, tokens := ep'.tokens, task := ep'.task)
      && |ep'.handles| == |ep.handles|
  {
    DeliverKeeps(ep, f);
  }

  lemma DeliverKeeps(ep: Endpoint, f: Frame)
    ensures var ep' := Deliver(ep, f).1;
      && ep' == ep.(streams := ep'.streams, handles := ep'.handles, tokens := ep'.tokens, task := ep'.task)
      && |ep'.handles| == |ep.handles|
  {
  }

  /** What each answer of `handle_syn_frame` means. A refused SYN changes nothing. */
  lemma SynAnswers(ep: Endpoint, f: Frame)
    ensures var (r, ep') := HandleSyn(ep, f);
      var acceptable := f.id != 0 && (f.id % 2 == 0 <==> ep.isClient);
      && (r == Fail(InvalidStreamId(f.id)) <==> !acceptable)
      && (r == Fail(StreamAlreadyExists(f.id)) <==> acceptable && f.id in ep.streams)
      && (r == Pass <==> acceptable && f.id !in ep.streams)
      && (r.Fail? ==> ep' == ep)
      && (r.Pass? ==> ep'.task == AwaitAccept(|ep.handles|))
  {
  }

  /** A stream waiting for the accept queue enters it exactly while fewer than 16 streams are there; then the
      receive loop is ready again. */
  lemma AcceptRoom(ep: Endpoint)
    requires ep.task.AwaitAccept?
    ensures var ep' := AcceptResume(ep);
      && (|ep.acceptQueue| < 16 ==>
            && ep'.acceptQueue == ep.acceptQueue + [ep.task.handle]
            && ep' == ep.(acceptQueue := ep'.acceptQueue, task := Idle))
      && (|ep.acceptQueue| >= 16 ==> ep' == ep)
  {
  }

  /** The token guard. A frame waits exactly if the counter is not positive, and is then kept for another turn
      with its length taken. One given up when the session closes reaches nobody and gets its tokens back. */
  lemma TokenAnswers(ep: Endpoint, f: Frame)
    ensures var (r, ep') := TokenTurn(ep, f);
      && (r.PshWaits? <==> ep.tokens <= 0)
      && (r.PshWaits? ==> ep' == ep.(tokens := WrapI64(ep.tokens - |f.data|), task := AwaitTokens(f)))
      && (!r.PshWaits? ==> ep'.task.Idle?)
    ensures ep.task == AwaitTokens(f) && ep.closed ==>
      TokenAbort(ep) == ep.(tokens := WrapI64(ep.tokens + |f.data|), task := Idle)
    ensures !(ep.task.AwaitTokens? && ep.closed) ==> TokenAbort(ep) == ep
  {
  }

  function RecvStop(ep: Endpoint): Endpoint {
    ep.(task := Stopped, closed := true)
  }

  // ----- the send loop and the keep-alive loop ---------------------------------

  function SendStop(ep: Endpoint): Endpoint {
    ep.(frames := FrameChan([], ep.frames.capacity, false), closed := true)
  }

  /** A tick of the ping interval, or the frame channel's answer to a ping that waits for room. */
  function Ping(ep: Endpoint): Endpoint {
    if ep.config.enableKeepAlive then
      var (s, ch) := TrySend(ep.frames, NewNop(ep.config.version));
      ep.(frames := ch, pinging := s.Full?)
    else ep
  }

  /** A tick of the timeout interval. It is not taken while a ping waits for room in the same loop; after
      the session has closed the loop is over. */
  function TimeoutTick(ep: Endpoint): Endpoint {
    if !ep.config.enableKeepAlive || ep.closed || ep.pinging then ep
    else ep.(dataReceived := false, closed := !ep.dataReceived && ep.tokens > 0)
  }

  /** A loop that ends closes the session, and its end cannot be missed: the receive loop is over, or the frame
      channel is empty and lost. */
  lemma LoopsEnd(ep: Endpoint)
    ensures var r := RecvStop(ep); r.closed && r.task.Stopped? && r == ep.(closed := true, task := Stopped)
    ensures var r := SendStop(ep); r.closed && r == ep.(closed := true, frames := r.frames)
    ensures SendStop(ep).frames.queue == [] && !SendStop(ep).frames.connected
  {
  }

  /** When a timeout tick closes the session: only with keep-alive on, with no ping waiting, without data since the
      last tick, and with tokens left. A peer that may be waiting for tokens is spared. */
  lemma TickCondition(ep: Endpoint)
    requires !ep.closed
    ensures var ep' := TimeoutTick(ep);
      && (ep'.closed <==> ep.config.enableKeepAlive && !ep.pinging && !ep.dataReceived && ep.tokens > 0)
      && (ep.config.enableKeepAlive && !ep.pinging ==> !ep'.dataReceived)
      && (!ep.config.enableKeepAlive || ep.pinging ==> ep' == ep)
      && ep' == ep.(closed := ep'.closed, dataReceived := ep'.dataReceived)
  {
  }
}
