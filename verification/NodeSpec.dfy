/** An endpoint together with the history of what went through it, driven by operations in any order. */
module NodeSpec {
  import opened Frames
  import opened StreamSpec
  import opened SessionSpec

  /** The history of one handle: the length of the receive log when the stream was created, the bytes
      `poll_write` accepted, the bytes reads returned, the frames it put into the frame channel. */
  datatype Track = Track(start: nat, written: Bytes, read: Bytes, out: seq<Frame>)

  /** `sent` is everything ever put into the frame channel, `popped` what the send loop took out of it and
      `lost` what was in it when the send loop ended; `recvd` is every frame the receive loop handled;
      `accepted` the handles given out by `accept_stream`. The counters are bytes copied out by reads,
      bytes of PSH frames discarded, bytes taken in the token loop and not given back, and calls of
      `next_stream_id`. */
  datatype Node = Node(
    ep: Endpoint,
    tracks: seq<Track>,
    sent: seq<Frame>,
    popped: seq<Frame>,
    lost: seq<Frame>,
    recvd: seq<Frame>,
    accepted: seq<nat>,
    copied: nat,
    discarded: nat,
    taken: int,
    idCalls: nat)

  function NewNode(isClient: bool, config: Config): Node {
    Node(NewEndpoint(isClient, config), [], [], [], [], [], [], 0, 0, 0, 0)
  }

  /** A call on one stream that may change the handle and the frame channel; `OpenResume` and
      `CloseResume` are the second halves of `open_stream` and `close`. `passed` is explained at Seen. */
  datatype Call =
    | OpenResuming
    | Writing(buf: Bytes, passed: bool)
    | ShuttingDown
    | ClosingStart
    | ClosingResume
    | Dropping

  datatype Op =
    | OpOpen(passed: bool)
    | OpAccept(passed: bool)
    | OpRead(k: nat, room: nat, passed: bool)
    | OpCall(k: nat, call: Call)
    | OpDispatch(frame: Frame)
    | OpAcceptResume
    | OpTokenRetry
    | OpTokenAbort
    | OpTransmit
    | OpSendStop
    | OpRecvStop
    | OpCloseSession
    | OpPing
    | OpTimeoutTick

  /** What a call has read from the closed flag. A call that has `passed` looked at the flag, or began to
      wait for a stream, before the session closed, if it has closed by now. */
  predicate Seen(ep: Endpoint, passed: bool) {
    ep.closed && !passed
  }

  /** The frames a call added to the frame channel. */
  function Emitted(before: FrameChan, after: FrameChan): seq<Frame> {
    if |before.queue| < |after.queue| then after.queue[|before.queue|..] else []
  }

  predicate At(n: Node, k: nat, place: Place) {
    k < |n.ep.handles| && k < |n.tracks| && n.ep.handles[k].place == place
  }

  /** A call on handle k that changed the handle and the frame channel and accepted `bytes`. */
  function Touch(n: Node, k: nat, h: Handle, ch: FrameChan, bytes: Bytes): Node
    requires k < |n.ep.handles| && k < |n.tracks|
  {
    var emitted := Emitted(n.ep.frames, ch);
    var t := n.tracks[k];
    n.(ep := n.ep.(handles := n.ep.handles[k := h], frames := ch),
       tracks := n.tracks[k := t.(out := t.out + emitted, written := t.written + bytes)],
       sent := n.sent + emitted)
  }

  /** A read is only modelled into a buffer with room. */
  function ReadNode(n: Node, k: nat, room: nat, closed: bool): Node
    requires k < |n.ep.handles| && k < |n.tracks|
  {
    var (r, h) := PollRead(n.ep.handles[k], closed, room);
    var bytes := CopiedBytes(r);
    var t := n.tracks[k];
    n.(ep := n.ep.(handles := n.ep.handles[k := h], tokens := WrapI64(n.ep.tokens + |bytes|)),
       tracks := n.tracks[k := t.(read := t.read + bytes)],
       copied := n.copied + |bytes|)
  }

  /** Where a handle must be for the call. */
  function CallPlace(call: Call): Place {
    match call
    case OpenResuming => Opening
    case ClosingResume => Closing
    case _ => User
  }

  /** The handle and the frame channel after a call, and the bytes the call accepted. */
  function CallEffect(ep: Endpoint, h: Handle, call: Call): (Handle, FrameChan, Bytes) {
    match call
    case OpenResuming =>
      var (_, h', ch) := OpenResume(h, ep.config.version, ep.frames);
      (h', ch, [])
    case Writing(buf, passed) =>
      var (r, ch) := PollWrite(h, Seen(ep, passed), ep.frames, ep.config.maxFrameSize, buf);
      (h, ch, if r.Accepted? && r.n <= |buf| then buf[..r.n] else [])
    case ShuttingDown =>
      var (_, h', ch) := PollShutdown(h, ep.frames);
      (h', ch, [])
    case ClosingStart => (CloseStart(h), ep.frames, [])
    case ClosingResume =>
      var (_, h', ch) := CloseResume(h, ep.frames);
      (h', ch, [])
    case Dropping =>
      var (h', ch) := DropHandle(h, ep.frames);
      (h', ch, [])
  }

  function CallNode(n: Node, k: nat, call: Call): Node
    requires k < |n.ep.handles| && k < |n.tracks|
  {
    var (h, ch, bytes) := CallEffect(n.ep, n.ep.handles[k], call);
    Touch(n, k, h, ch, bytes)
  }

  function NewTrack(start: nat): Track {
    Track(start, [], [], [])
  }

  function OpenNode(n: Node, closed: bool): Node {
    var (r, ep) := OpenStart(n.ep, closed);
    n.(ep := ep,
       tracks := if r.Success? then n.tracks + [NewTrack(|n.recvd|)] else n.tracks,
       idCalls := if closed then n.idCalls else n.idCalls + 1)
  }

  function AcceptNode(n: Node, closed: bool): Node {
    var (r, ep) := AcceptStream(n.ep, closed);
    n.(ep := ep, accepted := if r.AcceptedStream? then n.accepted + [r.handle] else n.accepted)
  }

  /** The token history of a PSH frame with the given outcome. */
  function Account(n: Node, f: Frame, outcome: PshOutcome): Node {
    match outcome
    case PshIgnored => n
    case PshDelivered => n
    case PshDiscarded => n.(discarded := n.discarded + |f.data|)
    case PshWaits => n.(taken := n.taken + |f.data|)
  }

  function DispatchNode(n: Node, f: Frame): Node {
    var ep := HandleFrame(n.ep, f);
    var n1 := n.(ep := ep,
                 recvd := n.recvd + [f],
                 tracks := if |ep.handles| > |n.ep.handles| then n.tracks + [NewTrack(|n.recvd| + 1)] else n.tracks);
    if f.cmd.Psh? then Account(n1, f, HandlePsh(n.ep, f).0) else n1
  }

  function TokenRetryNode(n: Node): Node {
    if n.ep.task.AwaitTokens? then
      var (outcome, ep) := TokenTurn(n.ep, n.ep.task.frame);
      Account(n.(ep := ep), n.ep.task.frame, outcome)
    else n
  }

  function TokenAbortNode(n: Node): Node {
    if n.ep.task.AwaitTokens? && n.ep.closed then
      n.(ep := TokenAbort(n.ep), taken := n.taken - |n.ep.task.frame.data|)
    else n
  }

  function TransmitNode(n: Node): Node {
    if n.ep.frames.queue == [] then n else
      n.(ep := n.ep.(frames := n.ep.frames.(queue := n.ep.frames.queue[1..])),
         popped := n.popped + [n.ep.frames.queue[0]])
  }

  function PingNode(n: Node): Node {
    var ep := Ping(n.ep);
    n.(ep := ep, sent := n.sent + Emitted(n.ep.frames, ep.frames))
  }

  /** One operation; one that is not possible in the present state changes nothing. */
  function Apply(n: Node, op: Op): Node {
    match op
    case OpOpen(passed) => OpenNode(n, Seen(n.ep, passed))
    case OpAccept(passed) => AcceptNode(n, Seen(n.ep, passed))
    case OpRead(k, room, passed) =>
      if At(n, k, User) && room > 0 then ReadNode(n, k, room, Seen(n.ep, passed)) else n
    case OpCall(k, call) => if At(n, k, CallPlace(call)) then CallNode(n, k, call) else n
    case OpDispatch(f) => if n.ep.task.Idle? then DispatchNode(n, f) else n
    case OpAcceptResume => n.(ep := AcceptResume(n.ep))
    case OpTokenRetry => TokenRetryNode(n)
    case OpTokenAbort => TokenAbortNode(n)
    case OpTransmit => TransmitNode(n)
    case OpSendStop => n.(ep := SendStop(n.ep), lost := n.ep.frames.queue + n.lost)
    case OpRecvStop => if n.ep.task.Idle? then n.(ep := RecvStop(n.ep)) else n
    case OpCloseSession => n.(ep := n.ep.(closed := true))
    case OpPing => PingNode(n)
    case OpTimeoutTick => n.(ep := TimeoutTick(n.ep))
  }

  function Run(n: Node, ops: seq<Op>): Node {
    if ops == [] then n else Apply(Run(n, ops[..|ops| - 1]), ops[|ops| - 1])
  }

  // ----- how far a run may go --------------------------------------------------

  /** What the token counter should show. */
  function LedgerValue(n: Node): int {
    n.ep.config.maxReceiveBuffer + n.copied + n.discarded - n.taken
  }

  /** The bytes that went through have not overflowed the 64-bit counter. */
  predicate LedgerFits(n: Node) {
    n.ep.config.maxReceiveBuffer + n.copied + n.discarded < TWO_63
  }

  /** `next_stream_id` has not reported its first overflow yet. */
  predicate IdsFit(n: Node) {
    n.idCalls <= IdLimit(n.ep.isClient)
  }

  predicate Fits(n: Node) {
    LedgerFits(n) && IdsFit(n)
  }

  /** The counters only grow, and configuration and role never change. */
  predicate Extends(n: Node, n': Node) {
    && n'.ep.config == n.ep.config
    && n'.ep.isClient == n.ep.isClient
    && n'.copied >= n.copied
    && n'.discarded >= n.discarded
    && n'.idCalls >= n.idCalls
  }

  /** What a received frame does to the history. */
  lemma DispatchHistory(n: Node, f: Frame)
    ensures var n' := DispatchNode(n, f);
      && n'.ep == HandleFrame(n.ep, f) && n'.recvd == n.recvd + [f]
      && n' == n.(ep := n'.ep, recvd := n'.recvd, tracks := n'.tracks, discarded := n'.discarded, taken := n'.taken)
      && n'.discarded >= n.discarded
      && n'.tracks == (if |n'.ep.handles| > |n.ep.handles| then n.tracks + [NewTrack(|n.recvd| + 1)] else n.tracks)
  {
  }

  lemma DispatchExtends(n: Node, f: Frame)
    ensures Extends(n, DispatchNode(n, f))
  {
    DispatchHistory(n, f);
    HandleFrameKeeps(n.ep, f);
  }

  lemma CallExtends(n: Node, k: nat, call: Call)
    requires k < |n.ep.handles| && k < |n.tracks|
    ensures Extends(n, CallNode(n, k, call))
  {
  }

  lemma ApplyExtends(n: Node, op: Op)
    ensures Extends(n, Apply(n, op))
  {
    match op
    case OpOpen(_) =>
    case OpAccept(_) =>
    case OpRead(k, room, _) =>
    case OpCall(k, call) => if At(n, k, CallPlace(call)) { CallExtends(n, k, call); }
    case OpDispatch(f) => DispatchExtends(n, f);
    case _ =>
  }
}
