/** Results about one endpoint, for every sequence of operations and every peer, conforming or not. */
module NodeTheorems {
  import opened Wrappers
  import opened Frames
  import opened StreamSpec
  import opened SessionSpec
  import opened Logs
  import opened NodeSpec
  import opened NodeInvariant
  import opened NodeSteps

  // ----- demultiplexing ---------------------------------------------------------

  /** The receive loop demultiplexes. Whatever frames arrive, duplicates, wrong parities, unknown IDs, PSH
      after FIN and empty PSH included, and however local calls interleave: for every stream not dropped,
      the bytes read and then the bytes held are exactly the payloads carrying its ID from its creation to
      the next FIN; its channel is open until that FIN; and the map leads from its ID to it exactly while
      its channel is open. A stream of the peer was created by the SYN just before its first frame. */
  lemma Demultiplexed(n: Node, isClient: bool, config: Config, ops: seq<Op>, k: nat)
    requires config.Validates() && n == Run(NewNode(isClient, config), ops) && Fits(n)
    ensures |n.tracks| == |n.ep.handles|
    ensures k < |n.tracks| ==>
      var h, t := n.ep.handles[k], n.tracks[k];
      && t.start <= |n.recvd|
      && (h.txOpen <==> h.id in n.ep.streams && n.ep.streams[h.id] == k)
      && (Ended(n.recvd, t.start, h.id) ==> !h.txOpen)
      && (!h.place.Dropped? ==>
            && t.read + Flat(h) == Delivered(n.recvd, t.start, h.id)
            && (h.txOpen <==> !Ended(n.recvd, t.start, h.id)))
      && (!Opener(isClient, h.id) ==> SynBefore(n.recvd, t.start, h.id))
  {
    RunInv(isClient, config, ops);
    RunRole(isClient, config, ops);
    if k < |n.tracks| {
      assert RxOk(n.ep.handles[k], n.tracks[k], n.recvd);
    }
  }

  /** No stream's own read-closed flag is ever set, so EOF comes only from its channel. */
  lemma ReadFlagNeverSet(isClient: bool, config: Config, ops: seq<Op>, k: nat)
    requires config.Validates() && Fits(Run(NewNode(isClient, config), ops))
    requires k < |Run(NewNode(isClient, config), ops).ep.handles|
    ensures !Run(NewNode(isClient, config), ops).ep.handles[k].readClosed
  {
    var n := Run(NewNode(isClient, config), ops);
    RunInv(isClient, config, ops);
    assert RxOk(n.ep.handles[k], n.tracks[k], n.recvd);
  }

  lemma {:induction false} RunRole(isClient: bool, config: Config, ops: seq<Op>)
    ensures var n := Run(NewNode(isClient, config), ops); n.ep.isClient == isClient && n.ep.config == config
  {
    if ops != [] {
      RunRole(isClient, config, ops[..|ops| - 1]);
      ApplyExtends(Run(NewNode(isClient, config), ops[..|ops| - 1]), ops[|ops| - 1]);
    }
  }

  /** A SYN creates a stream exactly if its ID is one the peer may use and no stream with that ID still
      has an open channel; the new stream is the only change to the list of streams. */
  lemma SynCreatesStream(n: Node, f: Frame)
    requires Inv(n) && n.ep.task.Idle? && f.cmd.Syn?
    ensures var hs, hs' := n.ep.handles, DispatchNode(n, f).ep.handles;
      hs' == (if && ValidatePeerStreamId(n.ep.isClient, f.id).Pass?
                 && (forall k :: 0 <= k < |hs| && hs[k].id == f.id ==> !hs[k].txOpen)
              then hs + [NewHandle(f.id, Queued)] else hs)
  {
    if f.id in n.ep.streams {
      assert n.ep.handles[n.ep.streams[f.id]].txOpen;
    }
  }

  /** A stream with another ID and another ID's map entry stay as they are. */
  predicate Apart(ep: Endpoint, ep': Endpoint, k: nat, id: U32) {
    && |ep.handles| <= |ep'.handles|
    && (k < |ep.handles| ==> ep'.handles[k] == ep.handles[k])
    && (id in ep'.streams <==> id in ep.streams)
    && (id in ep.streams ==> ep'.streams[id] == ep.streams[id])
  }

  lemma RemoveApart(ep: Endpoint, gone: U32, k: nat, id: U32)
    requires Mapped(ep) && k < |ep.handles| && ep.handles[k].id != gone && id != gone
    ensures Apart(ep, RemoveEntry(ep, gone), k, id)
  {
  }

  lemma DeliverApart(ep: Endpoint, f: Frame, k: nat, id: U32)
    requires Mapped(ep) && k < |ep.handles| && ep.handles[k].id != f.id && id != f.id
    ensures Apart(ep, Deliver(ep, f).1, k, id)
  {
    RemoveApart(ep, f.id, k, id);
  }

  /** A frame never touches a stream with another ID, nor another ID's map entry. */
  lemma OtherStreamsUntouched(ep: Endpoint, f: Frame, k: nat, id: U32)
    requires Mapped(ep) && k < |ep.handles| && ep.handles[k].id != f.id && id != f.id
    ensures Apart(ep, HandleFrame(ep, f), k, id)
  {
    var ep1 := ep.(dataReceived := true);
    match f.cmd
    case Syn => RemoveApart(ep1, f.id, k, id);
    case Fin => RemoveApart(ep1, f.id, k, id);
    case Psh => DeliverApart(ep1, f, k, id);
    case _ =>
  }

  /** A payload for a dropped stream goes to nobody: its tokens are given back and the map entry goes. */
  lemma DroppedStreamForgotten(n: Node, f: Frame, k: nat)
    requires Mapped(n.ep) && n.ep.task.Idle? && n.ep.tokens > 0
    requires f.cmd.Psh? && f.data != [] && k < |n.ep.handles| && n.ep.handles[k].id == f.id
    requires n.ep.handles[k].txOpen && n.ep.handles[k].place.Dropped?
    ensures var n' := DispatchNode(n, f);
      && f.id !in n'.ep.streams && n'.discarded == n.discarded + |f.data|
      && n'.ep.handles[k] == n.ep.handles[k].(txOpen := false)
  {
  }

  /** Neither queue grows beyond its capacity. */
  predicate Bounded(n: Node) {
    && |n.ep.acceptQueue| <= 16
    && |n.ep.frames.queue| <= n.ep.frames.capacity == n.ep.config.frameChannelCapacity
  }

  lemma CallBounded(n: Node, k: nat, call: Call)
    requires Bounded(n) && k < |n.ep.handles| && k < |n.tracks|
    ensures Bounded(CallNode(n, k, call))
  {
  }

  lemma DispatchBounded(n: Node, f: Frame)
    requires Bounded(n)
    ensures Bounded(DispatchNode(n, f))
  {
    DispatchHistory(n, f);
    HandleFrameKeeps(n.ep, f);
  }

  lemma AppCallBounded(n: Node, op: Op)
    requires Bounded(n) && IsCall(op)
    ensures Bounded(Apply(n, op))
  {
    match op
    case OpCall(k, call) => if At(n, k, CallPlace(call)) { CallBounded(n, k, call); }
    case _ =>
  }

  lemma LoopBounded(n: Node, op: Op)
    requires Bounded(n) && !IsCall(op)
    ensures Bounded(Apply(n, op))
  {
    match op
    case OpDispatch(f) => DispatchBounded(n, f);
    case _ =>
  }

  lemma {:induction false} QueuesBounded(isClient: bool, config: Config, ops: seq<Op>)
    ensures Bounded(Run(NewNode(isClient, config), ops))
  {
    if ops != [] {
      QueuesBounded(isClient, config, ops[..|ops| - 1]);
      var n, op := Run(NewNode(isClient, config), ops[..|ops| - 1]), ops[|ops| - 1];
      if IsCall(op) { AppCallBounded(n, op); } else { LoopBounded(n, op); }
    }
  }

  // ----- the frame grammar ----------------------------------------------------------

  /** The stream's FIN went into the frame channel. */
  predicate FinOut(t: Track) {
    t.out != [] && t.out[|t.out| - 1].cmd.Fin?
  }

  /** The frames a stream puts into the frame channel are SYN PSH* FIN? for the opener and PSH* FIN? for the
      acceptor, whatever mix of `close`, `poll_shutdown` and drop happens; their payloads are the bytes
      written; while no ID is reused they are the session's frames with that ID. A FIN is out only if the
      stream is closed for writing, and is out if it is closed, still in the application's hands and the
      send loop lives; for a dropped stream see DropSendsFin. */
  lemma FrameGrammar(n: Node, isClient: bool, config: Config, ops: seq<Op>, k: nat)
    requires config.Validates() && n == Run(NewNode(isClient, config), ops) && Fits(n) && k < |n.ep.handles|
    ensures |n.tracks| == |n.ep.handles|
    ensures var h, t := n.ep.handles[k], n.tracks[k];
      && InGrammar(Opener(isClient, h.id), t.out)
      && DataOf(t.out) == t.written
      && (FinOut(t) ==> h.writeClosed)
      && (h.writeClosed && h.place.User? && n.ep.frames.connected ==> FinOut(t))
      && (UniqueIds(n.ep.handles) ==> FramesOf(n.sent, h.id) == t.out)
  {
    RunInv(isClient, config, ops);
    RunRole(isClient, config, ops);
    var h, t := n.ep.handles[k], n.tracks[k];
    assert TxOk(n.ep.isClient, n.ep.config, n.ep.frames.connected, h, t);
    PhaseIsGrammar(Opener(isClient, h.id), t.out);
  }

  // ----- stream IDs -------------------------------------------------------------------

  /** Up to the first overflow error every opened stream has an ID of its own, of the right parity, which
      no earlier or later stream of either side shares. */
  lemma OpenedIdsDistinct(n: Node, isClient: bool, config: Config, ops: seq<Op>, k: nat)
    requires config.Validates() && n == Run(NewNode(isClient, config), ops) && Fits(n) && k < |n.ep.handles|
    ensures var id := n.ep.handles[k].id;
      && id != 0
      && (Opener(isClient, id) ==>
            && ValidatePeerStreamId(!isClient, id).Pass?
            && (forall j :: 0 <= j < |n.ep.handles| && j != k ==> n.ep.handles[j].id != id))
  {
    RunInv(isClient, config, ops);
    RunRole(isClient, config, ops);
    assert TxOk(n.ep.isClient, n.ep.config, n.ep.frames.connected, n.ep.handles[k], n.tracks[k]);
  }

  /** Until all IDs are used up, opening on an open session succeeds and never overwrites a map entry. */
  lemma OpenNeverOverwrites(n: Node, isClient: bool, config: Config, ops: seq<Op>)
    requires config.Validates() && n == Run(NewNode(isClient, config), ops) && Fits(n)
    requires n.idCalls < IdLimit(isClient)
    ensures var (r, ep) := OpenStart(n.ep, false);
      && r == Success(|n.ep.handles|) && n.ep.nextId !in n.ep.streams
      && ep.streams == n.ep.streams[n.ep.nextId := |n.ep.handles|]
      && ep.handles == n.ep.handles + [NewHandle(n.ep.nextId, Opening)]
  {
    RunInv(isClient, config, ops);
    RunRole(isClient, config, ops);
    FreshId(n);
  }

  // ----- tokens ---------------------------------------------------------------------------

  lemma RetryLedger(n: Node)
    requires Ledger(n)
    ensures Ledger(TokenRetryNode(n)) && Ledger(TokenAbortNode(n))
  {
    if n.ep.task.AwaitTokens? {
      TurnLedger(n, n.ep.task.frame);
      WrapAdd(LedgerValue(n), |n.ep.task.frame.data|);
    }
  }

  lemma CallLedger(n: Node, k: nat, call: Call)
    requires Ledger(n) && k < |n.ep.handles| && k < |n.tracks|
    ensures var n' := CallNode(n, k, call); Ledger(n') && n'.ep.task == n.ep.task && n'.taken == n.taken
  {
  }

  lemma ReadLedgerAlways(n: Node, k: nat, room: nat, closed: bool)
    requires Ledger(n) && k < |n.ep.handles| && k < |n.tracks|
    ensures Ledger(ReadNode(n, k, room, closed))
  {
    WrapAdd(LedgerValue(n), |CopiedBytes(PollRead(n.ep.handles[k], closed, room).0)|);
  }

  lemma ApplyLedger(n: Node, op: Op)
    requires Ledger(n)
    ensures Ledger(Apply(n, op))
  {
    match op
    case OpRead(k, room, passed) => if At(n, k, User) { ReadLedgerAlways(n, k, room, Seen(n.ep, passed)); }
    case OpCall(k, call) => if At(n, k, CallPlace(call)) { CallLedger(n, k, call); }
    case OpDispatch(f) => DispatchLedgerAlways(n, f);
    case OpTokenRetry => RetryLedger(n);
    case OpTokenAbort => RetryLedger(n);
    case _ =>
  }

  /** The token ledger, for every run whatsoever, overflows included: the counter shows the initial buffer
      size, plus the bytes reads copied out, plus the bytes of PSH frames discarded, minus the bytes taken in
      the token loop, as a 64-bit number. */
  lemma {:induction false} TokenLedger(isClient: bool, config: Config, ops: seq<Op>)
    ensures Ledger(Run(NewNode(isClient, config), ops))
  {
    if ops != [] {
      TokenLedger(isClient, config, ops[..|ops| - 1]);
      ApplyLedger(Run(NewNode(isClient, config), ops[..|ops| - 1]), ops[|ops| - 1]);
    }
  }

  lemma DispatchNeverWaits(n: Node, f: Frame)
    requires NeverWaits(n) && n.ep.tokens > 0 && n.ep.task.Idle?
    ensures NeverWaits(DispatchNode(n, f))
  {
  }

  lemma ApplyNeverWaits(n: Node, op: Op)
    requires Ledger(n) && NeverWaits(n) && LedgerFits(n) && n.ep.config.Validates()
    ensures NeverWaits(Apply(n, op))
  {
    PositiveTokens(n);
    match op
    case OpCall(k, call) => if At(n, k, CallPlace(call)) { CallLedger(n, k, call); }
    case OpDispatch(f) => if n.ep.task.Idle? { DispatchNeverWaits(n, f); }
    case _ =>
  }

  /** With a valid configuration and no more than 2^63 bytes gone through, the token loop is never entered. */
  lemma {:induction false} NeverEntersTokenLoop(isClient: bool, config: Config, ops: seq<Op>)
    requires config.Validates() && LedgerFits(Run(NewNode(isClient, config), ops))
    ensures NeverWaits(Run(NewNode(isClient, config), ops))
  {
    if ops != [] {
      var before := Run(NewNode(isClient, config), ops[..|ops| - 1]);
      ApplyExtends(before, ops[|ops| - 1]);
      NeverEntersTokenLoop(isClient, config, ops[..|ops| - 1]);
      TokenLedger(isClient, config, ops[..|ops| - 1]);
      RunRole(isClient, config, ops[..|ops| - 1]);
      ApplyNeverWaits(before, ops[|ops| - 1]);
    }
  }

  /** Between any two points of a run the counter does not fall, and it never falls below the buffer size. */
  lemma {:induction false} TokensNeverFall(isClient: bool, config: Config, ops: seq<Op>, i: nat)
    requires i <= |ops| && config.Validates() && LedgerFits(Run(NewNode(isClient, config), ops))
    ensures LedgerFits(Run(NewNode(isClient, config), ops[..i]))
    ensures var early, late := Run(NewNode(isClient, config), ops[..i]), Run(NewNode(isClient, config), ops);
      config.maxReceiveBuffer <= early.ep.tokens <= late.ep.tokens
    decreases |ops|
  {
    var start := NewNode(isClient, config);
    TokenLedger(isClient, config, ops);
    NeverEntersTokenLoop(isClient, config, ops);
    RunRole(isClient, config, ops);
    PositiveTokens(Run(start, ops));
    if i == |ops| {
      assert ops[..i] == ops;
    } else {
      var front := ops[..|ops| - 1];
      ApplyExtends(Run(start, front), ops[|ops| - 1]);
      assert front[..i] == ops[..i];
      TokensNeverFall(isClient, config, front, i);
      TokenLedger(isClient, config, front);
      NeverEntersTokenLoop(isClient, config, front);
      RunRole(isClient, config, front);
      PositiveTokens(Run(start, front));
    }
  }
}
