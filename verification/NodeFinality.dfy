/** What cannot be undone: closing a session, closing a stream for writing, dropping it, its FIN. */
module NodeFinality {
  import opened Frames
  import opened StreamSpec
  import opened SessionSpec
  import opened Logs
  import opened NodeSpec
  import opened NodeInvariant
  import opened NodeSteps
  import opened NodeTheorems

  /** A call that looked at the closed flag, or began to wait, before the session closed. */
  predicate Passed(op: Op) {
    match op
    case OpOpen(passed) => passed
    case OpAccept(passed) => passed
    case OpRead(_, _, passed) => passed
    case OpCall(_, call) => call.Writing? && call.passed
    case _ => false
  }

  /** One stream at two moments of a run; `settled` says that the session was closed at the first and that
      no call that found it open was still under way. */
  predicate StreamSince(settled: bool, h: Handle, t: Track, h': Handle, t': Track) {
    && h'.id == h.id && t'.start == t.start
    && t.written <= t'.written && t.read <= t'.read && t.out <= t'.out
    && (settled ==> t'.written == t.written && t'.read == t.read)
    && (!h.txOpen ==> !h'.txOpen)
    && (h.writeClosed ==> h'.writeClosed && t'.written == t.written)
    && (h.place.Dropped? ==> h'.place.Dropped? && t' == t && h'.chunk == h.chunk && h'.queue == h.queue)
  }

  /** An endpoint at two moments of a run. */
  predicate Since(settled: bool, n: Node, n': Node) {
    && |n.tracks| == |n.ep.handles| <= |n'.ep.handles| == |n'.tracks|
    && (n.ep.closed ==> n'.ep.closed)
    && (settled ==> n'.idCalls == n.idCalls && n'.accepted == n.accepted)
    && (!n.ep.frames.connected ==> !n'.ep.frames.connected && n'.sent == n.sent)
    && (n.ep.task.Stopped? ==> n'.ep.task.Stopped? && n'.recvd == n.recvd)
    && n.recvd <= n'.recvd && n.sent <= n'.sent && n.popped <= n'.popped && n.accepted <= n'.accepted
    && (forall k :: 0 <= k < |n.tracks| ==>
          StreamSince(settled, n.ep.handles[k], n.tracks[k], n'.ep.handles[k], n'.tracks[k]))
  }

  lemma SinceTransitive(settled: bool, a: Node, b: Node, c: Node)
    requires Since(settled, a, b) && Since(settled, b, c)
    ensures Since(settled, a, c)
  {
    forall k | 0 <= k < |a.tracks|
      ensures StreamSince(settled, a.ep.handles[k], a.tracks[k], c.ep.handles[k], c.tracks[k])
    {
      assert StreamSince(settled, a.ep.handles[k], a.tracks[k], b.ep.handles[k], b.tracks[k]);
      assert StreamSince(settled, b.ep.handles[k], b.tracks[k], c.ep.handles[k], c.tracks[k]);
    }
  }

  lemma ReadSince(settled: bool, n: Node, k: nat, room: nat, closed: bool)
    requires |n.tracks| == |n.ep.handles| && At(n, k, User) && (settled ==> closed)
    ensures Since(settled, n, ReadNode(n, k, room, closed))
  {
    var (r, h) := PollRead(n.ep.handles[k], closed, room);
    assert closed ==> n.tracks[k].read + CopiedBytes(r) == n.tracks[k].read;
  }

  /** What no call on a stream does to the handle, and what it adds to the frame channel. */
  lemma CallEffectSince(settled: bool, ep: Endpoint, h: Handle, call: Call)
    requires h.place == CallPlace(call) && (settled ==> ep.closed && !(call.Writing? && call.passed))
    ensures var (h', ch, bytes) := CallEffect(ep, h, call);
      && h' == h.(place := h'.place, writeClosed := h'.writeClosed)
      && (h.writeClosed ==> h'.writeClosed)
      && (settled || h.writeClosed ==> bytes == [])
      && ch == ep.frames.(queue := ep.frames.queue + Emitted(ep.frames, ch))
      && (!ep.frames.connected ==> Emitted(ep.frames, ch) == [])
  {
    assert ep.frames.queue + [] == ep.frames.queue;
  }

  lemma CallSince(settled: bool, n: Node, k: nat, call: Call)
    requires |n.tracks| == |n.ep.handles| && At(n, k, CallPlace(call))
    requires settled ==> n.ep.closed && !Passed(OpCall(k, call))
    ensures Since(settled, n, CallNode(n, k, call))
  {
    var h, t := n.ep.handles[k], n.tracks[k];
    CallEffectSince(settled, n.ep, h, call);
    var (h', ch, bytes) := CallEffect(n.ep, h, call);
    TouchSince(settled, n, k, h', ch, bytes);
  }

  lemma TouchSince(settled: bool, n: Node, k: nat, h: Handle, ch: FrameChan, bytes: Bytes)
    requires |n.tracks| == |n.ep.handles| && k < |n.tracks| && !n.ep.handles[k].place.Dropped?
    requires h == n.ep.handles[k].(place := h.place, writeClosed := h.writeClosed)
    requires n.ep.handles[k].writeClosed ==> h.writeClosed
    requires settled || n.ep.handles[k].writeClosed ==> bytes == []
    requires ch.connected == n.ep.frames.connected && (!ch.connected ==> Emitted(n.ep.frames, ch) == [])
    ensures Since(settled, n, Touch(n, k, h, ch, bytes))
  {
    assert n.tracks[k].written + [] == n.tracks[k].written;
    assert n.sent + [] == n.sent;
  }

  /** A change of the handles by the receive loop. */
  predicate OnlyFed(hs: seq<Handle>, hs': seq<Handle>) {
    && |hs| <= |hs'|
    && (forall k :: 0 <= k < |hs| ==>
          && hs'[k] == hs[k].(queue := hs'[k].queue, txOpen := hs'[k].txOpen)
          && (!hs[k].txOpen ==> !hs'[k].txOpen)
          && (hs[k].place.Dropped? ==> hs'[k].queue == hs[k].queue))
  }

  lemma RemoveFeeds(ep: Endpoint, id: U32)
    ensures OnlyFed(ep.handles, RemoveEntry(ep, id).handles)
  {
  }

  lemma SynFeeds(ep: Endpoint, f: Frame)
    ensures OnlyFed(ep.handles, HandleSyn(ep, f).1.handles)
  {
    RemoveFeeds(ep, f.id);
  }

  lemma DeliverFeeds(ep: Endpoint, f: Frame)
    ensures OnlyFed(ep.handles, Deliver(ep, f).1.handles)
  {
    RemoveFeeds(ep, f.id);
  }

  lemma HandleFrameFeeds(ep: Endpoint, f: Frame)
    ensures OnlyFed(ep.handles, HandleFrame(ep, f).handles)
  {
    var ep1 := ep.(dataReceived := true);
    match f.cmd
    case Syn => SynFeeds(ep1, f);
    case Fin => RemoveFeeds(ep1, f.id);
    case Psh => DeliverFeeds(ep1, f);
    case _ =>
  }

  lemma DispatchTracks(n: Node, f: Frame)
    requires |n.tracks| == |n.ep.handles|
    ensures |DispatchNode(n, f).tracks| == |DispatchNode(n, f).ep.handles| && n.tracks <= DispatchNode(n, f).tracks
  {
    HandleFrameKeeps(n.ep, f);
    DispatchHistory(n, f);
  }

  lemma DispatchSince(settled: bool, n: Node, f: Frame)
    requires |n.tracks| == |n.ep.handles| && n.ep.task.Idle?
    ensures Since(settled, n, DispatchNode(n, f))
  {
    HandleFrameFeeds(n.ep, f);
    HandleFrameKeeps(n.ep, f);
    DispatchTracks(n, f);
    DispatchHistory(n, f);
  }

  lemma AcceptSince(settled: bool, n: Node, closed: bool)
    requires Peers(n) && (settled ==> closed)
    ensures Since(settled, n, AcceptNode(n, closed))
  {
    if !closed && n.ep.acceptQueue != [] {
      var i := |n.accepted|;
      assert Arrived(n)[i] == n.ep.acceptQueue[0];
      assert n.ep.handles[Arrived(n)[i]].place == Queued;
    }
  }

  lemma OpenFeeds(ep: Endpoint, closed: bool)
    ensures var ep' := OpenStart(ep, closed).1;
      OnlyFed(ep.handles, ep'.handles) && ep'.closed == ep.closed && ep'.frames == ep.frames && ep'.task == ep.task
    ensures var (r, ep') := OpenStart(ep, closed);
      |ep'.handles| == |ep.handles| + (if r.Success? then 1 else 0) && (closed ==> r.Failure?)
  {
    RemoveFeeds(ep.(nextId := Advance(ep.nextId)), ep.nextId);
  }

  lemma OpenSince(settled: bool, n: Node, closed: bool)
    requires |n.tracks| == |n.ep.handles| && (settled ==> closed)
    ensures Since(settled, n, OpenNode(n, closed))
  {
    OpenFeeds(n.ep, closed);
  }

  /** An operation that touches no stream. */
  lemma ElsewhereSince(settled: bool, n: Node, n': Node)
    requires |n.tracks| == |n.ep.handles| && n'.ep.handles == n.ep.handles && n'.tracks == n.tracks
    requires n.ep.closed ==> n'.ep.closed
    requires n'.idCalls == n.idCalls && n'.accepted == n.accepted && n'.recvd == n.recvd
    requires n.sent <= n'.sent && n.popped <= n'.popped
    requires !n.ep.frames.connected ==> !n'.ep.frames.connected && n'.sent == n.sent
    requires n.ep.task.Stopped? ==> n'.ep.task.Stopped?
    ensures Since(settled, n, n')
  {
  }

  lemma PingEmits(n: Node)
    ensures !n.ep.frames.connected ==> !PingNode(n).ep.frames.connected && PingNode(n).sent == n.sent
  {
    assert n.sent + [] == n.sent;
  }

  lemma BackgroundSince(settled: bool, n: Node, op: Op)
    requires |n.tracks| == |n.ep.handles| && NeverWaits(n)
    requires !op.OpOpen? && !op.OpAccept? && !op.OpRead? && !op.OpCall? && !op.OpDispatch?
    ensures Since(settled, n, Apply(n, op))
  {
    PingEmits(n);
    ElsewhereSince(settled, n, Apply(n, op));
  }

  lemma ApplySince(settled: bool, n: Node, op: Op)
    requires |n.tracks| == |n.ep.handles| && Peers(n) && NeverWaits(n)
    requires settled ==> n.ep.closed && !Passed(op)
    ensures Since(settled, n, Apply(n, op))
  {
    match op
    case OpOpen(passed) => OpenSince(settled, n, Seen(n.ep, passed));
    case OpAccept(passed) => AcceptSince(settled, n, Seen(n.ep, passed));
    case OpRead(k, room, passed) =>
      if At(n, k, User) && room > 0 { ReadSince(settled, n, k, room, Seen(n.ep, passed)); }
    case OpCall(k, call) => if At(n, k, CallPlace(call)) { CallSince(settled, n, k, call); }
    case OpDispatch(f) => if n.ep.task.Idle? { DispatchSince(settled, n, f); }
    case _ => BackgroundSince(settled, n, op);
  }

  /** From moment i on the session is closed and no call that found it open is still under way. */
  predicate Settled(n: Node, ops: seq<Op>, i: nat)
    requires i <= |ops|
  {
    Run(n, ops[..i]).ep.closed && forall j :: i <= j < |ops| ==> !Passed(ops[j])
  }

  /** From any moment of any run to any later one nothing is undone. What was written, read, sent, received
      and accepted only grows. A closed session stays closed; and once the calls that found it open are over,
      it hands out no stream ID, accepts no stream, and no stream reads or writes another byte. Once a stream
      is closed for writing it accepts no more bytes; once its FIN was handled its channel stays closed; once
      it is dropped it sends nothing, reads nothing and is given nothing. Once the send loop or the receive
      loop has ended, nothing more is queued or handled. */
  lemma {:induction false} NothingIsUndone(isClient: bool, config: Config, ops: seq<Op>, i: nat)
    requires i <= |ops| && config.Validates() && Fits(Run(NewNode(isClient, config), ops))
    ensures var start := NewNode(isClient, config);
      Since(Settled(start, ops, i), Run(start, ops[..i]), Run(start, ops))
    decreases |ops|
  {
    var start := NewNode(isClient, config);
    var settled := Settled(start, ops, i);
    if i == |ops| {
      assert ops[..i] == ops;
      RunInv(isClient, config, ops);
    } else {
      var front := ops[..|ops| - 1];
      ApplyExtends(Run(start, front), ops[|ops| - 1]);
      assert front[..i] == ops[..i];
      NothingIsUndone(isClient, config, front, i);
      assert settled ==> Settled(start, front, i);
      RunInv(isClient, config, front);
      SinceStep(settled, Settled(start, front, i), Run(start, ops[..i]), Run(start, front), ops[|ops| - 1]);
    }
  }

  lemma SinceStep(settled: bool, before: bool, early: Node, n: Node, op: Op)
    requires Since(before, early, n) && Inv(n)
    requires settled ==> before && early.ep.closed && !Passed(op)
    ensures Since(settled, early, Apply(n, op))
  {
    assert Since(settled, early, n) by { SinceWeaker(settled, before, early, n); }
    ApplySince(settled, n, op);
    SinceTransitive(settled, early, n, Apply(n, op));
  }

  lemma SinceWeaker(settled: bool, before: bool, n: Node, n': Node)
    requires Since(before, n, n') && (settled ==> before)
    ensures Since(settled, n, n')
  {
    forall k | 0 <= k < |n.tracks|
      ensures StreamSince(settled, n.ep.handles[k], n.tracks[k], n'.ep.handles[k], n'.tracks[k])
    {
      assert StreamSince(before, n.ep.handles[k], n.tracks[k], n'.ep.handles[k], n'.tracks[k]);
    }
  }

  // ----- loops that have ended ----------------------------------------------------------

  /** A session whose receive loop or send loop has ended is closed. */
  predicate EndsClosed(n: Node) {
    (n.ep.task.Stopped? ==> n.ep.closed) && (!n.ep.frames.connected ==> n.ep.closed)
  }

  lemma AppCallEnds(n: Node, op: Op)
    requires EndsClosed(n) && IsCall(op)
    ensures EndsClosed(Apply(n, op))
  {
    match op
    case OpOpen(passed) => OpenFeeds(n.ep, Seen(n.ep, passed));
    case OpCall(k, call) => if At(n, k, CallPlace(call)) { CallEffectSince(false, n.ep, n.ep.handles[k], call); }
    case _ =>
  }

  lemma LoopEnds(n: Node, op: Op)
    requires EndsClosed(n) && !IsCall(op)
    ensures EndsClosed(Apply(n, op))
  {
    match op
    case OpDispatch(f) => DispatchHistory(n, f); HandleFrameKeeps(n.ep, f);
    case OpTokenRetry => if n.ep.task.AwaitTokens? { RetryEnds(n); }
    case _ =>
  }

  lemma RetryEnds(n: Node)
    requires EndsClosed(n) && n.ep.task.AwaitTokens?
    ensures EndsClosed(TokenRetryNode(n))
  {
    DeliverKeeps(n.ep, n.ep.task.frame);
    TokenAnswers(n.ep, n.ep.task.frame);
  }

  /** In every run whatsoever, once the receive loop or the send loop has ended the session is closed. */
  lemma {:induction false} EndedMeansClosed(isClient: bool, config: Config, ops: seq<Op>)
    ensures EndsClosed(Run(NewNode(isClient, config), ops))
  {
    if ops != [] {
      var n, op := Run(NewNode(isClient, config), ops[..|ops| - 1]), ops[|ops| - 1];
      EndedMeansClosed(isClient, config, ops[..|ops| - 1]);
      if IsCall(op) { AppCallEnds(n, op); } else { LoopEnds(n, op); }
    }
  }

  // ----- what the answers of calls mean over runs -----------------------------------------

  lemma CallOut(n: Node, k: nat, call: Call, f: Frame)
    requires At(n, k, CallPlace(call))
    requires var ch := CallEffect(n.ep, n.ep.handles[k], call).1; ch == TrySend(n.ep.frames, f).1
    ensures HasRoom(n.ep.frames) ==> Apply(n, OpCall(k, call)).tracks[k].out == n.tracks[k].out + [f]
    ensures !HasRoom(n.ep.frames) ==> Apply(n, OpCall(k, call)).tracks[k].out == n.tracks[k].out
  {
    TrySendEmits(n.ep.frames, f);
    assert n.tracks[k].out + [] == n.tracks[k].out;
  }

  /** While the send loop lives, a `poll_shutdown` that does not wait leaves the stream's FIN in its send log,
      where it was or where it is now. */
  lemma ShutdownMeansFin(n: Node, isClient: bool, config: Config, ops: seq<Op>, k: nat)
    requires config.Validates() && n == Run(NewNode(isClient, config), ops) && Fits(n)
    requires At(n, k, User) && n.ep.frames.connected
    requires PollShutdown(n.ep.handles[k], n.ep.frames).0.Sent?
    ensures FinOut(Apply(n, OpCall(k, ShuttingDown)).tracks[k])
  {
    ShutdownAnswers(n.ep.handles[k], n.ep.frames);
    if n.ep.handles[k].writeClosed {
      FrameGrammar(n, isClient, config, ops, k);
      NothingEmitted(n.ep.frames);
      assert n.tracks[k].out + [] == n.tracks[k].out;
    } else {
      CallOut(n, k, ShuttingDown, NewFin(1, n.ep.handles[k].id));
    }
  }

  /** A `close` that succeeds after its wait has put the stream's FIN into its send log. */
  lemma CloseMeansFin(n: Node, k: nat)
    requires At(n, k, Closing) && CloseResume(n.ep.handles[k], n.ep.frames).0.Sent?
    ensures FinOut(Apply(n, OpCall(k, ClosingResume)).tracks[k])
  {
    CloseAnswers(n.ep.handles[k], n.ep.frames);
    CallOut(n, k, ClosingResume, NewFin(1, n.ep.handles[k].id));
  }

  /** An `open_stream` that succeeds has sent exactly its SYN. */
  lemma OpenMeansSyn(n: Node, isClient: bool, config: Config, ops: seq<Op>, k: nat)
    requires config.Validates() && n == Run(NewNode(isClient, config), ops) && Fits(n)
    requires At(n, k, Opening) && OpenResume(n.ep.handles[k], config.version, n.ep.frames).0.Sent?
    ensures Apply(n, OpCall(k, OpenResuming)).tracks[k].out == [NewSyn(config.version, n.ep.handles[k].id)]
  {
    RunInv(isClient, config, ops);
    RunRole(isClient, config, ops);
    var h, t := n.ep.handles[k], n.tracks[k];
    assert TxOk(n.ep.isClient, n.ep.config, n.ep.frames.connected, h, t);
    FreshMeansNothing(FirstPhase(Opener(isClient, h.id)), t.out);
    OpenResumeAnswers(h, config.version, n.ep.frames);
    CallOut(n, k, OpenResuming, NewSyn(config.version, h.id));
    assert [] + [NewSyn(config.version, h.id)] == [NewSyn(config.version, h.id)];
  }

  lemma FreshMeansNothing(first: Phase, fs: seq<Frame>)
    requires PhaseOf(first, fs).Fresh?
    ensures fs == []
  {
  }

  // ----- reading after the session has closed -----------------------------------------

  lemma {:induction false} FitsEarlier(n: Node, ops: seq<Op>, i: nat)
    requires i <= |ops| && Fits(Run(n, ops))
    ensures Fits(Run(n, ops[..i]))
    decreases |ops|
  {
    if i == |ops| {
      assert ops[..i] == ops;
    } else {
      var front := ops[..|ops| - 1];
      ApplyExtends(Run(n, front), ops[|ops| - 1]);
      assert front[..i] == ops[..i];
      FitsEarlier(n, front, i);
    }
  }

  lemma ReadAllIffEmpty(read: Bytes, held: Bytes, all: Bytes)
    requires read + held == all
    ensures read == all <==> held == []
  {
    assert held == [] ==> read + [] == read;
    assert |all| == |read| + |held|;
  }

  /** Closing the session cuts readers off. From the moment it is closed, and the calls that found it open
      are over, no stream reads another byte and every read reports a broken pipe. So a stream gets to read
      what was delivered to it by then exactly if it held nothing at that moment; and it has read what is
      delivered to it at any later point exactly if it holds nothing there. */
  lemma ClosedCutsReaders(isClient: bool, config: Config, ops: seq<Op>, i: nat, k: nat, room: nat)
    requires i <= |ops| && config.Validates() && Fits(Run(NewNode(isClient, config), ops))
    requires Settled(NewNode(isClient, config), ops, i)
    requires k < |Run(NewNode(isClient, config), ops[..i]).ep.handles|
    ensures var n, n' := Run(NewNode(isClient, config), ops[..i]), Run(NewNode(isClient, config), ops);
      && |n.tracks| == |n.ep.handles| <= |n'.ep.handles| == |n'.tracks|
      && var h, t, h', t' := n.ep.handles[k], n.tracks[k], n'.ep.handles[k], n'.tracks[k];
         !h'.place.Dropped? ==>
           && t'.read == t.read
           && (t'.read == Delivered(n.recvd, t.start, h.id) <==> Flat(h) == [])
           && (t'.read == Delivered(n'.recvd, t.start, h.id) <==> Flat(h') == [])
           && PollRead(h', n'.ep.closed, room) == (ReadBroken, h')
  {
    var start := NewNode(isClient, config);
    var n, n' := Run(start, ops[..i]), Run(start, ops);
    NothingIsUndone(isClient, config, ops, i);
    FitsEarlier(start, ops, i);
    assert StreamSince(true, n.ep.handles[k], n.tracks[k], n'.ep.handles[k], n'.tracks[k]);
    CutOff(n, isClient, config, ops[..i], k);
    CutOff(n', isClient, config, ops, k);
  }

  lemma CutOff(n: Node, isClient: bool, config: Config, ops: seq<Op>, k: nat)
    requires config.Validates() && n == Run(NewNode(isClient, config), ops) && Fits(n) && k < |n.tracks|
    ensures |n.tracks| == |n.ep.handles| && !n.ep.handles[k].readClosed
    ensures var h, t := n.ep.handles[k], n.tracks[k];
      !h.place.Dropped? ==> (t.read == Delivered(n.recvd, t.start, h.id) <==> Flat(h) == [])
  {
    Demultiplexed(n, isClient, config, ops, k);
    RunInv(isClient, config, ops);
    var h, t := n.ep.handles[k], n.tracks[k];
    assert RxOk(h, t, n.recvd);
    if !h.place.Dropped? {
      ReadAllIffEmpty(t.read, Flat(h), Delivered(n.recvd, t.start, h.id));
    }
  }

  /** A server stream with one byte delivered and not read. */
  function OneByteHeld(config: Config): Node {
    var offered := Apply(Apply(NewNode(false, config), OpDispatch(NewSyn(1, 1))), OpAcceptResume);
    Apply(Apply(offered, OpAccept(false)), OpDispatch(NewPsh(1, 1, [7])))
  }

  lemma OneByteHeldIs(config: Config)
    requires config.Validates() && config.maxReceiveBuffer < TWO_63
    ensures var n, h := OneByteHeld(config), NewHandle(1, User);
      n.ep.handles == [h.(queue := [[7]])] && !n.ep.closed && n.tracks == [NewTrack(1)]
      && n.recvd == [NewSyn(1, 1), NewPsh(1, 1, [7])] && n.ep.tokens == config.maxReceiveBuffer
  {
    var n1 := Apply(NewNode(false, config), OpDispatch(NewSyn(1, 1)));
    assert n1.ep.handles == [NewHandle(1, Queued)] && n1.ep.streams == map[1 := 0] && n1.ep.task == AwaitAccept(0);
    assert n1.recvd == [NewSyn(1, 1)] && n1.tracks == [NewTrack(1)];
    var n2 := Apply(n1, OpAcceptResume);
    assert n2.ep.acceptQueue == [0] && n2.ep.task.Idle?;
    var n3 := Apply(n2, OpAccept(false));
    assert n3.ep.handles == [NewHandle(1, User)] && n3.ep.streams == map[1 := 0] && n3.ep.tokens > 0;
    PushedByte(n3);
  }

  lemma PushedByte(n: Node)
    requires n.ep.handles == [NewHandle(1, User)] && n.ep.streams == map[1 := 0] && n.ep.tokens > 0 && n.ep.task.Idle?
    requires n.recvd == [NewSyn(1, 1)]
    ensures var n' := Apply(n, OpDispatch(NewPsh(1, 1, [7])));
      && n'.ep.handles == [NewHandle(1, User).(queue := [[7]])] && n'.ep.closed == n.ep.closed
      && n'.tracks == n.tracks && n'.recvd == [NewSyn(1, 1), NewPsh(1, 1, [7])] && n'.ep.tokens == n.ep.tokens
  {
    var h := NewHandle(1, User);
    assert h.queue + [[7]] == [[7]];
    assert n.ep.handles[0 := h.(queue := h.queue + [[7]])] == [h.(queue := [[7]])];
  }

  /** The smallest case: the session closes on a stream that holds one byte, and the byte is never read. */
  lemma HeldByteIsLost(config: Config, room: nat)
    requires config.Validates() && config.maxReceiveBuffer < TWO_63 && room > 0
    ensures var n := Apply(OneByteHeld(config), OpCloseSession);
      && |n.ep.handles| == |n.tracks| == 1
      && Delivered(n.recvd, n.tracks[0].start, 1) == [7]
      && PollRead(n.ep.handles[0], n.ep.closed, room).0 == ReadBroken
      && Apply(n, OpRead(0, room, false)).tracks[0].read == []
  {
    OneByteHeldIs(config);
    ClosedLoses(OneByteHeld(config), room);
  }

  lemma ClosedLoses(m: Node, room: nat)
    requires |m.ep.handles| == 1 && m.ep.handles[0].id == 1 && !m.ep.handles[0].readClosed
    requires m.tracks == [NewTrack(1)] && m.recvd == [NewSyn(1, 1), NewPsh(1, 1, [7])]
    ensures var n := Apply(m, OpCloseSession);
      && |n.ep.handles| == |n.tracks| == 1
      && Delivered(n.recvd, n.tracks[0].start, 1) == [7]
      && PollRead(n.ep.handles[0], n.ep.closed, room).0 == ReadBroken
      && Apply(n, OpRead(0, room, false)).tracks[0].read == []
  {
    OneByteDelivered();
    ClosedRead(Apply(m, OpCloseSession), room);
  }

  lemma ClosedRead(n: Node, room: nat)
    requires |n.ep.handles| == |n.tracks| == 1 && n.ep.closed && !n.ep.handles[0].readClosed
    ensures PollRead(n.ep.handles[0], true, room).0 == ReadBroken
    ensures Apply(n, OpRead(0, room, false)).tracks[0].read == n.tracks[0].read
  {
    assert n.tracks[0].read + [] == n.tracks[0].read;
  }

  lemma OneByteDelivered()
    ensures Delivered([NewSyn(1, 1), NewPsh(1, 1, [7])], 1, 1) == [7]
  {
    DeliveredSnoc([NewSyn(1, 1)], NewPsh(1, 1, [7]), 1, 1);
    assert [NewSyn(1, 1), NewPsh(1, 1, [7])] == [NewSyn(1, 1)] + [NewPsh(1, 1, [7])];
    assert Delivered([NewSyn(1, 1)], 1, 1) == [] && !Ended([NewSyn(1, 1)], 1, 1);
  }

  // ----- dropping, and the ID counter ----------------------------------------------------

  /** When the application lets go of a stream it is dropped and closed for writing at once. Its FIN goes out
      only if the stream was open for writing and the frame channel has room at that moment. */
  lemma DropIsFinal(n: Node, k: nat)
    requires At(n, k, User)
    ensures var n' := Apply(n, OpCall(k, Dropping));
      && n'.ep.handles[k].place.Dropped? && n'.ep.handles[k].writeClosed
      && n'.tracks[k].out == n.tracks[k].out
         + (if !n.ep.handles[k].writeClosed && HasRoom(n.ep.frames) then [NewFin(1, n.ep.handles[k].id)] else [])
  {
    TrySendEmits(n.ep.frames, NewFin(1, n.ep.handles[k].id));
    NothingEmitted(n.ep.frames);
  }

  /** Exactly when a dropped stream's FIN is ever sent: if it was out before, or the stream was open for writing
      and the frame channel had room when it was dropped. Nothing makes up for it later. */
  lemma DropSendsFin(isClient: bool, config: Config, ops: seq<Op>, i: nat, k: nat)
    requires i < |ops| && config.Validates() && Fits(Run(NewNode(isClient, config), ops))
    requires ops[i] == OpCall(k, Dropping) && At(Run(NewNode(isClient, config), ops[..i]), k, User)
    ensures var n, n' := Run(NewNode(isClient, config), ops[..i]), Run(NewNode(isClient, config), ops);
      && k < |n'.tracks|
      && (FinOut(n'.tracks[k]) <==>
            FinOut(n.tracks[k]) || (!n.ep.handles[k].writeClosed && HasRoom(n.ep.frames)))
  {
    var start := NewNode(isClient, config);
    var n, n1, n' := Run(start, ops[..i]), Run(start, ops[..i + 1]), Run(start, ops);
    assert ops[..i + 1] == ops[..i] + [ops[i]];
    RunSnoc(start, ops[..i], ops[i]);
    DropIsFinal(n, k);
    assert n.tracks[k].out + [] == n.tracks[k].out;
    NothingIsUndone(isClient, config, ops, i + 1);
    assert StreamSince(Settled(start, ops, i + 1), n1.ep.handles[k], n1.tracks[k], n'.ep.handles[k], n'.tracks[k]);
  }

  /** A client stream is opened, its SYN fills the one place in the frame channel, and it is dropped. */
  function DroppedWhileFull(): seq<Op> {
    [] + [OpOpen(false)] + [OpCall(0, OpenResuming)] + [OpCall(0, Dropping)]
  }

  lemma DroppedWhileFullIs(config: Config)
    requires config.Validates() && config.frameChannelCapacity == 1
    ensures var n := Run(NewNode(true, config), DroppedWhileFull());
      && |n.ep.handles| == |n.tracks| == 1 && n.tracks[0].out == [NewSyn(config.version, 1)]
      && n.ep.handles[0].place.Dropped? && n.ep.handles[0].writeClosed && n.ep.handles[0].id == 1
  {
    var start := NewNode(true, config);
    RunSnoc(start, [], OpOpen(false));
    RunSnoc(start, [] + [OpOpen(false)], OpCall(0, OpenResuming));
    RunSnoc(start, [] + [OpOpen(false)] + [OpCall(0, OpenResuming)], OpCall(0, Dropping));
    var n1 := Apply(start, OpOpen(false));
    assert n1.ep.handles == [NewHandle(1, Opening)] && n1.tracks == [NewTrack(0)] && n1.ep.frames == start.ep.frames;
    var n2 := Apply(n1, OpCall(0, OpenResuming));
    SynSent(n1);
    DropIsFinal(n2, 0);
    assert n2.tracks[0].out + [] == n2.tracks[0].out;
  }

  lemma RunSnoc(n: Node, ops: seq<Op>, op: Op)
    ensures Run(n, ops + [op]) == Apply(Run(n, ops), op)
  {
    assert (ops + [op])[..|ops|] == ops;
  }

  lemma SynSent(n: Node)
    requires n.ep.handles == [NewHandle(1, Opening)] && n.tracks == [NewTrack(0)]
    requires n.ep.frames == FrameChan([], 1, true)
    ensures var n' := Apply(n, OpCall(0, OpenResuming));
      && n'.ep.handles == [NewHandle(1, User)] && |n'.ep.frames.queue| == 1 && n'.ep.frames.capacity == 1
      && |n'.tracks| == 1 && n'.tracks[0].out == [NewSyn(n.ep.config.version, 1)]
  {
    TrySendEmits(n.ep.frames, NewSyn(n.ep.config.version, 1));
    assert [] + [NewSyn(n.ep.config.version, 1)] == [NewSyn(n.ep.config.version, 1)];
  }

  /** The smallest case: whatever happens afterwards, that stream's FIN never goes out. */
  lemma DropLosesFin(config: Config, more: seq<Op>)
    requires config.Validates() && config.frameChannelCapacity == 1
    requires Fits(Run(NewNode(true, config), DroppedWhileFull() + more))
    ensures var n := Run(NewNode(true, config), DroppedWhileFull() + more);
      && |n.ep.handles| >= 1 && |n.tracks| >= 1
      && n.ep.handles[0].writeClosed && n.tracks[0].out == [NewSyn(config.version, 1)] && !FinOut(n.tracks[0])
  {
    var ops, start := DroppedWhileFull() + more, NewNode(true, config);
    assert ops[..3] == DroppedWhileFull();
    DroppedWhileFullIs(config);
    NothingIsUndone(true, config, ops, 3);
    var n, n' := Run(start, ops[..3]), Run(start, ops);
    assert StreamSince(Settled(start, ops, 3), n.ep.handles[0], n.tracks[0], n'.ep.handles[0], n'.tracks[0]);
  }

  lemma OpenCounts(n: Node, closed: bool)
    requires n.ep.nextId == CounterAfter(n.ep.isClient, n.idCalls)
    ensures OpenNode(n, closed).ep.nextId == CounterAfter(n.ep.isClient, OpenNode(n, closed).idCalls)
  {
  }

  lemma CallCounts(n: Node, k: nat, call: Call)
    requires k < |n.ep.handles| && k < |n.tracks|
    ensures CallNode(n, k, call).ep.nextId == n.ep.nextId && CallNode(n, k, call).idCalls == n.idCalls
  {
  }

  lemma CounterUntouched(n: Node, op: Op)
    requires !op.OpOpen?
    ensures Apply(n, op).ep.nextId == n.ep.nextId && Apply(n, op).idCalls == n.idCalls
  {
    match op
    case OpCall(k, call) => if At(n, k, CallPlace(call)) { CallCounts(n, k, call); }
    case OpDispatch(f) => DispatchHistory(n, f); HandleFrameKeeps(n.ep, f);
    case _ =>
  }

  lemma CounterStep(n: Node, op: Op)
    requires n.ep.nextId == CounterAfter(n.ep.isClient, n.idCalls)
    ensures Apply(n, op).ep.nextId == CounterAfter(n.ep.isClient, Apply(n, op).idCalls)
  {
    if op.OpOpen? {
      OpenCounts(n, Seen(n.ep, op.passed));
    } else {
      CounterUntouched(n, op);
    }
  }

  /** For every run, overflow included: the ID counter stands where the number of `open_stream` calls on an
      open session puts it, those that failed among them. */
  lemma {:induction false} CounterOfRun(isClient: bool, config: Config, ops: seq<Op>)
    ensures var n := Run(NewNode(isClient, config), ops); n.ep.nextId == CounterAfter(isClient, n.idCalls)
  {
    if ops != [] {
      CounterOfRun(isClient, config, ops[..|ops| - 1]);
      RunRole(isClient, config, ops[..|ops| - 1]);
      CounterStep(Run(NewNode(isClient, config), ops[..|ops| - 1]), ops[|ops| - 1]);
    }
  }
}
