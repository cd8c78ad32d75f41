/** Both directions at once, under any schedule: the loops, the transport, accepts and reads have only so much to
    do, and when nothing is left to do everything has arrived. */
module SystemWork {
  import opened Frames
  import opened CodecSpec
  import opened StreamSpec
  import opened SessionSpec
  import opened Logs
  import opened NodeSpec
  import opened NodeInvariant
  import opened NodeSteps
  import opened NodeAccounts
  import opened SystemSpec
  import opened SystemInvariant
  import opened SystemTheorems
  import opened SystemProgress

  /** What the loops and the transport do by themselves, accepts and reads. */
  predicate Quiet(action: Action) {
    match action
    case Local(op) => op.OpAccept? || op.OpAcceptResume? || (op.OpRead? && op.room > 0)
    case _ => true
  }

  // ----- how much is left to do -----------------------------------------------------

  /** A frame still to be sent: its bytes have to be carried, it has to be sent and handled, its stream may have
      to be queued and accepted, and its payload has to be read. */
  function QueueWork(fs: seq<Frame>): nat {
    if fs == [] then 0 else |WireForm(fs[0])| + |fs[0].data| + 4 + QueueWork(fs[1..])
  }

  function FlightWork(fs: seq<Frame>): nat {
    if fs == [] then 0 else |fs[0].data| + 3 + FlightWork(fs[1..])
  }

  function LinkWork(l: Link): nat {
    |l.wire| + FlightWork(l.flight)
  }

  function NodeWork(n: Node): nat {
    QueueWork(n.ep.frames.queue) + (if n.ep.task.AwaitAccept? then 2 else 0) + |n.ep.acceptQueue|
      + Buffered(n.ep.handles)
  }

  function Work(s: System): nat {
    NodeWork(s.client) + NodeWork(s.server) + LinkWork(s.up) + LinkWork(s.down)
  }

  lemma {:induction false} FlightWorkSnoc(fs: seq<Frame>, f: Frame)
    ensures FlightWork(fs + [f]) == FlightWork(fs) + |f.data| + 3
  {
    if fs == [] {
      assert fs + [f] == [f] && [f][1..] == [];
    } else {
      assert (fs + [f])[1..] == fs[1..] + [f];
      FlightWorkSnoc(fs[1..], f);
    }
  }

  // ----- one action of one side --------------------------------------------------------

  /** Nothing happened, or there is less to do. */
  predicate Less(x: Node, o: Link, i: Link, x': Node, o': Link, i': Link) {
    || (x' == x && o' == o && i' == i)
    || NodeWork(x') + LinkWork(o') + LinkWork(i') < NodeWork(x) + LinkWork(o) + LinkWork(i)
  }

  lemma SendLess(x: Node, outgoing: Link, incoming: Link)
    requires x.ep.frames.queue != []
    ensures var f := x.ep.frames.queue[0];
      Less(x, outgoing, incoming,
           TransmitNode(x), outgoing.(wire := outgoing.wire + WireForm(f), flight := outgoing.flight + [f]), incoming)
  {
    FlightWorkSnoc(outgoing.flight, x.ep.frames.queue[0]);
  }

  lemma CarryLess(x: Node, outgoing: Link, incoming: Link, count: nat)
    ensures Less(x, outgoing, incoming, x, outgoing, CarryAct(incoming, count))
  {
    var w := incoming.wire;
    if count == 0 {
      assert w[0..] == w && w[..0] == [] && incoming.buffer + [] == incoming.buffer;
    }
  }

  lemma DispatchBuffers(x: Node, f: Frame)
    ensures Buffered(HandleFrame(x.ep, f).handles) <= Buffered(x.ep.handles) + |f.data|
  {
    if f.cmd.Psh? && f.data != [] {
      DeliverBuffers(x.ep.(dataReceived := true), f);
    } else {
      QuietBuffers(x.ep, f);
    }
  }

  lemma ReceiveLess(x: Node, outgoing: Link, incoming: Link, rest: Bytes)
    requires x.ep.task.Idle? && incoming.flight != []
    ensures var i' := incoming.(buffer := rest, flight := incoming.flight[1..]);
      Less(x, outgoing, incoming, DispatchNode(x, incoming.flight[0]), outgoing, i')
  {
    DispatchBuffers(x, incoming.flight[0]);
    HandleFrameKeeps(x.ep, incoming.flight[0]);
    DispatchHistory(x, incoming.flight[0]);
  }

  lemma AcceptLess(x: Node, outgoing: Link, incoming: Link)
    requires !x.ep.closed && (x.ep.acceptQueue != [] ==> x.ep.acceptQueue[0] < |x.ep.handles|)
    ensures Less(x, outgoing, incoming, AcceptNode(x, false), outgoing, incoming)
  {
    if x.ep.acceptQueue != [] {
      var k := x.ep.acceptQueue[0];
      BufferedUpdate(x.ep.handles, k, x.ep.handles[k].(place := User));
    }
  }

  lemma ResumeLess(x: Node, outgoing: Link, incoming: Link)
    ensures Less(x, outgoing, incoming, Apply(x, OpAcceptResume), outgoing, incoming)
  {
  }

  lemma ReadNothing(x: Node, k: nat, room: nat)
    requires k < |x.ep.handles| && k < |x.tracks|
    requires var (r, h) := PollRead(x.ep.handles[k], false, room); CopiedBytes(r) == [] && h == x.ep.handles[k]
    ensures ReadNode(x, k, room, false) == x
  {
    var h, t := x.ep.handles[k], x.tracks[k];
    assert t.read + [] == t.read;
    assert x.ep.handles[k := h] == x.ep.handles && x.tracks[k := t] == x.tracks;
  }

  /** A read that returns nothing changes nothing. */
  lemma ReadLess(x: Node, outgoing: Link, incoming: Link, k: nat, room: nat)
    requires Rx(x) && !x.ep.closed && At(x, k, User) && room > 0
    ensures Less(x, outgoing, incoming, ReadNode(x, k, room, false), outgoing, incoming)
  {
    var h := x.ep.handles[k];
    assert RxOk(h, x.tracks[k], x.recvd);
    ReadIsFifo(h, room);
    var (r, h') := PollRead(h, false, room);
    assert |CopiedBytes(r)| + |Flat(h')| == |Flat(h)|;
    if CopiedBytes(r) == [] {
      ReadNothing(x, k, room);
    } else {
      BufferedUpdate(x.ep.handles, k, h');
    }
  }

  // ----- a running side stays running -----------------------------------------------------

  /** One side of a system in which everything runs: what it reads from, and that it can send. */
  predicate Able(d: Direction) {
    && Ready(d)
    && d.reader.ep.frames.connected && d.reader.ep.config.maxFrameSize >= HEADER_SIZE
    && d.reader.ep.config.maxFrameSize <= MAX_SAFE_FRAME_SIZE
  }

  /** What a quiet action of a side leads to. */
  predicate Settles(x: Node, o: Link, i: Link, x': Node, o': Link, i': Link) {
    && StaysGood(x, x') && x'.sent == x.sent && x'.ep.frames.connected == x.ep.frames.connected
    && Less(x, o, i, x', o', i')
  }

  /** What every side needs. */
  predicate Sane(x: Node) {
    Fits(x) && Accounted(x) && !x.ep.closed && !x.ep.task.Stopped?
  }

  lemma SettlesAsIs(x: Node, o: Link, i: Link)
    requires Sane(x)
    ensures Settles(x, o, i, x, o, i)
  {
  }

  lemma SendSettles(x: Node, o: Link, i: Link)
    requires Sane(x) && SentOk(x) && x.ep.frames.connected && x.ep.config.Validates()
    requires HEADER_SIZE <= x.ep.config.maxFrameSize <= MAX_SAFE_FRAME_SIZE
    ensures var (x', o') := SendAct(x, o); Settles(x, o, i, x', o', i)
  {
    if x.ep.frames.queue == [] {
      SettlesAsIs(x, o, i);
    } else {
      WaitingIsProduced(x, 0);
      EncodableIs(x.ep.config.maxFrameSize, x.ep.frames.queue[0]);
      SendLess(x, o, i);
    }
  }

  lemma CarrySettles(x: Node, o: Link, i: Link, count: nat)
    requires Sane(x)
    ensures Settles(x, o, i, x, o, CarryAct(i, count))
  {
    CarryLess(x, o, i, count);
  }

  lemma DispatchSettles(d: Direction, o: Link, rest: Bytes)
    requires Able(d) && d.reader.ep.task.Idle? && d.link.flight != []
    ensures Settles(d.reader, o, d.link, DispatchNode(d.reader, d.link.flight[0]), o,
                    d.link.(buffer := rest, flight := d.link.flight[1..]))
  {
    var x, f := d.reader, d.link.flight[0];
    DispatchStaysGood(d);
    ReceiveLess(x, o, d.link, rest);
    HandleFrameKeeps(x.ep, f);
    DispatchHistory(x, f);
  }

  /** What decoding can give in a system in which everything runs. */
  predicate Foreseen(l: Link, decoded: Decoded) {
    match decoded
    case NeedMore => true
    case Broken(_, _) => false
    case Yield(f, _) => l.flight != [] && f == l.flight[0]
  }

  lemma AbleDecodes(d: Direction)
    requires Able(d)
    ensures Foreseen(d.link, Decode(d.reader.ep.config.maxFrameSize, d.link.buffer))
  {
    DecodeExpected(d.writer.ep.config.maxFrameSize, d.reader.ep.config.maxFrameSize, d.link);
  }

  lemma ReceivedIs(x: Node, i: Link, f: Frame, rest: Bytes)
    requires x.ep.task.Idle? && i.flight != []
    ensures Received(x, i, Yield(f, rest)) == (DispatchNode(x, f), i.(buffer := rest, flight := i.flight[1..]))
  {
  }

  lemma ReceiveSettles(d: Direction, o: Link)
    requires Able(d)
    ensures var (x', i') := ReceiveAct(d.reader, d.link); Settles(d.reader, o, d.link, x', o, i')
  {
    AbleDecodes(d);
    var decoded := Decode(d.reader.ep.config.maxFrameSize, d.link.buffer);
    if d.reader.ep.task.Idle? && decoded.Yield? {
      DispatchSettles(d, o, decoded.rest);
      ReceivedIs(d.reader, d.link, decoded.frame, decoded.rest);
    } else {
      SettlesAsIs(d.reader, o, d.link);
    }
  }

  lemma AcceptSettles(x: Node, o: Link, i: Link, passed: bool)
    requires Sane(x) && Inv(x)
    ensures Settles(x, o, i, Apply(x, OpAccept(passed)), o, i)
  {
    if x.ep.acceptQueue == [] {
      SettlesAsIs(x, o, i);
    } else {
      AcceptPlace(x);
      AcceptStaysGood(x);
      AcceptLess(x, o, i);
    }
  }

  lemma ResumeSettles(x: Node, o: Link, i: Link)
    requires Sane(x)
    ensures Settles(x, o, i, Apply(x, OpAcceptResume), o, i)
  {
    ResumeStaysGood(x);
    ResumeLess(x, o, i);
  }

  lemma AnyReadStaysGood(d: Direction, k: nat, room: nat)
    requires Able(d) && At(d.reader, k, User) && room > 0
    ensures StaysGood(d.reader, ReadNode(d.reader, k, room, false))
  {
    var r := d.reader;
    assert RxOk(r.ep.handles[k], r.tracks[k], r.recvd);
    ReadShape(r.ep.handles[k], room);
    ReadAccounts(r, k, room, false);
    LogsInOrder(d);
    AccountedFits(d, ReadNode(r, k, room, false));
  }

  lemma ReadSettles(d: Direction, o: Link, k: nat, room: nat, passed: bool)
    requires Able(d)
    ensures Settles(d.reader, o, d.link, Apply(d.reader, OpRead(k, room, passed)), o, d.link)
  {
    if At(d.reader, k, User) && room > 0 {
      AnyReadStaysGood(d, k, room);
      ReadLess(d.reader, o, d.link, k, room);
    } else {
      SettlesAsIs(d.reader, o, d.link);
    }
  }

  lemma LocalSettles(d: Direction, o: Link, op: Op)
    requires Able(d) && Quiet(Local(op))
    ensures Settles(d.reader, o, d.link, Apply(d.reader, op), o, d.link)
  {
    match op
    case OpAccept(passed) => AcceptSettles(d.reader, o, d.link, passed);
    case OpAcceptResume => ResumeSettles(d.reader, o, d.link);
    case OpRead(k, room, passed) => ReadSettles(d, o, k, room, passed);
  }

  lemma QuietSettles(d: Direction, o: Link, a: Action)
    requires Able(d) && Quiet(a)
    ensures var (x', o', i') := Act(d.reader, o, d.link, a); Settles(d.reader, o, d.link, x', o', i')
  {
    match a
    case Send => SendSettles(d.reader, o, d.link);
    case Carry(count) => CarrySettles(d.reader, o, d.link, count);
    case Receive => ReceiveSettles(d, o);
    case Local(op) =>
      LocalSettles(d, o, op);
      LocalActs(d.reader, o, d.link, op);
  }

  // ----- the whole system --------------------------------------------------------------------

  /** Both directions run. */
  predicate Live(s: System) {
    Flowing(s, true) && Flowing(s, false)
  }

  lemma LiveAble(s: System, toServer: bool)
    requires Live(s)
    ensures Able(DirectionOf(s, toServer)) && Fits(DirectionOf(s, toServer).writer)
  {
    FlowingReady(s, toServer);
  }

  /** Both sides have sent what they had sent, and the system has less to do, unless nothing happened. */
  predicate Nearer(s: System, s': System) {
    && s'.client.sent == s.client.sent && s'.server.sent == s.server.sent
    && (s' == s || Work(s') < Work(s))
  }

  lemma QuietStep(s: System, step: Step)
    requires Live(s) && Quiet(step.action)
    ensures Live(Move(s, step)) && Nearer(s, Move(s, step))
  {
    var toServer := !step.byClient;
    var d, o := DirectionOf(s, toServer), DirectionOf(s, !toServer).link;
    LiveAble(s, toServer);
    QuietSettles(d, o, step.action);
    LiveAble(s, !toServer);
    StaysLive(s, step);
  }

  lemma StaysLive(s: System, step: Step)
    requires Live(s)
    requires var toServer := !step.byClient;
      var d, o := DirectionOf(s, toServer), DirectionOf(s, !toServer).link;
      var (x', o', i') := Act(d.reader, o, d.link, step.action);
      Settles(d.reader, o, d.link, x', o', i')
    ensures Live(Move(s, step))
  {
    FlowsOn(s, true, step);
    FlowsOn(s, false, step);
  }

  /** How many steps of a schedule did something. */
  function Effective(s: System, steps: seq<Step>): nat {
    if steps == [] then 0
    else
      var before, step := RunSystem(s, steps[..|steps| - 1]), steps[|steps| - 1];
      Effective(s, steps[..|steps| - 1]) + if Move(before, step) == before then 0 else 1
  }

  predicate AllQuiet(steps: seq<Step>) {
    forall i :: 0 <= i < |steps| ==> Quiet(steps[i].action)
  }

  lemma {:induction false} QuietRun(s: System, steps: seq<Step>)
    requires Live(s) && AllQuiet(steps)
    ensures Live(RunSystem(s, steps)) && Effective(s, steps) + Work(RunSystem(s, steps)) <= Work(s)
    ensures RunSystem(s, steps).client.sent == s.client.sent && RunSystem(s, steps).server.sent == s.server.sent
  {
    if steps != [] {
      var front := steps[..|steps| - 1];
      QuietRun(s, front);
      QuietStep(RunSystem(s, front), steps[|steps| - 1]);
    }
  }

  // ----- when nothing is left to do --------------------------------------------------------------

  /** A quiet step that does something. */
  predicate Moves(s: System, step: Step) {
    Quiet(step.action) && Move(s, step) != s
  }

  /** No quiet step does anything. */
  ghost predicate Stuck(s: System) {
    forall step: Step :: !Moves(s, step)
  }

  lemma SendMoves(s: System, toServer: bool)
    requires Live(s) && DirectionOf(s, toServer).writer.ep.frames.queue != []
    ensures Moves(s, Step(toServer, Send))
  {
    SendOne(s, toServer);
  }

  lemma CarryMoves(s: System, toServer: bool)
    requires Live(s) && DirectionOf(s, toServer).link.wire != []
    ensures Moves(s, Step(!toServer, Carry(|DirectionOf(s, toServer).link.wire|)))
  {
    CarryOne(s, toServer);
  }

  lemma AcceptMoves(s: System, toServer: bool)
    requires Live(s) && DirectionOf(s, toServer).reader.ep.acceptQueue != []
    ensures Moves(s, Step(!toServer, Local(OpAccept(false))))
  {
    AcceptOne(s, toServer);
  }

  lemma ResumeMoves(s: System, toServer: bool)
    requires var r := DirectionOf(s, toServer).reader; r.ep.task.AwaitAccept? && r.ep.acceptQueue == []
    requires Live(s)
    ensures Moves(s, Step(!toServer, Local(OpAcceptResume)))
  {
    ResumeOne(s, toServer);
  }

  lemma ReceiveMoves(s: System, toServer: bool)
    requires var d := DirectionOf(s, toServer); d.reader.ep.task.Idle? && d.link.wire == [] && d.link.flight != []
    requires Live(s)
    ensures Moves(s, Step(!toServer, Receive))
  {
    ReceiveOne(s, toServer);
  }

  lemma ReadMoves(s: System, toServer: bool, k: nat)
    requires Live(s) && ToRead(DirectionOf(s, toServer).reader, k)
    ensures Moves(s, Step(!toServer, Local(OpRead(k, 1, false))))
  {
    var d := DirectionOf(s, toServer);
    LiveAble(s, toServer);
    ReadShortens(d.reader, k);
    ReaderMoves(s, toServer, Local(OpRead(k, 1, false)));
    LocalActs(d.reader, DirectionOf(s, !toServer).link, d.link, OpRead(k, 1, false));
  }

  /** A receive loop that is not ready is waiting for room in the accept queue. */
  lemma LiveTask(s: System, toServer: bool)
    requires Live(s)
    ensures DirectionOf(s, toServer).reader.ep.task.Idle? || DirectionOf(s, toServer).reader.ep.task.AwaitAccept?
  {
    LiveAble(s, toServer);
  }

  lemma StuckIsLanded(s: System, toServer: bool)
    requires Live(s) && Stuck(s)
    ensures AllIn(DirectionOf(s, toServer))
  {
    var d := DirectionOf(s, toServer);
    LiveTask(s, toServer);
    if d.writer.ep.frames.queue != [] {
      SendMoves(s, toServer);
    } else if d.link.wire != [] {
      CarryMoves(s, toServer);
    } else if d.reader.ep.acceptQueue != [] {
      AcceptMoves(s, toServer);
    } else if d.reader.ep.task.AwaitAccept? {
      ResumeMoves(s, toServer);
    } else if d.link.flight != [] {
      ReceiveMoves(s, toServer);
    }
  }

  lemma StuckReads(s: System, toServer: bool, k: nat)
    requires Live(s) && Stuck(s)
    ensures !ToRead(DirectionOf(s, toServer).reader, k)
  {
    if ToRead(DirectionOf(s, toServer).reader, k) {
      ReadMoves(s, toServer, k);
    }
  }

  lemma StuckMeansDone(s: System, toServer: bool)
    requires Live(s) && Stuck(s)
    ensures AllReadFrom(DirectionOf(s, toServer), 0)
  {
    var d := DirectionOf(s, toServer);
    StuckIsLanded(s, toServer);
    forall k | 0 <= k < |d.reader.ep.handles| && d.reader.ep.handles[k].place.User?
      ensures Flat(d.reader.ep.handles[k]) == []
    {
      StuckReads(s, toServer, k);
    }
  }

  // ----- the result --------------------------------------------------------------------------------

  /** Nothing was lost or is under way; the streams opened were accepted, in order; and every stream the
      application holds has read what was written on the other side, and sees EOF if the FIN went out. */
  predicate AllDelivered(d: Direction) {
    && d.reader.recvd == d.writer.sent && |d.reader.tracks| == |d.reader.ep.handles|
    && (forall i :: 0 <= i < |d.reader.accepted| ==> d.reader.accepted[i] < |d.reader.ep.handles|)
    && IdsOf(d.reader.ep.handles, d.reader.accepted) == Syns(d.writer.sent)
    && (forall k :: 0 <= k < |d.reader.ep.handles| && d.reader.ep.handles[k].place.User? ==>
          var h, t := d.reader.ep.handles[k], d.reader.tracks[k];
          && t.read == Written(d.writer, h.id)
          && PollRead(h, false, 1).0 == if Ended(d.writer.sent, t.start, h.id) then Copied([]) else ReadPending)
  }

  /** Every schedule delivers. From any reachable state in which both directions run, let the loops, the
      transport, accepts and reads of both sides be scheduled in any order whatsoever. At most Work(s) of their
      steps do anything; and once none of them can do anything any more, all that was ever sent has arrived in
      both directions. So whichever way the work is interleaved, as long as some step that can do something is
      always taken in the end, every byte is read. */
  lemma EveryScheduleDelivers(s: System, clientConfig: Config, serverConfig: Config, steps: seq<Step>,
                              more: seq<Step>)
    requires ReachedBy(s, clientConfig, serverConfig, steps)
    requires Running(DirectionOf(s, true)) && Running(DirectionOf(s, false))
    requires AllQuiet(more)
    ensures var s' := RunSystem(s, more);
      && Effective(s, more) <= Work(s)
      && s'.client.sent == s.client.sent && s'.server.sent == s.server.sent
      && (Stuck(s') ==> AllDelivered(DirectionOf(s', true)) && AllDelivered(DirectionOf(s', false)))
  {
    StartsFlowing(s, clientConfig, serverConfig, steps, true);
    StartsFlowing(s, clientConfig, serverConfig, steps, false);
    QuietRun(s, more);
    var s' := RunSystem(s, more);
    if Stuck(s') {
      StuckDelivered(s', true);
      StuckDelivered(s', false);
    }
  }

  /** A quiet step that does something, if there is one, and the state it leads to. */
  lemma StepLeft(s: System) returns (done: bool, step: Step, next: System)
    requires Live(s)
    ensures done ==> Stuck(s)
    ensures !done ==> Quiet(step.action) && Live(next) && Work(next) < Work(s)
    ensures !done ==> forall rest :: RunSystem(s, [step] + rest) == RunSystem(next, rest)
  {
    done, step, next := Stuck(s), Step(true, Send), s;
    if !done {
      step :| Moves(s, step);
      next := Move(s, step);
      QuietStep(s, step);
      forall rest
        ensures RunSystem(s, [step] + rest) == RunSystem(next, rest)
      {
        RunCons(s, step, rest);
      }
    }
  }

  lemma QuietCons(step: Step, rest: seq<Step>)
    requires Quiet(step.action) && AllQuiet(rest)
    ensures AllQuiet([step] + rest)
  {
  }

  lemma {:induction false} ReachesStuck(s: System) returns (more: seq<Step>, last: System)
    requires Live(s)
    ensures AllQuiet(more) && last == RunSystem(s, more) && Stuck(last)
    decreases Work(s)
  {
    var done, step, next := StepLeft(s);
    if done {
      more, last := [], s;
    } else {
      var rest;
      rest, last := ReachesStuck(next);
      QuietCons(step, rest);
      more := [step] + rest;
    }
  }

  /** A state in which nothing is left to do is always in reach, so both directions can be emptied at once. */
  lemma BothDirectionsArrive(s: System, clientConfig: Config, serverConfig: Config, steps: seq<Step>)
    returns (more: seq<Step>)
    requires ReachedBy(s, clientConfig, serverConfig, steps)
    requires Running(DirectionOf(s, true)) && Running(DirectionOf(s, false))
    ensures var s' := RunSystem(s, more);
      && s'.client.sent == s.client.sent && s'.server.sent == s.server.sent
      && AllDelivered(DirectionOf(s', true)) && AllDelivered(DirectionOf(s', false))
  {
    StartsFlowing(s, clientConfig, serverConfig, steps, true);
    StartsFlowing(s, clientConfig, serverConfig, steps, false);
    var last;
    more, last := ReachesStuck(s);
    EveryScheduleDelivers(s, clientConfig, serverConfig, steps, more);
  }

  lemma StuckDelivered(s: System, toServer: bool)
    requires Live(s) && Stuck(s)
    ensures AllDelivered(DirectionOf(s, toServer))
  {
    StuckMeansDone(s, toServer);
    LiveAble(s, toServer);
    AllReadMeans(DirectionOf(s, toServer));
  }
}
