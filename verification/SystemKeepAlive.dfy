/** Keep-alive between two sessions: the peer's own pings, carried by the transport, keep a session open. */
module SystemKeepAlive {
  import opened Wrappers
  import opened Frames
  import opened CodecSpec
  import opened NodeSpec
  import opened KeepAlive
  import opened SystemSpec
  import opened SystemInvariant

  datatype TimedStep = TimedStep(at: real, step: Step)

  /** The system just before event i. */
  function SystemAt(s: System, es: seq<TimedStep>, i: nat): System
    requires i <= |es|
  {
    if i == 0 then s else Move(SystemAt(s, es, i - 1), es[i - 1].step)
  }

  function StepsOf(es: seq<TimedStep>, count: nat): seq<Step>
    requires count <= |es|
  {
    seq(count, i requires 0 <= i < count => es[i].step)
  }

  lemma {:induction false} SystemAtIsRun(s: System, es: seq<TimedStep>, i: nat)
    requires i <= |es|
    ensures SystemAt(s, es, i) == RunSystem(s, StepsOf(es, i))
  {
    if i > 0 {
      SystemAtIsRun(s, es, i - 1);
      assert StepsOf(es, i)[..i - 1] == StepsOf(es, i - 1);
    }
  }

  // ----- one side of a timed run ---------------------------------------------------

  function Side(s: System, client: bool): Node {
    if client then s.client else s.server
  }

  function Incoming(s: System, client: bool): Link {
    if client then s.down else s.up
  }

  /** The operation of an endpoint that an action amounts to, if any. */
  function OpOf(x: Node, incoming: Link, action: Action): Option<Op> {
    match action
    case Local(op) => if IsLocal(op) then Some(op) else None
    case Send =>
      if x.ep.frames.queue == [] then None
      else if Encode(x.ep.config.maxFrameSize, x.ep.frames.queue[0]).Failure? then Some(OpSendStop)
      else Some(OpTransmit)
    case Carry(_) => None
    case Receive =>
      if !x.ep.task.Idle? then None
      else
        match Decode(x.ep.config.maxFrameSize, incoming.buffer)
        case NeedMore => None
        case Broken(_, _) => Some(OpRecvStop)
        case Yield(f, _) => Some(OpDispatch(f))
  }

  lemma ActIsOp(x: Node, outgoing: Link, incoming: Link, action: Action)
    ensures Act(x, outgoing, incoming, action).0 ==
      match OpOf(x, incoming, action)
      case None => x
      case Some(op) => Apply(x, op)
  {
  }

  function EventOf(s: System, e: TimedStep, client: bool): seq<Timed> {
    if e.step.byClient != client then []
    else
      match OpOf(Side(s, client), Incoming(s, client), e.step.action)
      case None => []
      case Some(op) => [Timed(e.at, op)]
  }

  /** What one side does before event i. */
  function SideEvents(s: System, es: seq<TimedStep>, client: bool, i: nat): seq<Timed>
    requires i <= |es|
  {
    if i == 0 then []
    else SideEvents(s, es, client, i - 1) + EventOf(SystemAt(s, es, i - 1), es[i - 1], client)
  }

  lemma SideMoves(s: System, e: TimedStep, client: bool)
    ensures Side(Move(s, e.step), client) ==
      var ops := EventOf(s, e, client);
      if ops == [] then Side(s, client) else Apply(Side(s, client), ops[0].op)
  {
    ActIsOp(s.client, s.up, s.down, e.step.action);
    ActIsOp(s.server, s.down, s.up, e.step.action);
  }

  lemma RunTimedSnoc(n: Node, es: seq<Timed>, e: Timed)
    ensures RunTimed(n, es + [e]) == Apply(RunTimed(n, es), e.op)
  {
    assert (es + [e])[..|es|] == es;
  }

  /** Each side of a run of the system is a run of an endpoint, so all that holds of endpoints holds there. */
  lemma {:induction false} SideIsRun(s: System, es: seq<TimedStep>, client: bool, i: nat)
    requires i <= |es|
    ensures Side(SystemAt(s, es, i), client) == RunTimed(Side(s, client), SideEvents(s, es, client, i))
  {
    if i > 0 {
      var before, e, own := SystemAt(s, es, i - 1), es[i - 1], SideEvents(s, es, client, i - 1);
      var more := EventOf(before, e, client);
      SideIsRun(s, es, client, i - 1);
      SideMoves(before, e, client);
      if more == [] {
        assert own + more == own;
      } else {
        assert more == [more[0]];
        RunTimedSnoc(Side(s, client), own, more[0]);
      }
    }
  }

  // ----- what the peer and the transport do -------------------------------------------

  /** When a side last handled a frame, how many it has handled, and how many it has put into its frame
      channel, before event i. */
  function LastAt(s: System, es: seq<TimedStep>, client: bool, i: nat): real
    requires i <= |es|
  {
    LastArrival(Side(s, client), SideEvents(s, es, client, i))
  }

  function HandledAt(s: System, es: seq<TimedStep>, client: bool, i: nat): nat
    requires i <= |es|
  {
    |Side(SystemAt(s, es, i), client).recvd|
  }

  function SentAt(s: System, es: seq<TimedStep>, client: bool, i: nat): nat
    requires i <= |es|
  {
    |Side(SystemAt(s, es, i), client).sent|
  }

  predicate OpenAt(s: System, es: seq<TimedStep>, client: bool, i: nat)
    requires i <= |es|
  {
    !Side(SystemAt(s, es, i), client).ep.closed
  }

  predicate BothOpen(s: System, es: seq<TimedStep>, i: nat)
    requires i <= |es|
  {
    OpenAt(s, es, true, i) && OpenAt(s, es, false, i)
  }

  predicate TimeOrdered(es: seq<TimedStep>) {
    forall i, j :: 0 <= i <= j < |es| ==> es[i].at <= es[j].at
  }

  /** A timed run of the whole system, with neither counter overflown. */
  predicate TimedRun(s: System, clientConfig: Config, serverConfig: Config, es: seq<TimedStep>) {
    && GoodConfig(clientConfig) && GoodConfig(serverConfig) && s == NewSystem(clientConfig, serverConfig)
    && SysFits(SystemAt(s, es, |es|)) && TimeOrdered(es)
  }

  /** Event j is a ping that found room in its side's frame channel. */
  predicate PingAt(s: System, es: seq<TimedStep>, client: bool, j: nat) {
    && j < |es| && es[j].step == Step(client, Local(OpPing))
    && SentAt(s, es, client, j) < SentAt(s, es, client, j + 1)
  }

  /** As long as both sessions are open, the side's ping due at a multiple of `interval` goes into its frame
      channel at most `wait` later. */
  ghost predicate PingsInTime(s: System, es: seq<TimedStep>, client: bool, interval: real, wait: real) {
    forall i, m: nat :: 0 <= i < |es| && BothOpen(s, es, i) && DueTime(m, interval) + wait < es[i].at ==>
      exists j :: 0 <= j < i && PingAt(s, es, client, j)
        && DueTime(m, interval) <= es[j].at <= DueTime(m, interval) + wait
  }

  /** As long as both sessions are open, what a side put into its frame channel the other has handled after
      `delay`. */
  predicate DeliversWithin(s: System, es: seq<TimedStep>, fromClient: bool, delay: real) {
    forall i, j :: 0 <= j < i < |es| && BothOpen(s, es, i) && es[j].at + delay < es[i].at ==>
      SentAt(s, es, fromClient, j + 1) <= HandledAt(s, es, !fromClient, i)
  }

  // ----- arrivals follow from pings ------------------------------------------------------

  lemma CallReceives(n: Node, k: nat, call: Call)
    requires k < |n.ep.handles| && k < |n.tracks|
    ensures CallNode(n, k, call).recvd == n.recvd
  {
  }

  lemma OnlyArrivals(n: Node, op: Op)
    ensures !Arrives(n, op) ==> Apply(n, op).recvd == n.recvd
  {
    match op
    case OpCall(k, call) => if At(n, k, CallPlace(call)) { CallReceives(n, k, call); }
    case _ =>
  }

  lemma LastArrivalSnoc(n: Node, es: seq<Timed>, e: Timed)
    ensures LastArrival(n, es + [e]) == if Arrives(RunTimed(n, es), e.op) then e.at else LastArrival(n, es)
  {
    assert (es + [e])[..|es|] == es;
  }

  /** An event either is an arrival at the side or leaves its receive log and its last arrival as they were. */
  lemma ArrivalOrNot(n: Node, own: seq<Timed>, before: System, e: TimedStep, client: bool)
    requires Side(before, client) == RunTimed(n, own)
    ensures var own' := own + EventOf(before, e, client);
      || LastArrival(n, own') == e.at
      || (LastArrival(n, own') == LastArrival(n, own)
          && Side(Move(before, e.step), client).recvd == Side(before, client).recvd)
  {
    var more := EventOf(before, e, client);
    SideMoves(before, e, client);
    if more == [] {
      assert own + more == own;
    } else {
      assert more == [more[0]];
      LastArrivalSnoc(n, own, more[0]);
      OnlyArrivals(Side(before, client), more[0].op);
    }
  }

  lemma ArrivalStep(s: System, es: seq<TimedStep>, client: bool, i: nat)
    requires i < |es|
    ensures LastAt(s, es, client, i + 1) == es[i].at ||
      (LastAt(s, es, client, i + 1) == LastAt(s, es, client, i)
       && HandledAt(s, es, client, i + 1) == HandledAt(s, es, client, i))
  {
    SideIsRun(s, es, client, i);
    ArrivalOrNot(Side(s, client), SideEvents(s, es, client, i), SystemAt(s, es, i), es[i], client);
  }

  /** Event p, at time at[p]: the last arrival is now, or it and the number of arrivals stay as they are. */
  predicate StepsAt(at: seq<real>, last: seq<real>, count: seq<nat>, p: nat)
    requires |last| == |count| == |at| + 1 && p < |at|
  {
    last[p + 1] == at[p] || (last[p + 1] == last[p] && count[p + 1] == count[p])
  }

  lemma {:induction false} LastFollows(at: seq<real>, last: seq<real>, count: seq<nat>, j: nat, i: nat)
    requires |last| == |count| == |at| + 1 && j <= i <= |at| && j < |at|
    requires forall p, q :: 0 <= p <= q < |at| ==> at[p] <= at[q]
    requires forall p :: 0 <= p < |at| ==> StepsAt(at, last, count, p)
    requires count[j] < count[i]
    ensures last[i] >= at[j]
    decreases i
  {
    assert StepsAt(at, last, count, i - 1);
    if last[i] != at[i - 1] {
      LastFollows(at, last, count, j, i - 1);
    }
  }

  function LastAts(s: System, es: seq<TimedStep>, client: bool): seq<real> {
    seq(|es| + 1, p requires 0 <= p <= |es| => LastAt(s, es, client, p))
  }

  function HandledAts(s: System, es: seq<TimedStep>, client: bool): seq<nat> {
    seq(|es| + 1, p requires 0 <= p <= |es| => HandledAt(s, es, client, p))
  }

  lemma HistorySteps(s: System, es: seq<TimedStep>, client: bool, p: nat)
    requires p < |es|
    ensures StepsAt(Times(es), LastAts(s, es, client), HandledAts(s, es, client), p)
  {
    ArrivalStep(s, es, client, p);
  }

  function Times(es: seq<TimedStep>): seq<real> {
    seq(|es|, p requires 0 <= p < |es| => es[p].at)
  }

  /** If a side has handled more frames before event i than before event j, its last arrival is not before
      event j. */
  lemma ArrivalBetween(s: System, es: seq<TimedStep>, client: bool, j: nat, i: nat)
    requires j <= i <= |es| && j < |es| && TimeOrdered(es)
    requires HandledAt(s, es, client, j) < HandledAt(s, es, client, i)
    ensures LastAt(s, es, client, i) >= es[j].at
  {
    var at, last, count := Times(es), LastAts(s, es, client), HandledAts(s, es, client);
    forall p | 0 <= p < |at|
      ensures StepsAt(at, last, count, p)
    {
      HistorySteps(s, es, client, p);
    }
    LastFollows(at, last, count, j, i);
  }

  lemma {:induction false} SysFitsEarlier(s: System, es: seq<TimedStep>, i: nat, top: nat)
    requires i <= top <= |es| && SysFits(SystemAt(s, es, top))
    ensures SysFits(SystemAt(s, es, i))
    decreases top
  {
    if i < top {
      FitsBefore(SystemAt(s, es, top - 1), es[top - 1].step);
      SysFitsEarlier(s, es, i, top - 1);
    }
  }

  /** A side has handled no more frames than the other has put into its frame channel. */
  lemma HandledWereSent(s: System, clientConfig: Config, serverConfig: Config, es: seq<TimedStep>, client: bool, i: nat)
    requires TimedRun(s, clientConfig, serverConfig, es) && i <= |es|
    ensures HandledAt(s, es, client, i) <= SentAt(s, es, !client, i)
  {
    SysFitsEarlier(s, es, i, |es|);
    SystemAtIsRun(s, es, i);
    SystemRunInv(clientConfig, serverConfig, StepsOf(es, i));
  }

  /** By the time a ping and its delivery are due, a frame has arrived since the ping was due. */
  lemma PingArrives(s: System, clientConfig: Config, serverConfig: Config, es: seq<TimedStep>, client: bool,
                    interval: real, wait: real, delay: real, i: nat, m: nat)
    requires TimedRun(s, clientConfig, serverConfig, es) && delay >= 0.0
    requires PingsInTime(s, es, !client, interval, wait) && DeliversWithin(s, es, !client, delay)
    requires i < |es| && BothOpen(s, es, i) && DueTime(m, interval) + (wait + delay) < es[i].at
    ensures LastAt(s, es, client, i) >= DueTime(m, interval)
  {
    var j :| 0 <= j < i && PingAt(s, es, !client, j)
      && DueTime(m, interval) <= es[j].at <= DueTime(m, interval) + wait;
    assert es[j].at + delay < es[i].at;
    assert SentAt(s, es, !client, j + 1) <= HandledAt(s, es, client, i);
    HandledWereSent(s, clientConfig, serverConfig, es, client, j);
    ArrivalBetween(s, es, client, j, i);
  }

  /** At most one more event, at time `at`. */
  predicate Grows(front: seq<Timed>, all: seq<Timed>, at: real) {
    front <= all && |all| <= |front| + 1 && (|all| > |front| ==> all[|front|].at == at)
  }

  lemma RegularOnce(n: Node, front: seq<Timed>, all: seq<Timed>, at: real, interval: real, jitter: real)
    requires RegularPeer(n, front, interval, jitter) && Grows(front, all, at)
    requires forall m: nat :: DueTime(m, interval) + jitter < at ==> LastArrival(n, front) >= DueTime(m, interval)
    ensures RegularPeer(n, all, interval, jitter)
  {
    forall i, m: nat | 0 <= i < |all| && DueTime(m, interval) + jitter < all[i].at
      ensures ArrivalBefore(n, all, i) >= DueTime(m, interval)
    {
      if i < |front| {
        assert all[i] == front[i] && all[..i] == front[..i];
        assert ArrivalBefore(n, front, i) >= DueTime(m, interval);
      } else {
        assert all[..i] == front;
      }
    }
  }

  predicate GrowsAt(at: seq<real>, own: seq<seq<Timed>>, p: nat)
    requires |own| == |at| + 1 && p < |at|
  {
    Grows(own[p], own[p + 1], at[p])
  }

  /** Whatever is due before event p has arrived. */
  ghost predicate ArrivedAt(n: Node, at: seq<real>, own: seq<seq<Timed>>, interval: real, jitter: real, p: nat)
    requires |own| == |at| + 1 && p < |at|
  {
    forall m: nat :: DueTime(m, interval) + jitter < at[p] ==> LastArrival(n, own[p]) >= DueTime(m, interval)
  }

  lemma {:induction false} RegularChain(n: Node, at: seq<real>, own: seq<seq<Timed>>, interval: real, jitter: real,
                                        i: nat)
    requires |own| == |at| + 1 && own[0] == [] && i <= |at|
    requires forall p :: 0 <= p < i ==> GrowsAt(at, own, p)
    requires forall p :: 0 <= p < i ==> ArrivedAt(n, at, own, interval, jitter, p)
    ensures RegularPeer(n, own[i], interval, jitter)
  {
    if i > 0 {
      RegularChain(n, at, own, interval, jitter, i - 1);
      assert GrowsAt(at, own, i - 1) && ArrivedAt(n, at, own, interval, jitter, i - 1);
      RegularOnce(n, own[i - 1], own[i], at[i - 1], interval, jitter);
    }
  }

  lemma SideGrows(s: System, es: seq<TimedStep>, client: bool, i: nat)
    requires i < |es|
    ensures Grows(SideEvents(s, es, client, i), SideEvents(s, es, client, i + 1), es[i].at)
  {
    EventOfOne(SystemAt(s, es, i), es[i], client);
  }

  lemma EventOfOne(s: System, e: TimedStep, client: bool)
    ensures |EventOf(s, e, client)| <= 1 && (EventOf(s, e, client) != [] ==> EventOf(s, e, client)[0].at == e.at)
  {
  }

  lemma EventHistory(s: System, es: seq<TimedStep>, client: bool) returns (own: seq<seq<Timed>>)
    ensures |own| == |es| + 1 && own[0] == []
    ensures forall p :: 0 <= p <= |es| ==> own[p] == SideEvents(s, es, client, p)
    ensures forall p :: 0 <= p < |es| ==> GrowsAt(Times(es), own, p)
  {
    own := seq(|es| + 1, p requires 0 <= p <= |es| => SideEvents(s, es, client, p));
    forall p | 0 <= p < |es|
      ensures GrowsAt(Times(es), own, p)
    {
      SideGrows(s, es, client, p);
    }
  }

  lemma AllPingsArrive(s: System, clientConfig: Config, serverConfig: Config, es: seq<TimedStep>, client: bool,
                       interval: real, wait: real, delay: real, i: nat)
    requires TimedRun(s, clientConfig, serverConfig, es) && delay >= 0.0
    requires PingsInTime(s, es, !client, interval, wait) && DeliversWithin(s, es, !client, delay)
    requires i < |es| && BothOpen(s, es, i)
    ensures forall m: nat :: DueTime(m, interval) + (wait + delay) < es[i].at ==>
      LastAt(s, es, client, i) >= DueTime(m, interval)
  {
    forall m: nat | DueTime(m, interval) + (wait + delay) < es[i].at
      ensures LastAt(s, es, client, i) >= DueTime(m, interval)
    {
      PingArrives(s, clientConfig, serverConfig, es, client, interval, wait, delay, i, m);
    }
  }

  lemma PeerIsRegular(s: System, clientConfig: Config, serverConfig: Config, es: seq<TimedStep>, client: bool,
                      interval: real, wait: real, delay: real, i: nat)
    requires TimedRun(s, clientConfig, serverConfig, es) && delay >= 0.0
    requires PingsInTime(s, es, !client, interval, wait) && DeliversWithin(s, es, !client, delay)
    requires i <= |es| && forall j :: 0 <= j < i ==> BothOpen(s, es, j)
    ensures RegularPeer(Side(s, client), SideEvents(s, es, client, i), interval, wait + delay)
  {
    var n, at, jitter := Side(s, client), Times(es), wait + delay;
    var own := EventHistory(s, es, client);
    forall p | 0 <= p < i
      ensures ArrivedAt(n, at, own, interval, jitter, p)
    {
      assert BothOpen(s, es, p);
      AllPingsArrive(s, clientConfig, serverConfig, es, client, interval, wait, delay, p);
      assert own[p] == SideEvents(s, es, client, p);
    }
    RegularChain(n, at, own, interval, jitter, i);
  }

  lemma {:induction false} SideEventsPrefix(s: System, es: seq<TimedStep>, client: bool, i: nat, top: nat)
    requires i <= top <= |es|
    ensures SideEvents(s, es, client, i) <= SideEvents(s, es, client, top)
    decreases top
  {
    if i < top {
      SideEventsPrefix(s, es, client, i, top - 1);
      SideGrows(s, es, client, top - 1);
      PrefixTransitive(SideEvents(s, es, client, i), SideEvents(s, es, client, top - 1),
                       SideEvents(s, es, client, top));
    }
  }

  lemma PrefixTransitive(a: seq<Timed>, b: seq<Timed>, c: seq<Timed>)
    requires a <= b <= c
    ensures a <= c
  {
  }

  /** The settings under which pings come often enough: this side's timeout exceeds the peer's interval by more
      than a ping's wait for room, the delay until its frame is handled, and what this side's ticks are late. */
  predicate Frequent(own: Config, peer: Config, late: real, wait: real, delay: real) {
    && own.enableKeepAlive && own.keepAliveTimeout > 0.0 && peer.keepAliveInterval > 0.0
    && 0.0 <= late && 0.0 <= wait && 0.0 <= delay
    && wait + delay < own.keepAliveTimeout - late - peer.keepAliveInterval
  }

  /** What is assumed of a timed run when one side is to be kept open by the other's pings: its own ticks are
      taken `late` at most, and as long as both sessions are open the peer's ping due at each multiple of its
      own interval finds room in its frame channel at most `wait` after it was due, and what the peer queues is
      handled here within `delay`. */
  ghost predicate Fed(s: System, es: seq<TimedStep>, client: bool, late: real, wait: real, delay: real) {
    var own, peer := Side(s, client).ep.config, Side(s, !client).ep.config;
    && Frequent(own, peer, late, wait, delay)
    && Scheduled(Side(s, client), SideEvents(s, es, client, |es|), own.keepAliveTimeout, late)
    && PingsInTime(s, es, !client, peer.keepAliveInterval, wait)
    && DeliversWithin(s, es, !client, delay)
  }

  lemma OpenOneMore(s: System, clientConfig: Config, serverConfig: Config, es: seq<TimedStep>, client: bool,
                    late: real, wait: real, delay: real, i: nat)
    requires TimedRun(s, clientConfig, serverConfig, es) && Fed(s, es, client, late, wait, delay)
    requires i <= |es| && forall j :: 0 <= j < i ==> BothOpen(s, es, j)
    ensures OpenAt(s, es, client, i)
  {
    var n, own, interval := Side(s, client), Side(s, client).ep.config, Side(s, !client).ep.config.keepAliveInterval;
    var events, all := SideEvents(s, es, client, i), SideEvents(s, es, client, |es|);
    PeerIsRegular(s, clientConfig, serverConfig, es, client, interval, wait, delay, i);
    SideIsRun(s, es, client, i);
    SideIsNew(clientConfig, serverConfig, client);
    SysFitsEarlier(s, es, i, |es|);
    SideFits(SystemAt(s, es, i), client);
    SideEventsPrefix(s, es, client, i, |es|);
    assert events == all[..|events|];
    ScheduledPrefix(n, all, |events|, own.keepAliveTimeout, late);
    NopsKeepOpen(n, client, own, events, late, interval, wait + delay);
  }

  /** A pinging peer keeps a session open: while the peer's session is open, and pings and delivery keep their
      times, keep-alive never closes this one. */
  lemma {:induction false} PingingPeerKeepsOpen(s: System, clientConfig: Config, serverConfig: Config,
                                                es: seq<TimedStep>, client: bool, peer: bool, late: real,
                                                wait: real, delay: real, i: nat)
    requires TimedRun(s, clientConfig, serverConfig, es) && Fed(s, es, client, late, wait, delay)
    requires peer == !client && i <= |es| && forall j :: 0 <= j < i ==> OpenAt(s, es, peer, j)
    ensures OpenAt(s, es, client, i)
  {
    forall j | 0 <= j < i
      ensures BothOpen(s, es, j)
    {
      PingingPeerKeepsOpen(s, clientConfig, serverConfig, es, client, peer, late, wait, delay, j);
      assert OpenAt(s, es, peer, j);
    }
    OpenOneMore(s, clientConfig, serverConfig, es, client, late, wait, delay, i);
  }

  /** Two sessions keep each other open. If both ping often enough for the other's timeout, and pings and
      delivery keep their times as long as both sessions are open, then keep-alive never closes either. */
  lemma {:induction false} MutualKeepAlive(s: System, clientConfig: Config, serverConfig: Config,
                                           es: seq<TimedStep>, late: real, wait: real, delay: real, i: nat)
    requires TimedRun(s, clientConfig, serverConfig, es) && i <= |es|
    requires Fed(s, es, true, late, wait, delay) && Fed(s, es, false, late, wait, delay)
    ensures BothOpen(s, es, i)
  {
    forall j | 0 <= j < i
      ensures BothOpen(s, es, j)
    {
      MutualKeepAlive(s, clientConfig, serverConfig, es, late, wait, delay, j);
    }
    OpenOneMore(s, clientConfig, serverConfig, es, true, late, wait, delay, i);
    OpenOneMore(s, clientConfig, serverConfig, es, false, late, wait, delay, i);
  }

  lemma SideIsNew(clientConfig: Config, serverConfig: Config, client: bool)
    requires GoodConfig(clientConfig) && GoodConfig(serverConfig)
    ensures var n := Side(NewSystem(clientConfig, serverConfig), client);
      n == NewNode(client, n.ep.config) && n.ep.config.Validates()
  {
  }

  lemma SideFits(s: System, client: bool)
    requires SysFits(s)
    ensures LedgerFits(Side(s, client))
  {
  }
}
