/** Keep-alive with ticks due at 0, T, 2T, ... and taken late at most: when the session is closed and when not. */
module KeepAlive {
  import opened Frames
  import opened StreamSpec
  import SessionSpec
  import opened NodeSpec
  import opened NodeSteps
  import opened NodeTheorems

  datatype Timed = Timed(at: real, op: Op)

  function RunTimed(n: Node, es: seq<Timed>): Node {
    if es == [] then n else Apply(RunTimed(n, es[..|es| - 1]), es[|es| - 1].op)
  }

  function OpsOf(es: seq<Timed>): seq<Op> {
    seq(|es|, i requires 0 <= i < |es| => es[i].op)
  }

  lemma {:induction false} RunTimedIsRun(n: Node, es: seq<Timed>)
    ensures RunTimed(n, es) == Run(n, OpsOf(es))
  {
    if es != [] {
      RunTimedIsRun(n, es[..|es| - 1]);
      assert OpsOf(es)[..|es| - 1] == OpsOf(es[..|es| - 1]);
    }
  }

  /** When the next timeout tick is due. */
  function NextTick(es: seq<Timed>, period: real): real {
    if es == [] then 0.0
    else NextTick(es[..|es| - 1], period) + if es[|es| - 1].op.OpTimeoutTick? then period else 0.0
  }

  function Now(es: seq<Timed>): real {
    if es == [] then 0.0 else es[|es| - 1].at
  }

  /** Time does not run backwards. A tick is taken when it is due or at most `late` afterwards, and not while a
      ping waits for room in the frame channel; nothing happens later than that before it is taken. Only ticks
      may close the session. With `late` zero the ticks come at 0, T, 2T and so on. */
  predicate Scheduled(n: Node, es: seq<Timed>, period: real, late: real) {
    es == [] ||
    var front, e := es[..|es| - 1], es[|es| - 1];
    && Scheduled(n, front, period, late)
    && Now(front) <= e.at <= NextTick(front, period) + late
    && (e.op.OpTimeoutTick? ==> NextTick(front, period) <= e.at && !RunTimed(n, front).ep.pinging)
    && !e.op.OpCloseSession? && !e.op.OpSendStop? && !e.op.OpRecvStop?
  }

  /** The receive loop takes the frame. */
  predicate Arrives(n: Node, op: Op) {
    op.OpDispatch? && n.ep.task.Idle?
  }

  /** When the last frame was handled; the session's start counts as one. */
  function LastArrival(n: Node, es: seq<Timed>): real {
    if es == [] then 0.0
    else if Arrives(RunTimed(n, es[..|es| - 1]), es[|es| - 1].op) then es[|es| - 1].at
    else LastArrival(n, es[..|es| - 1])
  }

  /** The flag and the times, while the session is open. */
  predicate Watching(n: Node, es: seq<Timed>, period: real, late: real) {
    var m := RunTimed(n, es);
    var due, last := NextTick(es, period), LastArrival(n, es);
    && due - period <= Now(es) <= due + late
    && last <= Now(es)
    && (!m.ep.closed ==>
          && (m.ep.dataReceived ==> due - period <= last)
          && (!m.ep.dataReceived ==> due - 2.0 * period <= last <= due - period + late))
  }

  lemma DispatchFlags(n: Node, f: Frame)
    ensures DispatchNode(n, f).ep.closed == n.ep.closed && DispatchNode(n, f).ep.dataReceived
  {
    DispatchHistory(n, f);
    SessionSpec.HandleFrameKeeps(n.ep, f);
  }

  lemma CallFlags(n: Node, k: nat, call: Call)
    requires k < |n.ep.handles| && k < |n.tracks|
    ensures CallNode(n, k, call).ep.closed == n.ep.closed && CallNode(n, k, call).ep.dataReceived == n.ep.dataReceived
  {
  }

  lemma AppCallFlags(n: Node, op: Op)
    requires IsCall(op)
    ensures Apply(n, op).ep.closed == n.ep.closed && Apply(n, op).ep.dataReceived == n.ep.dataReceived
  {
    match op
    case OpCall(k, call) => if At(n, k, CallPlace(call)) { CallFlags(n, k, call); }
    case _ =>
  }

  /** What an operation other than a tick does to the flags. */
  lemma FlagsElsewhere(n: Node, op: Op)
    requires !op.OpTimeoutTick? && !op.OpCloseSession? && !op.OpSendStop? && !op.OpRecvStop?
    ensures Apply(n, op).ep.closed == n.ep.closed
    ensures Apply(n, op).ep.dataReceived == (n.ep.dataReceived || Arrives(n, op))
  {
    if IsCall(op) {
      AppCallFlags(n, op);
    } else if op.OpDispatch? {
      DispatchFlags(n, op.frame);
    }
  }

  lemma RunPositive(n: Node, isClient: bool, config: Config, es: seq<Timed>)
    requires config.Validates() && n == NewNode(isClient, config) && LedgerFits(RunTimed(n, es))
    ensures RunTimed(n, es).ep.tokens > 0 && RunTimed(n, es).ep.config == config
  {
    RunTimedIsRun(n, es);
    TokenLedger(isClient, config, OpsOf(es));
    NeverEntersTokenLoop(isClient, config, OpsOf(es));
    RunRole(isClient, config, OpsOf(es));
    PositiveTokens(RunTimed(n, es));
  }

  lemma {:induction false} AlwaysWatching(n: Node, isClient: bool, config: Config, es: seq<Timed>, late: real)
    requires config.Validates() && config.enableKeepAlive && config.keepAliveTimeout > 0.0 && late >= 0.0
    requires n == NewNode(isClient, config) && LedgerFits(RunTimed(n, es))
    requires Scheduled(n, es, config.keepAliveTimeout, late)
    ensures Watching(n, es, config.keepAliveTimeout, late)
  {
    if es != [] {
      var front, e := es[..|es| - 1], es[|es| - 1];
      ApplyExtends(RunTimed(n, front), e.op);
      AlwaysWatching(n, isClient, config, front, late);
      RunPositive(n, isClient, config, front);
      if !e.op.OpTimeoutTick? {
        FlagsElsewhere(RunTimed(n, front), e.op);
      }
    }
  }

  lemma ScheduledLast(n: Node, front: seq<Timed>, e: Timed, period: real, late: real)
    requires Scheduled(n, front + [e], period, late)
    ensures Scheduled(n, front, period, late)
    ensures e.op.OpTimeoutTick? ==> NextTick(front, period) <= e.at && !RunTimed(n, front).ep.pinging
    ensures !e.op.OpCloseSession? && !e.op.OpSendStop? && !e.op.OpRecvStop?
  {
    assert (front + [e])[..|front|] == front;
  }

  /** Only a tick that finds the flag down closes the session. */
  lemma ClosersAreTicks(m: Node, op: Op)
    requires !op.OpCloseSession? && !op.OpSendStop? && !op.OpRecvStop?
    requires !m.ep.closed && Apply(m, op).ep.closed
    ensures op.OpTimeoutTick? && !m.ep.dataReceived
  {
    if !op.OpTimeoutTick? {
      FlagsElsewhere(m, op);
    }
  }

  lemma ClosingEvent(n: Node, isClient: bool, config: Config, front: seq<Timed>, e: Timed, late: real)
    requires config.Validates() && config.enableKeepAlive && config.keepAliveTimeout > 0.0 && late >= 0.0
    requires n == NewNode(isClient, config) && LedgerFits(RunTimed(n, front))
    requires Scheduled(n, front + [e], config.keepAliveTimeout, late)
    requires !RunTimed(n, front).ep.closed && Apply(RunTimed(n, front), e.op).ep.closed
    ensures e.op.OpTimeoutTick?
    ensures var last := LastArrival(n, front);
      last + config.keepAliveTimeout - late <= e.at <= last + 2.0 * config.keepAliveTimeout + late
  {
    ScheduledLast(n, front, e, config.keepAliveTimeout, late);
    AlwaysWatching(n, isClient, config, front, late);
    ClosersAreTicks(RunTimed(n, front), e.op);
  }

  /** The keep-alive bound. A session is closed only by a tick, no earlier than one period and no later than
      two periods after the last frame was handled, give or take how late its ticks are taken. Both bounds are
      met: see LatestClose and EarliestClose. */
  lemma ClosedWithinBounds(n: Node, isClient: bool, config: Config, es: seq<Timed>, i: nat, late: real)
    requires config.Validates() && config.enableKeepAlive && config.keepAliveTimeout > 0.0 && late >= 0.0
    requires n == NewNode(isClient, config) && i < |es| && LedgerFits(RunTimed(n, es[..i + 1]))
    requires Scheduled(n, es[..i + 1], config.keepAliveTimeout, late)
    requires !RunTimed(n, es[..i]).ep.closed && RunTimed(n, es[..i + 1]).ep.closed
    ensures es[i].op.OpTimeoutTick?
    ensures var last := LastArrival(n, es[..i]);
      last + config.keepAliveTimeout - late <= es[i].at <= last + 2.0 * config.keepAliveTimeout + late
  {
    assert es[..i + 1] == es[..i] + [es[i]] && es[..i + 1][..i] == es[..i];
    ApplyExtends(RunTimed(n, es[..i]), es[i].op);
    ClosingEvent(n, isClient, config, es[..i], es[i], late);
  }

  /** A session still open has handled a frame within the last two periods and what its ticks may be late. */
  lemma OpenMeansRecent(n: Node, isClient: bool, config: Config, es: seq<Timed>, late: real)
    requires config.Validates() && config.enableKeepAlive && config.keepAliveTimeout > 0.0 && late >= 0.0
    requires n == NewNode(isClient, config) && LedgerFits(RunTimed(n, es))
    requires Scheduled(n, es, config.keepAliveTimeout, late)
    requires !RunTimed(n, es).ep.closed
    ensures Now(es) <= LastArrival(n, es) + 2.0 * config.keepAliveTimeout + late
  {
    AlwaysWatching(n, isClient, config, es, late);
  }

  lemma {:induction false} ScheduledPrefix(n: Node, es: seq<Timed>, i: nat, period: real, late: real)
    requires i <= |es| && Scheduled(n, es, period, late)
    ensures Scheduled(n, es[..i], period, late)
    ensures LedgerFits(RunTimed(n, es)) ==> LedgerFits(RunTimed(n, es[..i]))
    decreases |es|
  {
    if i == |es| {
      assert es[..i] == es;
    } else {
      var front := es[..|es| - 1];
      assert front[..i] == es[..i];
      ScheduledPrefix(n, front, i, period, late);
      ApplyExtends(RunTimed(n, front), es[|es| - 1].op);
    }
  }

  /** When the last frame before event i was handled. */
  function ArrivalBefore(n: Node, es: seq<Timed>, i: nat): real
    requires i <= |es|
  {
    LastArrival(n, es[..i])
  }

  /** Less than `gap` has passed since the last frame, at every event. */
  predicate NoLongGap(n: Node, es: seq<Timed>, gap: real) {
    forall i :: 0 <= i < |es| ==> es[i].at < ArrivalBefore(n, es, i) + gap
  }

  /** If every gap between frames is shorter than the period less what ticks may be late, keep-alive never
      closes the session. */
  lemma {:induction false} NoGapNoTimeout(n: Node, isClient: bool, config: Config, es: seq<Timed>, late: real)
    requires config.Validates() && config.enableKeepAlive && config.keepAliveTimeout > 0.0 && late >= 0.0
    requires n == NewNode(isClient, config) && LedgerFits(RunTimed(n, es))
    requires Scheduled(n, es, config.keepAliveTimeout, late)
    requires NoLongGap(n, es, config.keepAliveTimeout - late)
    ensures !RunTimed(n, es).ep.closed
  {
    if es != [] {
      var front := es[..|es| - 1];
      ApplyExtends(RunTimed(n, front), es[|es| - 1].op);
      forall i | 0 <= i < |front|
        ensures front[i].at < ArrivalBefore(n, front, i) + (config.keepAliveTimeout - late)
      {
        assert front[..i] == es[..i];
        assert ArrivalBefore(n, front, i) == ArrivalBefore(n, es, i);
      }
      NoGapNoTimeout(n, isClient, config, front, late);
      assert es[..|es| - 1 + 1] == es;
      assert es[|es| - 1].at < ArrivalBefore(n, es, |es| - 1) + (config.keepAliveTimeout - late);
      if RunTimed(n, es).ep.closed {
        ClosedWithinBounds(n, isClient, config, es, |es| - 1, late);
      }
    }
  }

  /** The peer sends a frame every `interval`, and each is handled at most `jitter` after it was due. */
  ghost predicate RegularPeer(n: Node, es: seq<Timed>, interval: real, jitter: real) {
    forall i, m: nat :: 0 <= i < |es| && DueTime(m, interval) + jitter < es[i].at ==>
      ArrivalBefore(n, es, i) >= DueTime(m, interval)
  }

  /** Multiple m of the interval. */
  function DueTime(m: nat, interval: real): real {
    if m == 0 then 0.0 else DueTime(m - 1, interval) + interval
  }

  lemma {:induction false} DueTimeIs(m: nat, interval: real)
    ensures DueTime(m, interval) == m as real * interval
  {
    if m > 0 {
      DueTimeIs(m - 1, interval);
      assert m as real * interval == (m - 1) as real * interval + interval;
    }
  }

  lemma MulLess(a: real, b: real, c: real)
    requires a < b && c > 0.0
    ensures a * c < b * c
  {
  }

  lemma Undivide(x: real, interval: real, r: real)
    requires interval > 0.0 && r == x / interval
    ensures r * interval == x
  {
  }

  lemma Bracket(x: real, interval: real, r: real, low: real)
    requires interval > 0.0 && r == x / interval && low < r <= low + 1.0
    ensures low * interval < x <= low * interval + interval
  {
    Undivide(x, interval, r);
    MulLess(low, r, interval);
    assert (low + 1.0) * interval == low * interval + interval;
    if r < low + 1.0 {
      MulLess(r, low + 1.0, interval);
    }
  }

  /** Some multiple of the interval lies less than one interval before x. */
  lemma MultipleBelow(x: real, interval: real) returns (m: nat)
    requires x > 0.0 && interval > 0.0
    ensures DueTime(m, interval) < x <= DueTime(m, interval) + interval
  {
    var r := x / interval;
    var q := r.Floor;
    m := if r == q as real then q - 1 else q;
    Bracket(x, interval, r, m as real);
    DueTimeIs(m, interval);
  }

  /** A peer that sends NOPs every interval with jitter below timeout minus interval, less what ticks may be
      late, keeps the session open. */
  lemma NopsKeepOpen(n: Node, isClient: bool, config: Config, es: seq<Timed>, late: real, interval: real, jitter: real)
    requires config.Validates() && config.enableKeepAlive && config.keepAliveTimeout > 0.0 && late >= 0.0
    requires n == NewNode(isClient, config) && LedgerFits(RunTimed(n, es))
    requires Scheduled(n, es, config.keepAliveTimeout, late)
    requires interval > 0.0 && 0.0 <= jitter < config.keepAliveTimeout - late - interval
    requires RegularPeer(n, es, interval, jitter)
    ensures !RunTimed(n, es).ep.closed
  {
    forall i | 0 <= i < |es|
      ensures es[i].at < ArrivalBefore(n, es, i) + (config.keepAliveTimeout - late)
    {
      if es[i].at > jitter {
        var m := MultipleBelow(es[i].at - jitter, interval);
        assert DueTime(m, interval) + jitter < es[i].at;
      } else {
        ArrivalsNotNegative(n, es[..i], config.keepAliveTimeout, late) by {
          ScheduledPrefix(n, es, i, config.keepAliveTimeout, late);
        }
      }
    }
    NoGapNoTimeout(n, isClient, config, es, late);
  }

  lemma {:induction false} ArrivalsNotNegative(n: Node, es: seq<Timed>, period: real, late: real)
    requires Scheduled(n, es, period, late)
    ensures 0.0 <= LastArrival(n, es) && 0.0 <= Now(es)
  {
    if es != [] {
      ArrivalsNotNegative(n, es[..|es| - 1], period, late);
    }
  }

  // ----- keep-alive switched off --------------------------------------------------------

  /** With keep-alive off, nothing but `close` and the end of a loop ever closes the session, however long it is
      idle and however often ticks come. */
  lemma {:induction false} OffNeverCloses(isClient: bool, config: Config, ops: seq<Op>)
    requires !config.enableKeepAlive
    requires forall i :: 0 <= i < |ops| ==> !ops[i].OpCloseSession? && !ops[i].OpSendStop? && !ops[i].OpRecvStop?
    ensures !Run(NewNode(isClient, config), ops).ep.closed
  {
    if ops != [] {
      var front, op := ops[..|ops| - 1], ops[|ops| - 1];
      OffNeverCloses(isClient, config, front);
      RunRole(isClient, config, front);
      if !op.OpTimeoutTick? {
        FlagsElsewhere(Run(NewNode(isClient, config), front), op);
      }
    }
  }

  predicate NoNops(fs: seq<Frame>) {
    forall i :: 0 <= i < |fs| ==> !fs[i].cmd.Nop?
  }

  lemma CallSendsNoNop(ep: SessionSpec.Endpoint, h: Handle, call: Call)
    ensures NoNops(Emitted(ep.frames, CallEffect(ep, h, call).1))
  {
  }

  lemma NoNopStep(n: Node, op: Op)
    requires !n.ep.config.enableKeepAlive && NoNops(n.sent)
    ensures NoNops(Apply(n, op).sent)
  {
    match op
    case OpCall(k, call) => if At(n, k, CallPlace(call)) { CallSendsNoNop(n.ep, n.ep.handles[k], call); }
    case OpDispatch(f) => DispatchHistory(n, f);
    case _ =>
  }

  /** With keep-alive off no NOP is ever sent. */
  lemma {:induction false} OffSendsNoNop(isClient: bool, config: Config, ops: seq<Op>)
    requires !config.enableKeepAlive
    ensures NoNops(Run(NewNode(isClient, config), ops).sent)
  {
    if ops != [] {
      OffSendsNoNop(isClient, config, ops[..|ops| - 1]);
      RunRole(isClient, config, ops[..|ops| - 1]);
      NoNopStep(Run(NewNode(isClient, config), ops[..|ops| - 1]), ops[|ops| - 1]);
    }
  }

  /** With keep-alive on, a ping puts a NOP into the frame channel exactly if there is room; otherwise it waits as
      long as the send loop lives, and holds up the ticks of its loop. */
  lemma PingSends(n: Node)
    requires n.ep.config.enableKeepAlive
    ensures var n' := Apply(n, OpPing);
      && n'.sent == n.sent + (if HasRoom(n.ep.frames) then [NewNop(n.ep.config.version)] else [])
      && (n'.ep.pinging <==> n.ep.frames.connected && !HasRoom(n.ep.frames))
      && (n'.ep.pinging ==> Apply(n', OpTimeoutTick) == n')
  {
  }

  // ----- the bounds are met ----------------------------------------------------------

  /** Where a run stands: when the next tick is due, when the last frame came, what time it is, and whether
      data was received, a ping waits and the one place in the frame channel is taken. */
  datatype Clock = Clock(due: real, last: real, now: real, flag: bool, waits: bool, full: bool)

  predicate Shows(n: Node, es: seq<Timed>, period: real, late: real, c: Clock) {
    var m := RunTimed(n, es);
    && Scheduled(n, es, period, late)
    && NextTick(es, period) == c.due && LastArrival(n, es) == c.last && Now(es) == c.now
    && m.ep.config.enableKeepAlive && !m.ep.closed && m.ep.task.Idle? && m.ep.tokens > 0
    && m.ep.dataReceived == c.flag && m.ep.pinging == c.waits
    && m.ep.frames.connected && m.ep.frames.capacity == 1
    && |m.ep.frames.queue| == if c.full then 1 else 0
  }

  lemma Happens(n: Node, es: seq<Timed>, e: Timed, period: real, late: real)
    requires Scheduled(n, es, period, late) && Now(es) <= e.at <= NextTick(es, period) + late
    requires e.op.OpTimeoutTick? ==> NextTick(es, period) <= e.at && !RunTimed(n, es).ep.pinging
    requires !e.op.OpCloseSession? && !e.op.OpSendStop? && !e.op.OpRecvStop?
    ensures var es' := es + [e];
      && Scheduled(n, es', period, late) && RunTimed(n, es') == Apply(RunTimed(n, es), e.op)
      && NextTick(es', period) == NextTick(es, period) + (if e.op.OpTimeoutTick? then period else 0.0)
      && LastArrival(n, es') == (if Arrives(RunTimed(n, es), e.op) then e.at else LastArrival(n, es))
      && Now(es') == e.at
  {
    assert (es + [e])[..|es|] == es;
  }

  /** A tick that finds the flag up. */
  lemma TickHappens(n: Node, es: seq<Timed>, at: real, period: real, late: real, c: Clock)
    requires Shows(n, es, period, late, c) && c.flag && !c.waits && c.due <= at <= c.due + late && c.now <= at
    ensures Shows(n, es + [Timed(at, OpTimeoutTick)], period, late, c.(due := c.due + period, now := at, flag := false))
  {
    Happens(n, es, Timed(at, OpTimeoutTick), period, late);
  }

  lemma NopHappens(n: Node, es: seq<Timed>, at: real, period: real, late: real, c: Clock)
    requires Shows(n, es, period, late, c) && c.now <= at <= c.due + late
    ensures Shows(n, es + [Timed(at, OpDispatch(NewNop(1)))], period, late, c.(last := at, now := at, flag := true))
  {
    Happens(n, es, Timed(at, OpDispatch(NewNop(1))), period, late);
  }

  lemma PingHappens(n: Node, es: seq<Timed>, at: real, period: real, late: real, c: Clock)
    requires Shows(n, es, period, late, c) && c.now <= at <= c.due + late
    ensures Shows(n, es + [Timed(at, OpPing)], period, late, c.(now := at, waits := c.full, full := true))
  {
    Happens(n, es, Timed(at, OpPing), period, late);
  }

  lemma TransmitHappens(n: Node, es: seq<Timed>, at: real, period: real, late: real, c: Clock)
    requires Shows(n, es, period, late, c) && c.now <= at <= c.due + late && c.full
    ensures Shows(n, es + [Timed(at, OpTransmit)], period, late, c.(now := at, full := false))
  {
    Happens(n, es, Timed(at, OpTransmit), period, late);
  }

  lemma TickCloses(n: Node, es: seq<Timed>, at: real, period: real, late: real, c: Clock)
    requires Shows(n, es, period, late, c) && !c.flag && !c.waits && c.due <= at <= c.due + late && c.now <= at
    ensures var es' := es + [Timed(at, OpTimeoutTick)]; Scheduled(n, es', period, late) && RunTimed(n, es').ep.closed
    ensures LastArrival(n, es) == c.last
  {
    Happens(n, es, Timed(at, OpTimeoutTick), period, late);
  }

  lemma NothingYet(isClient: bool, config: Config, late: real)
    requires config.Validates() && config.enableKeepAlive && config.frameChannelCapacity == 1
    requires config.maxReceiveBuffer < SessionSpec.TWO_63
    ensures var c := Clock(0.0, 0.0, 0.0, true, false, false);
      Shows(NewNode(isClient, config), [], config.keepAliveTimeout, late, c)
  {
  }

  /** A ping fills the frame channel, the next one waits, and only later the send loop makes room for it. */
  function PingWaits(from: real, until: real): seq<Timed> {
    [Timed(from, OpPing)] + [Timed(from, OpPing)] + [Timed(until, OpTransmit)] + [Timed(until, OpPing)]
  }

  lemma PingWaitsHappens(n: Node, es: seq<Timed>, from: real, until: real, period: real, late: real, c: Clock)
    requires Shows(n, es, period, late, c) && !c.full && c.now <= from <= until <= c.due + late
    ensures Shows(n, es + PingWaits(from, until), period, late, c.(now := until, waits := false, full := true))
  {
    var a, b, d := es + [Timed(from, OpPing)], es + [Timed(from, OpPing)] + [Timed(from, OpPing)],
      es + [Timed(from, OpPing)] + [Timed(from, OpPing)] + [Timed(until, OpTransmit)];
    PingHappens(n, es, from, period, late, c);
    var c1 := c.(now := from, waits := c.full, full := true);
    PingHappens(n, a, from, period, late, c1);
    var c2 := c1.(waits := true);
    TransmitHappens(n, b, until, period, late, c2);
    var c3 := c2.(now := until, full := false);
    PingHappens(n, d, until, period, late, c3);
    assert es + PingWaits(from, until) == d + [Timed(until, OpPing)];
  }

  /** A session may stay open two periods after its last frame and as long again as a ping of its own waits for
      room: a frame comes right after the first tick, and the third tick is held up. */
  lemma LatestClose(isClient: bool, config: Config, late: real) returns (es: seq<Timed>, i: nat)
    requires config.Validates() && config.enableKeepAlive && config.frameChannelCapacity == 1
    requires config.maxReceiveBuffer < SessionSpec.TWO_63 && config.keepAliveTimeout > 0.0 && late >= 0.0
    ensures var n, period := NewNode(isClient, config), config.keepAliveTimeout;
      && i < |es| && es[..i + 1] == es && Scheduled(n, es, period, late)
      && !RunTimed(n, es[..i]).ep.closed && RunTimed(n, es).ep.closed
      && es[i].at == LastArrival(n, es[..i]) + 2.0 * period + late
  {
    var n, period := NewNode(isClient, config), config.keepAliveTimeout;
    NothingYet(isClient, config, late);
    var c := Clock(0.0, 0.0, 0.0, true, false, false);
    TickHappens(n, [], 0.0, period, late, c);
    var e1 := [] + [Timed(0.0, OpTimeoutTick)];
    NopHappens(n, e1, 0.0, period, late, c.(due := period, flag := false));
    var e2 := e1 + [Timed(0.0, OpDispatch(NewNop(1)))];
    TickHappens(n, e2, period, period, late, c.(due := period));
    var e3 := e2 + [Timed(period, OpTimeoutTick)];
    var until := 2.0 * period + late;
    var c3 := c.(due := 2.0 * period, now := period, flag := false);
    PingWaitsHappens(n, e3, period, until, period, late, c3);
    var e4 := e3 + PingWaits(period, until);
    TickCloses(n, e4, until, period, late, c3.(now := until, full := true));
    es, i := e4 + [Timed(until, OpTimeoutTick)], |e4|;
    assert es[..i] == e4 && es[..i + 1] == es;
  }

  /** And a session may be closed sooner than a period after its last frame, by as much as a tick is late: the
      first tick is held up and takes the frame that just came for an old one. */
  lemma EarliestClose(isClient: bool, config: Config, late: real) returns (es: seq<Timed>, i: nat)
    requires config.Validates() && config.enableKeepAlive && config.frameChannelCapacity == 1
    requires config.maxReceiveBuffer < SessionSpec.TWO_63 && config.keepAliveTimeout > 0.0
    requires 0.0 <= late <= config.keepAliveTimeout
    ensures var n, period := NewNode(isClient, config), config.keepAliveTimeout;
      && i < |es| && es[..i + 1] == es && Scheduled(n, es, period, late)
      && !RunTimed(n, es[..i]).ep.closed && RunTimed(n, es).ep.closed
      && es[i].at == LastArrival(n, es[..i]) + period - late
  {
    var n, period := NewNode(isClient, config), config.keepAliveTimeout;
    NothingYet(isClient, config, late);
    var e3 := [] + PingWaits(0.0, late) + [Timed(late, OpDispatch(NewNop(1)))] + [Timed(late, OpTimeoutTick)];
    FirstTickHeldUp(n, period, late);
    TickCloses(n, e3, period, period, late, Clock(period, late, late, false, false, true));
    es, i := e3 + [Timed(period, OpTimeoutTick)], |e3|;
    assert es[..i] == e3 && es[..i + 1] == es;
  }

  lemma FirstTickHeldUp(n: Node, period: real, late: real)
    requires Shows(n, [], period, late, Clock(0.0, 0.0, 0.0, true, false, false)) && 0.0 <= late <= period
    ensures var es := [] + PingWaits(0.0, late) + [Timed(late, OpDispatch(NewNop(1)))] + [Timed(late, OpTimeoutTick)];
      Shows(n, es, period, late, Clock(period, late, late, false, false, true))
  {
    var c := Clock(0.0, 0.0, 0.0, true, false, false);
    PingWaitsHappens(n, [], 0.0, late, period, late, c);
    var e1 := [] + PingWaits(0.0, late);
    NopHappens(n, e1, late, period, late, c.(now := late, full := true));
    var e2 := e1 + [Timed(late, OpDispatch(NewNop(1)))];
    TickHappens(n, e2, late, period, late, c.(now := late, full := true, last := late));
  }
}
