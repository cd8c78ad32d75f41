/** Nothing stops a running system: from every reachable state with both loops of a direction running, some
    schedule brings every stream to the other side and every byte to its reader. */
module SystemProgress {
  import opened Frames
  import opened CodecSpec
  import opened StreamSpec
  import opened SessionSpec
  import opened Logs
  import opened NodeSpec
  import opened NodeInvariant
  import opened NodeSteps
  import opened NodeFinality
  import opened NodeAccounts
  import opened SystemSpec
  import opened SystemInvariant
  import opened SystemTheorems

  // ----- byte accounting in the system --------------------------------------------

  lemma ActAccounts(x: Node, outgoing: Link, incoming: Link, action: Action)
    requires Inv(x) && LedgerFits(x) && Accounted(x)
    ensures Accounted(Act(x, outgoing, incoming, action).0)
  {
    match action
    case Local(op) => if IsLocal(op) { ApplyAccounts(x, op); }
    case Send => ApplyAccounts(x, OpSendStop); ApplyAccounts(x, OpTransmit);
    case Carry(count) =>
    case Receive =>
      ApplyAccounts(x, OpRecvStop);
      if Decode(x.ep.config.maxFrameSize, incoming.buffer).Yield? {
        ApplyAccounts(x, OpDispatch(Decode(x.ep.config.maxFrameSize, incoming.buffer).frame));
      }
  }

  lemma {:induction false} SystemAccounts(clientConfig: Config, serverConfig: Config, steps: seq<Step>)
    requires GoodConfig(clientConfig) && GoodConfig(serverConfig)
    requires SysFits(RunSystem(NewSystem(clientConfig, serverConfig), steps))
    ensures var s := RunSystem(NewSystem(clientConfig, serverConfig), steps); Accounted(s.client) && Accounted(s.server)
  {
    if steps != [] {
      var front, step := steps[..|steps| - 1], steps[|steps| - 1];
      var s := RunSystem(NewSystem(clientConfig, serverConfig), front);
      FitsBefore(s, step);
      SystemAccounts(clientConfig, serverConfig, front);
      SystemRunInv(clientConfig, serverConfig, front);
      if step.byClient {
        ActAccounts(s.client, s.up, s.down, step.action);
      } else {
        ActAccounts(s.server, s.down, s.up, step.action);
      }
    }
  }

  // ----- a direction whose two loops run --------------------------------------------

  predicate Running(d: Direction) {
    && d.writer.ep.frames.connected
    && HEADER_SIZE <= d.writer.ep.config.maxFrameSize <= d.reader.ep.config.maxFrameSize
    && !d.reader.ep.closed && !d.reader.ep.task.Stopped?
    && d.reader.ep.config.maxReceiveBuffer + |DataOf(d.writer.sent)| < TWO_63
  }

  predicate Flowing(s: System, toServer: bool) {
    && SysInv(s) && SysFits(s)
    && Running(DirectionOf(s, toServer))
    && Accounted(DirectionOf(s, toServer).reader)
  }

  /** Streams keep their IDs, and the application keeps those it holds. */
  predicate KeepsHandles(r: Node, r': Node) {
    && |r.ep.handles| <= |r'.ep.handles|
    && (forall k :: 0 <= k < |r.ep.handles| ==>
          && r'.ep.handles[k].id == r.ep.handles[k].id
          && (r.ep.handles[k].place.User? ==> r'.ep.handles[k].place.User?))
  }

  /** The writer's side is as before but for its frame channel; the reader still has every stream. */
  predicate Onward(d: Direction, d': Direction) {
    && d'.writer.sent == d.writer.sent && d'.writer.tracks == d.writer.tracks
    && d'.writer.ep.handles == d.writer.ep.handles
    && KeepsHandles(d.reader, d'.reader)
  }

  lemma OnwardTransitive(a: Direction, b: Direction, c: Direction)
    requires Onward(a, b) && Onward(b, c)
    ensures Onward(a, c)
  {
  }

  lemma {:induction false} RunAppend(s: System, a: seq<Step>, b: seq<Step>)
    ensures RunSystem(s, a + b) == RunSystem(RunSystem(s, a), b)
  {
    if b == [] {
      assert a + b == a;
    } else {
      RunAppend(s, a, b[..|b| - 1]);
      assert (a + b)[..|a + b| - 1] == a + b[..|b| - 1];
    }
  }

  lemma RunCons(s: System, step: Step, rest: seq<Step>)
    ensures RunSystem(s, [step] + rest) == RunSystem(Move(s, step), rest)
  {
    RunAppend(s, [step], rest);
    assert [step][..0] == [];
  }

  lemma WriterMoves(s: System, toServer: bool, a: Action)
    ensures var d, back := DirectionOf(s, toServer), DirectionOf(s, !toServer).link;
      var (x, o, _) := Act(d.writer, d.link, back, a);
      DirectionOf(Move(s, Step(toServer, a)), toServer) == Direction(x, o, d.reader)
  {
  }

  lemma ReaderMoves(s: System, toServer: bool, a: Action)
    ensures var d, back := DirectionOf(s, toServer), DirectionOf(s, !toServer).link;
      var (x, _, i) := Act(d.reader, back, d.link, a);
      DirectionOf(Move(s, Step(!toServer, a)), toServer) == Direction(d.writer, i, x)
  {
  }

  lemma FlowsOn(s: System, toServer: bool, step: Step)
    requires Flowing(s, toServer)
    requires var d' := DirectionOf(Move(s, step), toServer);
      Fits(d'.writer) && Fits(d'.reader) && Running(d') && Accounted(d'.reader)
    ensures Flowing(Move(s, step), toServer)
  {
    MoveKeeps(s, step);
  }

  /** A reader whose bytes are accounted for has not overflown its counter. */
  lemma AccountedFits(d: Direction, r: Node)
    requires Running(d) && SentOk(d.writer) && Accounted(r) && r.ep.config == d.reader.ep.config
    requires r.recvd <= d.writer.sent
    ensures LedgerFits(r)
  {
    var rest := d.writer.sent[|r.recvd|..];
    assert d.writer.sent == r.recvd + rest;
    DataOfAppend(r.recvd, rest);
  }

  // ----- single steps ------------------------------------------------------------------

  /** What the reader has handled is the beginning of what was sent, and the frames under way come next. */
  lemma LogsInOrder(d: Direction)
    requires SentOk(d.writer) && PipeLog(d.writer, d.link, d.reader)
    ensures d.reader.recvd <= d.writer.sent
    ensures d.link.flight != [] ==> d.reader.recvd + [d.link.flight[0]] <= d.writer.sent
  {
    var q, e := d.writer.ep.frames.queue, d.writer.lost;
    assert d.writer.sent == d.reader.recvd + (d.link.flight + q + e);
  }

  lemma SendOne(s: System, toServer: bool)
    requires Flowing(s, toServer) && DirectionOf(s, toServer).writer.ep.frames.queue != []
    ensures var s' := Move(s, Step(toServer, Send));
      var d, d' := DirectionOf(s, toServer), DirectionOf(s', toServer);
      && Flowing(s', toServer) && Onward(d, d')
      && d'.writer.ep.frames.queue == d.writer.ep.frames.queue[1..]
  {
    var d := DirectionOf(s, toServer);
    var limit, f := d.writer.ep.config.maxFrameSize, d.writer.ep.frames.queue[0];
    WriterMoves(s, toServer, Send);
    WaitingIsProduced(d.writer, 0);
    EncodableIs(limit, f);
    assert Encode(limit, f).Success?;
    FlowsOn(s, toServer, Step(toServer, Send));
  }

  lemma CarryOne(s: System, toServer: bool)
    requires Flowing(s, toServer)
    ensures var step := Step(!toServer, Carry(|DirectionOf(s, toServer).link.wire|));
      var d, d' := DirectionOf(s, toServer), DirectionOf(Move(s, step), toServer);
      && Flowing(Move(s, step), toServer)
      && d' == d.(link := d.link.(wire := [], buffer := d.link.buffer + d.link.wire))
  {
    var d := DirectionOf(s, toServer);
    var w := d.link.wire;
    assert w[|w|..] == [] && w[..|w|] == w;
    ReaderMoves(s, toServer, Carry(|w|));
    FlowsOn(s, toServer, Step(!toServer, Carry(|w|)));
  }

  /** With all bytes of the frames under way in the buffer, decoding yields the oldest. */
  lemma BufferYields(d: Direction)
    requires PipeBytes(d.writer, d.link) && d.link.wire == [] && d.link.flight != []
    requires d.writer.ep.config.maxFrameSize <= d.reader.ep.config.maxFrameSize
    ensures Decode(d.reader.ep.config.maxFrameSize, d.link.buffer)
      == Yield(d.link.flight[0], EncodeAll(d.link.flight[1..]))
  {
    var f, fs := d.link.flight[0], d.link.flight[1..];
    assert d.link.flight == [f] + fs;
    EncodeAllCons(f, fs, []);
    assert EncodeAll(d.link.flight) + [] == EncodeAll(d.link.flight) && EncodeAll(fs) + [] == EncodeAll(fs);
    assert d.link.buffer + [] == d.link.buffer;
    EncodableIs(d.writer.ep.config.maxFrameSize, f);
    DecodeEncoded(d.writer.ep.config.maxFrameSize, d.reader.ep.config.maxFrameSize, f, EncodeAll(fs));
  }

  lemma DispatchedIds(r: Node, f: Frame)
    requires |r.tracks| == |r.ep.handles| && r.ep.task.Idle?
    ensures var r' := DispatchNode(r, f);
      && r'.recvd == r.recvd + [f] && r'.idCalls == r.idCalls && r'.ep.closed == r.ep.closed
      && r'.ep.config == r.ep.config && r'.ep.isClient == r.ep.isClient && !r'.ep.task.Stopped?
      && KeepsHandles(r, r')
  {
    HandleFrameFeeds(r.ep, f);
    HandleFrameKeeps(r.ep, f);
    DispatchHistory(r, f);
  }

  /** What the steps of a reader need to know about a direction. */
  predicate Ready(d: Direction) {
    && Sound(d) && Running(d)
    && Fits(d.reader) && Accounted(d.reader)
  }

  /** What the steps of a reader have to keep. */
  predicate StaysGood(r: Node, r': Node) {
    && Fits(r') && Accounted(r')
    && r'.ep.config == r.ep.config && !r'.ep.closed && !r'.ep.task.Stopped?
    && KeepsHandles(r, r')
  }

  lemma ReaderFlows(s: System, toServer: bool, a: Action, x: Node, o: Link, i: Link)
    requires Flowing(s, toServer) && StaysGood(DirectionOf(s, toServer).reader, x)
    requires Act(DirectionOf(s, toServer).reader, DirectionOf(s, !toServer).link, DirectionOf(s, toServer).link, a)
      == (x, o, i)
    ensures var s' := Move(s, Step(!toServer, a));
      var d, d' := DirectionOf(s, toServer), DirectionOf(s', toServer);
      Flowing(s', toServer) && d' == Direction(d.writer, i, x) && Onward(d, d')
  {
    ReaderMoves(s, toServer, a);
    FlowsOn(s, toServer, Step(!toServer, a));
  }

  lemma LocalActs(x: Node, outgoing: Link, incoming: Link, op: Op)
    requires IsLocal(op)
    ensures Act(x, outgoing, incoming, Local(op)) == (Apply(x, op), outgoing, incoming)
  {
  }

  lemma ReceiveActs(x: Node, outgoing: Link, incoming: Link, f: Frame, rest: Bytes)
    requires x.ep.task.Idle? && incoming.flight != []
    requires Decode(x.ep.config.maxFrameSize, incoming.buffer) == Yield(f, rest)
    ensures Act(x, outgoing, incoming, Receive)
      == (DispatchNode(x, f), outgoing, incoming.(buffer := rest, flight := incoming.flight[1..]))
  {
  }

  lemma FlowingReady(s: System, toServer: bool)
    requires Flowing(s, toServer)
    ensures Ready(DirectionOf(s, toServer)) && Fits(DirectionOf(s, toServer).writer)
  {
  }

  lemma DispatchStaysGood(d: Direction)
    requires Ready(d) && d.reader.ep.task.Idle? && d.link.flight != []
    ensures StaysGood(d.reader, DispatchNode(d.reader, d.link.flight[0]))
  {
    var f := d.link.flight[0];
    DispatchedIds(d.reader, f);
    PositiveTokens(d.reader);
    DispatchAccounts(d.reader, f);
    LogsInOrder(d);
    AccountedFits(d, DispatchNode(d.reader, f));
  }

  lemma ReceiveOne(s: System, toServer: bool)
    requires Flowing(s, toServer)
    requires var d := DirectionOf(s, toServer); d.reader.ep.task.Idle? && d.link.wire == [] && d.link.flight != []
    ensures var s' := Move(s, Step(!toServer, Receive));
      var d, d' := DirectionOf(s, toServer), DirectionOf(s', toServer);
      && Flowing(s', toServer) && Onward(d, d')
      && d'.writer == d.writer && d'.link.wire == [] && d'.link.flight == d.link.flight[1..]
  {
    var d := DirectionOf(s, toServer);
    FlowingReady(s, toServer);
    BufferYields(d);
    DispatchStaysGood(d);
    var i := d.link.(buffer := EncodeAll(d.link.flight[1..]), flight := d.link.flight[1..]);
    var back := DirectionOf(s, !toServer).link;
    ReceiveActs(d.reader, back, d.link, d.link.flight[0], i.buffer);
    ReaderFlows(s, toServer, Receive, DispatchNode(d.reader, d.link.flight[0]), back, i);
  }

  lemma LocalFlows(s: System, toServer: bool, op: Op)
    requires Flowing(s, toServer) && IsLocal(op)
    requires StaysGood(DirectionOf(s, toServer).reader, Apply(DirectionOf(s, toServer).reader, op))
    ensures var s' := Move(s, Step(!toServer, Local(op)));
      var d, d' := DirectionOf(s, toServer), DirectionOf(s', toServer);
      Flowing(s', toServer) && d' == Direction(d.writer, d.link, Apply(d.reader, op)) && Onward(d, d')
  {
    var d, back := DirectionOf(s, toServer), DirectionOf(s, !toServer).link;
    LocalActs(d.reader, back, d.link, op);
    ReaderFlows(s, toServer, Local(op), Apply(d.reader, op), back, d.link);
  }

  lemma ResumeStaysGood(r: Node)
    requires Fits(r) && Accounted(r) && !r.ep.closed && !r.ep.task.Stopped?
    ensures StaysGood(r, Apply(r, OpAcceptResume))
    ensures r.ep.task.AwaitAccept? && |r.ep.acceptQueue| < ACCEPT_CAPACITY ==> Apply(r, OpAcceptResume).ep.task.Idle?
  {
  }

  lemma AcceptStaysGood(r: Node)
    requires Inv(r) && Fits(r) && Accounted(r) && !r.ep.closed && !r.ep.task.Stopped? && r.ep.acceptQueue != []
    ensures StaysGood(r, Apply(r, OpAccept(false)))
  {
    AcceptPlace(r);
    AcceptAccounts(r, false);
  }

  lemma AcceptOne(s: System, toServer: bool)
    requires Flowing(s, toServer) && DirectionOf(s, toServer).reader.ep.acceptQueue != []
    ensures var s' := Move(s, Step(!toServer, Local(OpAccept(false))));
      var d, d' := DirectionOf(s, toServer), DirectionOf(s', toServer);
      && Flowing(s', toServer) && Onward(d, d') && d'.writer == d.writer && d'.link == d.link
      && d'.reader.ep.acceptQueue == d.reader.ep.acceptQueue[1..] && d'.reader.ep.task == d.reader.ep.task
  {
    var d := DirectionOf(s, toServer);
    FlowingReady(s, toServer);
    AcceptStaysGood(d.reader);
    LocalFlows(s, toServer, OpAccept(false));
  }

  lemma ResumeOne(s: System, toServer: bool)
    requires Flowing(s, toServer)
    requires var r := DirectionOf(s, toServer).reader; r.ep.task.AwaitAccept? && |r.ep.acceptQueue| < ACCEPT_CAPACITY
    ensures var s' := Move(s, Step(!toServer, Local(OpAcceptResume)));
      var d, d' := DirectionOf(s, toServer), DirectionOf(s', toServer);
      && Flowing(s', toServer) && Onward(d, d') && d'.writer == d.writer && d'.link == d.link
      && d'.reader.ep.task.Idle?
  {
    var d := DirectionOf(s, toServer);
    FlowingReady(s, toServer);
    ResumeStaysGood(d.reader);
    LocalFlows(s, toServer, OpAcceptResume);
  }

  predicate ToRead(r: Node, k: nat) {
    k < |r.ep.handles| && r.ep.handles[k].place.User? && Flat(r.ep.handles[k]) != []
  }

  /** A one-byte read of a stream that holds something. */
  lemma ReadShortens(r: Node, k: nat)
    requires Rx(r) && !r.ep.closed && ToRead(r, k)
    ensures var r' := Apply(r, OpRead(k, 1, false));
      && r' == ReadNode(r, k, 1, false)
      && |r'.ep.handles| == |r.ep.handles| && KeepsHandles(r, r')
      && |Flat(r'.ep.handles[k])| < |Flat(r.ep.handles[k])|
      && (forall j :: 0 <= j < |r.ep.handles| && j != k ==> r'.ep.handles[j] == r.ep.handles[j])
  {
    var h := r.ep.handles[k];
    assert RxOk(h, r.tracks[k], r.recvd);
    ReadIsFifo(h, 1);
    var (out, h') := PollRead(h, false, 1);
    assert |CopiedBytes(out)| + |Flat(h')| == |Flat(h)|;
  }

  lemma ReadStaysGood(d: Direction, k: nat)
    requires Ready(d) && ToRead(d.reader, k)
    ensures StaysGood(d.reader, Apply(d.reader, OpRead(k, 1, false)))
  {
    ReadShortens(d.reader, k);
    ReadAccounts(d.reader, k, 1, false);
    LogsInOrder(d);
    AccountedFits(d, ReadNode(d.reader, k, 1, false));
  }

  // ----- schedules -------------------------------------------------------------------------

  /** A schedule and what it does to a direction. */
  predicate Leads(s: System, toServer: bool, steps: seq<Step>) {
    && Flowing(RunSystem(s, steps), toServer)
    && Onward(DirectionOf(s, toServer), DirectionOf(RunSystem(s, steps), toServer))
  }

  lemma LeadsNowhere(s: System, toServer: bool)
    requires Flowing(s, toServer)
    ensures RunSystem(s, []) == s && Leads(s, toServer, [])
  {
  }

  lemma LeadsFurther(s: System, toServer: bool, a: seq<Step>, b: seq<Step>)
    requires Leads(s, toServer, a) && Leads(RunSystem(s, a), toServer, b)
    ensures RunSystem(s, a + b) == RunSystem(RunSystem(s, a), b) && Leads(s, toServer, a + b)
  {
    RunAppend(s, a, b);
    OnwardTransitive(DirectionOf(s, toServer), DirectionOf(RunSystem(s, a), toServer),
                     DirectionOf(RunSystem(RunSystem(s, a), b), toServer));
  }

  lemma LeadsOn(s: System, toServer: bool, step: Step, rest: seq<Step>)
    requires Onward(DirectionOf(s, toServer), DirectionOf(Move(s, step), toServer))
    requires Leads(Move(s, step), toServer, rest)
    ensures RunSystem(s, [step] + rest) == RunSystem(Move(s, step), rest) && Leads(s, toServer, [step] + rest)
  {
    RunCons(s, step, rest);
    OnwardTransitive(DirectionOf(s, toServer), DirectionOf(Move(s, step), toServer),
                     DirectionOf(RunSystem(Move(s, step), rest), toServer));
  }

  lemma {:induction false} SendAll(s: System, toServer: bool) returns (steps: seq<Step>)
    requires Flowing(s, toServer)
    ensures Leads(s, toServer, steps)
    ensures DirectionOf(RunSystem(s, steps), toServer).writer.ep.frames.queue == []
    decreases |DirectionOf(s, toServer).writer.ep.frames.queue|
  {
    if DirectionOf(s, toServer).writer.ep.frames.queue == [] {
      steps := [];
      LeadsNowhere(s, toServer);
    } else {
      SendOne(s, toServer);
      var rest := SendAll(Move(s, Step(toServer, Send)), toServer);
      steps := [Step(toServer, Send)] + rest;
      LeadsOn(s, toServer, Step(toServer, Send), rest);
    }
  }

  /** The receive loop can always be made ready for the next frame, by accepting streams. */
  lemma {:induction false} MakeReady(s: System, toServer: bool) returns (steps: seq<Step>)
    requires Flowing(s, toServer)
    ensures Leads(s, toServer, steps)
    ensures var d, d' := DirectionOf(s, toServer), DirectionOf(RunSystem(s, steps), toServer);
      d'.writer == d.writer && d'.link == d.link && d'.reader.ep.task.Idle?
    decreases |DirectionOf(s, toServer).reader.ep.acceptQueue|
  {
    var r := DirectionOf(s, toServer).reader;
    var accept, resume := Step(!toServer, Local(OpAccept(false))), Step(!toServer, Local(OpAcceptResume));
    if r.ep.task.Idle? {
      LeadsNowhere(s, toServer);
      steps := [];
    } else if |r.ep.acceptQueue| < ACCEPT_CAPACITY {
      ResumeOne(s, toServer);
      LeadsNowhere(Move(s, resume), toServer);
      LeadsOn(s, toServer, resume, []);
      steps := [resume] + [];
    } else {
      AcceptOne(s, toServer);
      var rest := MakeReady(Move(s, accept), toServer);
      LeadsOn(s, toServer, accept, rest);
      steps := [accept] + rest;
    }
  }

  lemma CarryAll(s: System, toServer: bool) returns (steps: seq<Step>)
    requires Flowing(s, toServer)
    ensures Leads(s, toServer, steps)
    ensures var d, d' := DirectionOf(s, toServer), DirectionOf(RunSystem(s, steps), toServer);
      d'.writer == d.writer && d'.link.wire == []
  {
    var step := Step(!toServer, Carry(|DirectionOf(s, toServer).link.wire|));
    CarryOne(s, toServer);
    LeadsNowhere(Move(s, step), toServer);
    LeadsOn(s, toServer, step, []);
    steps := [step] + [];
  }

  lemma {:induction false} ReceiveAll(s: System, toServer: bool) returns (steps: seq<Step>)
    requires Flowing(s, toServer) && DirectionOf(s, toServer).link.wire == []
    ensures Leads(s, toServer, steps)
    ensures var d, d' := DirectionOf(s, toServer), DirectionOf(RunSystem(s, steps), toServer);
      d'.writer == d.writer && d'.link.wire == [] && d'.link.flight == [] && d'.reader.ep.task.Idle?
    decreases |DirectionOf(s, toServer).link.flight|
  {
    var ready := MakeReady(s, toServer);
    var s1 := RunSystem(s, ready);
    if DirectionOf(s1, toServer).link.flight == [] {
      steps := ready;
    } else {
      var receive := Step(!toServer, Receive);
      ReceiveOne(s1, toServer);
      var rest := ReceiveAll(Move(s1, receive), toServer);
      LeadsOn(s1, toServer, receive, rest);
      LeadsFurther(s, toServer, ready, [receive] + rest);
      steps := ready + ([receive] + rest);
    }
  }

  /** Nothing is left between the writer's frame channel and the reader's receive loop. */
  predicate Landed(d: Direction) {
    d.writer.ep.frames.queue == [] && d.link.wire == [] && d.link.flight == [] && d.reader.ep.task.Idle?
  }

  lemma {:induction false} AcceptAll(s: System, toServer: bool) returns (steps: seq<Step>)
    requires Flowing(s, toServer) && Landed(DirectionOf(s, toServer))
    ensures Leads(s, toServer, steps)
    ensures var d' := DirectionOf(RunSystem(s, steps), toServer); Landed(d') && d'.reader.ep.acceptQueue == []
    decreases |DirectionOf(s, toServer).reader.ep.acceptQueue|
  {
    if DirectionOf(s, toServer).reader.ep.acceptQueue == [] {
      LeadsNowhere(s, toServer);
      steps := [];
    } else {
      var accept := Step(!toServer, Local(OpAccept(false)));
      AcceptOne(s, toServer);
      var rest := AcceptAll(Move(s, accept), toServer);
      LeadsOn(s, toServer, accept, rest);
      steps := [accept] + rest;
    }
  }

  predicate AllIn(d: Direction) {
    Landed(d) && d.reader.ep.acceptQueue == []
  }

  /** Everything is in, and the streams from number k on that the application holds have been read to the
      end of what is there. */
  predicate AllReadFrom(d: Direction, k: nat) {
    && AllIn(d)
    && (forall j :: k <= j < |d.reader.ep.handles| && d.reader.ep.handles[j].place.User? ==>
          Flat(d.reader.ep.handles[j]) == [])
  }

  /** Reading one stream to the end of what is there, when those after it have been. */
  lemma {:induction false} ReadStream(s: System, toServer: bool, k: nat) returns (steps: seq<Step>)
    requires Flowing(s, toServer) && AllReadFrom(DirectionOf(s, toServer), k + 1)
    ensures Leads(s, toServer, steps) && AllReadFrom(DirectionOf(RunSystem(s, steps), toServer), k)
    decreases HeldBy(DirectionOf(s, toServer).reader, k)
  {
    if ToRead(DirectionOf(s, toServer).reader, k) {
      var read := Step(!toServer, Local(OpRead(k, 1, false)));
      ReadNext(s, toServer, k);
      var rest := ReadStream(Move(s, read), toServer, k);
      LeadsOn(s, toServer, read, rest);
      steps := [read] + rest;
    } else {
      LeadsNowhere(s, toServer);
      NothingToRead(DirectionOf(s, toServer), k);
      steps := [];
    }
  }

  lemma ReadAll(s: System, toServer: bool, k: nat) returns (steps: seq<Step>)
    requires Flowing(s, toServer) && AllReadFrom(DirectionOf(s, toServer), k)
    ensures Leads(s, toServer, steps) && AllReadFrom(DirectionOf(RunSystem(s, steps), toServer), 0)
  {
    steps := [];
    LeadsNowhere(s, toServer);
    for j := k downto 0
      invariant Leads(s, toServer, steps) && AllReadFrom(DirectionOf(RunSystem(s, steps), toServer), j)
    {
      var first := ReadStream(RunSystem(s, steps), toServer, j);
      LeadsFurther(s, toServer, steps, first);
      steps := steps + first;
    }
  }

  function HeldBy(r: Node, k: nat): nat {
    if k < |r.ep.handles| then |Flat(r.ep.handles[k])| else 0
  }

  lemma NothingToRead(d: Direction, k: nat)
    requires AllReadFrom(d, k + 1) && !ToRead(d.reader, k)
    ensures AllReadFrom(d, k)
  {
  }

  lemma ReadNext(s: System, toServer: bool, k: nat)
    requires Flowing(s, toServer) && AllReadFrom(DirectionOf(s, toServer), k + 1)
    requires ToRead(DirectionOf(s, toServer).reader, k)
    ensures var s' := Move(s, Step(!toServer, Local(OpRead(k, 1, false))));
      var d, d' := DirectionOf(s, toServer), DirectionOf(s', toServer);
      && Flowing(s', toServer) && Onward(d, d') && AllReadFrom(d', k + 1)
      && |d'.reader.ep.handles| == |d.reader.ep.handles|
      && |Flat(d'.reader.ep.handles[k])| < |Flat(d.reader.ep.handles[k])|
  {
    var d := DirectionOf(s, toServer);
    FlowingReady(s, toServer);
    ReadShortens(d.reader, k);
    ReadStaysGood(d, k);
    LocalFlows(s, toServer, OpRead(k, 1, false));
    AfterRead(d, d.(reader := Apply(d.reader, OpRead(k, 1, false))), k);
  }

  lemma AfterRead(d: Direction, d': Direction, k: nat)
    requires AllReadFrom(d, k + 1) && k < |d.reader.ep.handles|
    requires d' == d.(reader := d'.reader) && d'.reader.ep.task == d.reader.ep.task
    requires d'.reader.ep.acceptQueue == d.reader.ep.acceptQueue && |d'.reader.ep.handles| == |d.reader.ep.handles|
    requires forall j :: 0 <= j < |d.reader.ep.handles| && j != k ==> d'.reader.ep.handles[j] == d.reader.ep.handles[j]
    ensures AllReadFrom(d', k + 1)
  {
  }

  lemma {:induction false} AllArrives(s: System, toServer: bool) returns (steps: seq<Step>)
    requires Flowing(s, toServer)
    ensures Leads(s, toServer, steps)
    ensures var d' := DirectionOf(RunSystem(s, steps), toServer); AllReadFrom(d', 0)
  {
    var sends := SendAll(s, toServer);
    var s1 := RunSystem(s, sends);
    var carries := CarryAll(s1, toServer);
    LeadsFurther(s, toServer, sends, carries);
    var s2 := RunSystem(s1, carries);
    var receives := ReceiveAll(s2, toServer);
    LeadsFurther(s, toServer, sends + carries, receives);
    var s3 := RunSystem(s2, receives);
    var accepts := AcceptAll(s3, toServer);
    LeadsFurther(s, toServer, sends + carries + receives, accepts);
    var s4 := RunSystem(s3, accepts);
    var readings := ReadAll(s4, toServer, |DirectionOf(s4, toServer).reader.ep.handles|);
    LeadsFurther(s, toServer, sends + carries + receives + accepts, readings);
    steps := sends + carries + receives + accepts + readings;
  }

  // ----- the result ----------------------------------------------------------------------------

  /** Everything can arrive. Take any reachable state in which the writer's send loop and the reader's
      receive loop run, the reader's frame size limit is no smaller than the writer's, and what was sent
      cannot overflow the reader's token counter. Some schedule of the loops, the transport, accepts and
      reads leads to a state where nothing was lost or is under way, every stream opened by the writer has
      been accepted, in order, and on every stream the application holds it has read exactly the bytes
      written on the other side, and now sees EOF if the other side's FIN went out. So neither the codec,
      the token guard, the accept queue nor a frame still to come can block a stream for good. */
  lemma EverythingArrives(s: System, clientConfig: Config, serverConfig: Config, steps: seq<Step>, toServer: bool)
    returns (more: seq<Step>)
    requires ReachedBy(s, clientConfig, serverConfig, steps) && Running(DirectionOf(s, toServer))
    ensures var d, d' := DirectionOf(s, toServer), DirectionOf(RunSystem(s, more), toServer);
      && d'.writer.sent == d.writer.sent && d'.writer.tracks == d.writer.tracks
      && d'.writer.ep.handles == d.writer.ep.handles
      && d'.reader.recvd == d.writer.sent
      && (forall i :: 0 <= i < |d'.reader.accepted| ==> d'.reader.accepted[i] < |d'.reader.ep.handles|)
      && IdsOf(d'.reader.ep.handles, d'.reader.accepted) == Syns(d.writer.sent)
      && |d.reader.ep.handles| <= |d'.reader.ep.handles| == |d'.reader.tracks|
      && (forall k :: 0 <= k < |d.reader.ep.handles| && d.reader.ep.handles[k].place.User? ==>
            d'.reader.ep.handles[k].place.User?)
      && !d'.reader.ep.closed
      && (forall k :: 0 <= k < |d'.reader.ep.handles| && d'.reader.ep.handles[k].place.User? ==>
            var h, t := d'.reader.ep.handles[k], d'.reader.tracks[k];
            && t.read == Written(d.writer, h.id)
            && PollRead(h, false, 1).0 == if Ended(d.writer.sent, t.start, h.id) then Copied([]) else ReadPending)
  {
    StartsFlowing(s, clientConfig, serverConfig, steps, toServer);
    more := AllArrives(s, toServer);
    var d, d' := DirectionOf(s, toServer), DirectionOf(RunSystem(s, more), toServer);
    FlowingReady(RunSystem(s, more), toServer);
    AllReadMeans(d');
    WrittenSame(d.writer, d'.writer);
  }

  lemma StartsFlowing(s: System, clientConfig: Config, serverConfig: Config, steps: seq<Step>, toServer: bool)
    requires ReachedBy(s, clientConfig, serverConfig, steps) && Running(DirectionOf(s, toServer))
    ensures Flowing(s, toServer)
  {
    SystemRunInv(clientConfig, serverConfig, steps);
    SystemAccounts(clientConfig, serverConfig, steps);
  }

  lemma AllReadMeans(d: Direction)
    requires Sound(d) && d.writer.ep.frames.connected && AllReadFrom(d, 0)
    ensures d.reader.recvd == d.writer.sent && |d.reader.tracks| == |d.reader.ep.handles|
    ensures forall i :: 0 <= i < |d.reader.accepted| ==> d.reader.accepted[i] < |d.reader.ep.handles|
    ensures IdsOf(d.reader.ep.handles, d.reader.accepted) == Syns(d.writer.sent)
    ensures forall k :: 0 <= k < |d.reader.ep.handles| && d.reader.ep.handles[k].place.User? ==>
      var h, t := d.reader.ep.handles[k], d.reader.tracks[k];
      && t.read == Written(d.writer, h.id)
      && PollRead(h, false, 1).0 == if Ended(d.writer.sent, t.start, h.id) then Copied([]) else ReadPending
  {
    AllInMeans(d);
    forall k | 0 <= k < |d.reader.ep.handles| && d.reader.ep.handles[k].place.User?
      ensures var h, t := d.reader.ep.handles[k], d.reader.tracks[k];
        && t.read == Written(d.writer, h.id)
        && PollRead(h, false, 1).0 == if Ended(d.writer.sent, t.start, h.id) then Copied([]) else ReadPending
    {
      assert Flat(d.reader.ep.handles[k]) == [];
      ReadMeansWritten(d, k);
    }
  }

  lemma WrittenSame(n: Node, n': Node)
    requires n'.tracks == n.tracks && n'.ep.handles == n.ep.handles
    ensures forall id: U32 :: Written(n', id) == Written(n, id)
  {
    forall id: U32
      ensures Written(n', id) == Written(n, id)
    {
      WrittenUpToSame(n, n', id, Min(|n.ep.handles|, |n.tracks|));
    }
  }

  lemma {:induction false} WrittenUpToSame(n: Node, n': Node, id: U32, count: nat)
    requires n'.tracks == n.tracks && n'.ep.handles == n.ep.handles
    requires count <= |n.ep.handles| && count <= |n.tracks|
    ensures WrittenUpTo(n', id, count) == WrittenUpTo(n, id, count)
  {
    if count > 0 {
      WrittenUpToSame(n, n', id, count - 1);
    }
  }

  lemma AllInMeans(d: Direction)
    requires Sound(d) && d.writer.ep.frames.connected && AllIn(d)
    ensures d.reader.recvd == d.writer.sent
    ensures Arrived(d.reader) == d.reader.accepted
  {
    assert d.writer.lost == [];
    assert d.writer.sent == d.reader.recvd + [] + [] + [];
  }

  lemma ReadMeansWritten(d: Direction, k: nat)
    requires Sound(d) && d.writer.ep.frames.connected && AllIn(d)
    requires k < |d.reader.tracks| && d.reader.ep.handles[k].place.User? && Flat(d.reader.ep.handles[k]) == []
    ensures var h, t := d.reader.ep.handles[k], d.reader.tracks[k];
      && t.read == Written(d.writer, h.id)
      && PollRead(h, false, 1).0 == if Ended(d.reader.recvd, t.start, h.id) then Copied([]) else ReadPending
  {
    Conserved(d, k);
    HandleFacts(d, k);
    FlatEmpty(d.reader.ep.handles[k]);
    ReadAmount(d.reader.ep.handles[k], 1);
    var read, id := d.reader.tracks[k].read, d.reader.ep.handles[k].id;
    assert FramesOf([], id) == [] && DataOf([]) == [];
    assert InTransit(d, id) == [] + [] + [];
    assert read + [] + [] == read;
  }
}
