/** Every payload byte an endpoint handles is accounted for, in every run. */
module NodeAccounts {
  import opened Frames
  import opened CodecSpec
  import opened StreamSpec
  import opened SessionSpec
  import opened Logs
  import opened NodeSpec
  import opened NodeInvariant
  import opened NodeSteps
  import opened NodeTheorems
  import opened NodeFinality

  /** The bytes the streams hold, those of dropped streams included. */
  function Buffered(hs: seq<Handle>): nat {
    if hs == [] then 0 else Buffered(hs[..|hs| - 1]) + |Flat(hs[|hs| - 1])|
  }

  /** Every payload byte handled so far was read, was discarded, or is held. */
  predicate Accounted(n: Node) {
    n.copied + n.discarded + Buffered(n.ep.handles) == |DataOf(n.recvd)|
  }

  lemma BufferedSnoc(hs: seq<Handle>, h: Handle)
    ensures Buffered(hs + [h]) == Buffered(hs) + |Flat(h)|
  {
    assert (hs + [h])[..|hs|] == hs;
  }

  lemma {:induction false} BufferedUpdate(hs: seq<Handle>, k: nat, h: Handle)
    requires k < |hs|
    ensures Buffered(hs[k := h]) == Buffered(hs) - |Flat(hs[k])| + |Flat(h)|
  {
    var front, last := hs[..|hs| - 1], hs[|hs| - 1];
    if k < |front| {
      BufferedUpdate(front, k, h);
      assert hs[k := h] == front[k := h] + [last];
      BufferedSnoc(front[k := h], last);
    } else {
      assert hs[k := h] == front + [h];
      BufferedSnoc(front, h);
    }
  }

  lemma RemoveBuffers(ep: Endpoint, id: U32)
    ensures Buffered(RemoveEntry(ep, id).handles) == Buffered(ep.handles)
  {
    if id in ep.streams && ep.streams[id] < |ep.handles| {
      var k := ep.streams[id];
      BufferedUpdate(ep.handles, k, ep.handles[k].(txOpen := false));
    }
  }

  lemma InsertBuffers(ep: Endpoint, id: U32, place: Place)
    ensures Buffered(InsertHandle(ep, id, place).handles) == Buffered(ep.handles)
  {
    RemoveBuffers(ep, id);
    BufferedSnoc(RemoveEntry(ep, id).handles, NewHandle(id, place));
  }

  // ----- one operation ------------------------------------------------------------

  lemma ReadAccounts(n: Node, k: nat, room: nat, closed: bool)
    requires Accounted(n) && Rx(n) && At(n, k, User) && room > 0
    ensures Accounted(ReadNode(n, k, room, closed))
  {
    var h := n.ep.handles[k];
    var (r, h') := PollRead(h, closed, room);
    assert RxOk(h, n.tracks[k], n.recvd);
    if !closed {
      ReadConserves(h, room);
      assert |CopiedBytes(r)| + |Flat(h')| == |Flat(h)|;
    }
    BufferedUpdate(n.ep.handles, k, h');
  }

  lemma CallAccounts(n: Node, k: nat, call: Call)
    requires Accounted(n) && At(n, k, CallPlace(call))
    ensures Accounted(CallNode(n, k, call))
  {
    CallEffectSince(false, n.ep, n.ep.handles[k], call);
    BufferedUpdate(n.ep.handles, k, CallEffect(n.ep, n.ep.handles[k], call).0);
  }

  lemma AcceptAccounts(n: Node, closed: bool)
    requires Accounted(n)
    ensures Accounted(AcceptNode(n, closed))
  {
    if !closed && n.ep.acceptQueue != [] && n.ep.acceptQueue[0] < |n.ep.handles| {
      var k := n.ep.acceptQueue[0];
      BufferedUpdate(n.ep.handles, k, n.ep.handles[k].(place := User));
    }
  }

  lemma OpenAccounts(n: Node, closed: bool)
    requires Accounted(n)
    ensures Accounted(OpenNode(n, closed))
  {
    InsertBuffers(n.ep.(nextId := Advance(n.ep.nextId)), n.ep.nextId, Opening);
  }

  /** A payload that does not wait ends up in a stream's queue or among the discarded bytes. */
  lemma DeliverBuffers(ep: Endpoint, f: Frame)
    ensures var (outcome, ep') := Deliver(ep, f);
      && !outcome.PshWaits? && !outcome.PshIgnored?
      && Buffered(ep'.handles) == Buffered(ep.handles) + (if outcome.PshDelivered? then |f.data| else 0)
  {
    if Deliver(ep, f).0.PshDelivered? {
      var k := ep.streams[f.id];
      FlatSnoc(ep.handles[k], f.data);
      BufferedUpdate(ep.handles, k, ep.handles[k].(queue := ep.handles[k].queue + [f.data]));
    } else {
      RemoveBuffers(ep, f.id);
    }
  }

  lemma PshAccounts(n: Node, f: Frame)
    requires Accounted(n) && f.cmd.Psh? && f.data != [] && n.ep.tokens > 0
    ensures Accounted(DispatchNode(n, f))
  {
    PshShape(n, f);
    DeliverBuffers(n.ep.(dataReceived := true), f);
    DataOfSnoc(n.recvd, f);
  }

  lemma QuietBuffers(ep: Endpoint, f: Frame)
    requires !(f.cmd.Psh? && f.data != [])
    ensures Buffered(HandleFrame(ep, f).handles) == Buffered(ep.handles)
  {
    var ep1 := ep.(dataReceived := true);
    match f.cmd
    case Syn => InsertBuffers(ep1, f.id, Queued);
    case Fin => RemoveBuffers(ep1, f.id);
    case _ =>
  }

  lemma QuietAccounts(n: Node, f: Frame)
    requires Accounted(n) && !(f.cmd.Psh? && f.data != [])
    ensures Accounted(DispatchNode(n, f))
  {
    QuietBuffers(n.ep, f);
    DataOfSnoc(n.recvd, f);
  }

  lemma DispatchAccounts(n: Node, f: Frame)
    requires Accounted(n) && n.ep.tokens > 0
    ensures Accounted(DispatchNode(n, f))
  {
    if f.cmd.Psh? && f.data != [] {
      PshAccounts(n, f);
    } else {
      QuietAccounts(n, f);
    }
  }

  lemma AppCallAccounts(n: Node, op: Op)
    requires Inv(n) && Accounted(n) && IsCall(op)
    ensures Accounted(Apply(n, op))
  {
    match op
    case OpOpen(passed) => OpenAccounts(n, Seen(n.ep, passed));
    case OpAccept(passed) => AcceptAccounts(n, Seen(n.ep, passed));
    case OpRead(k, room, passed) => if At(n, k, User) && room > 0 { ReadAccounts(n, k, room, Seen(n.ep, passed)); }
    case OpCall(k, call) => if At(n, k, CallPlace(call)) { CallAccounts(n, k, call); }
  }

  lemma LoopAccounts(n: Node, op: Op)
    requires Accounted(n) && NeverWaits(n) && n.ep.tokens > 0 && !IsCall(op)
    ensures Accounted(Apply(n, op))
  {
    match op
    case OpDispatch(f) => DispatchAccounts(n, f);
    case _ =>
  }

  lemma ApplyAccounts(n: Node, op: Op)
    requires Inv(n) && LedgerFits(n) && Accounted(n)
    ensures Accounted(Apply(n, op))
  {
    PositiveTokens(n);
    if IsCall(op) {
      AppCallAccounts(n, op);
    } else {
      LoopAccounts(n, op);
    }
  }

  // ----- every run ------------------------------------------------------------------

  /** Byte accounting over every run: each payload byte ever handled was read by the application, was
      discarded with its tokens given back, or is held by its stream, and each is exactly one of these. */
  lemma {:induction false} BytesAccounted(isClient: bool, config: Config, ops: seq<Op>)
    requires config.Validates() && Fits(Run(NewNode(isClient, config), ops))
    ensures Accounted(Run(NewNode(isClient, config), ops))
  {
    if ops != [] {
      var before := Run(NewNode(isClient, config), ops[..|ops| - 1]);
      ApplyExtends(before, ops[|ops| - 1]);
      BytesAccounted(isClient, config, ops[..|ops| - 1]);
      RunInv(isClient, config, ops[..|ops| - 1]);
      ApplyAccounts(before, ops[|ops| - 1]);
    }
  }

  /** The design document's law, tokens plus buffered bytes equal the buffer size, holds of the code exactly
      as long as no frame handled so far carried a payload. What the frames carried is the excess. */
  lemma DesignedLedgerExactly(n: Node, isClient: bool, config: Config, ops: seq<Op>)
    requires config.Validates() && n == Run(NewNode(isClient, config), ops) && Fits(n)
    ensures n.ep.tokens + Buffered(n.ep.handles) == config.maxReceiveBuffer + |DataOf(n.recvd)|
    ensures n.ep.tokens + Buffered(n.ep.handles) == config.maxReceiveBuffer <==> DataOf(n.recvd) == []
  {
    BytesAccounted(isClient, config, ops);
    TokenLedger(isClient, config, ops);
    NeverEntersTokenLoop(isClient, config, ops);
    RunRole(isClient, config, ops);
    PositiveTokens(n);
  }

  /** One byte delivered to one stream breaks that law. */
  lemma DesignedLedgerFails(config: Config)
    requires config.Validates() && config.maxReceiveBuffer < TWO_63
    ensures var n := OneByteHeld(config);
      n.ep.tokens == config.maxReceiveBuffer && Buffered(n.ep.handles) == 1
  {
    OneByteHeldIs(config);
    var h := NewHandle(1, User).(queue := [[7]]);
    BufferedSnoc([], h);
    assert [] + [h] == [h];
    assert Concat([[7]]) == [7] + Concat([]) == [7];
    assert Flat(h) == [] + [7] == [7];
  }
}
