/** The rest of the invariant's proof: reads, new streams, received frames and the background loops;
    then whole runs. */
module NodeSteps {
  import opened Wrappers
  import opened Frames
  import opened StreamSpec
  import opened SessionSpec
  import opened Logs
  import opened NodeSpec
  import opened NodeInvariant

  // ===== reads =====================================================================

  lemma ReadRxOk(h: Handle, t: Track, recvd: seq<Frame>, closed: bool, room: nat)
    requires RxOk(h, t, recvd) && room > 0 && h.place.User?
    ensures var (r, h') := PollRead(h, closed, room);
      RxOk(h', t.(read := t.read + CopiedBytes(r)), recvd) && h' == h.(chunk := h'.chunk, queue := h'.queue)
  {
    var (r, h') := PollRead(h, closed, room);
    if closed {
      assert t.read + [] == t.read;
    } else {
      ReadConserves(h, room);
      ReadShape(h, room);
      assert t.read + CopiedBytes(r) + Flat(h') == t.read + (CopiedBytes(r) + Flat(h'));
    }
  }

  lemma ReadRx(n: Node, k: nat, room: nat, closed: bool)
    requires Mapped(n.ep) && Rx(n) && At(n, k, User) && room > 0
    ensures Mapped(ReadNode(n, k, room, closed).ep) && Rx(ReadNode(n, k, room, closed))
  {
    var n' := ReadNode(n, k, room, closed);
    ReadRxOk(n.ep.handles[k], n.tracks[k], n.recvd, closed, room);
    forall j | 0 <= j < |n'.tracks|
      ensures RxOk(n'.ep.handles[j], n'.tracks[j], n'.recvd)
    {
      assert RxOk(n.ep.handles[j], n.tracks[j], n.recvd);
    }
  }

  /** A change that leaves IDs, places, write flags and sent frames alone. */
  predicate SameTx(n: Node, n': Node) {
    && |n'.ep.handles| == |n.ep.handles| && |n'.tracks| == |n.tracks|
    && (forall k :: 0 <= k < |n.ep.handles| ==>
          && n'.ep.handles[k].id == n.ep.handles[k].id
          && n'.ep.handles[k].place == n.ep.handles[k].place
          && n'.ep.handles[k].writeClosed == n.ep.handles[k].writeClosed)
    && (forall k :: 0 <= k < |n.tracks| ==>
          && n'.tracks[k].out == n.tracks[k].out
          && n'.tracks[k].written == n.tracks[k].written
          && n'.tracks[k].start == n.tracks[k].start)
    && n'.sent == n.sent && n'.popped == n.popped && n'.lost == n.lost && n'.ep.frames == n.ep.frames
    && n'.ep.config == n.ep.config && n'.ep.isClient == n.ep.isClient
  }

  lemma SameTxKeeps(n: Node, n': Node)
    requires Tx(n) && SentOk(n) && Filtered(n) && SameTx(n, n')
    ensures Tx(n') && SentOk(n') && Filtered(n')
  {
    SameIds(n.ep.handles, n'.ep.handles);
    forall k | 0 <= k < |n'.tracks|
      ensures TxOk(n'.ep.isClient, n'.ep.config, n'.ep.frames.connected, n'.ep.handles[k], n'.tracks[k])
    {
      assert TxOk(n.ep.isClient, n.ep.config, n.ep.frames.connected, n.ep.handles[k], n.tracks[k]);
    }
    forall i | 0 <= i < |n'.sent|
      ensures Produced(n'.ep.config, n'.sent[i]) && (n'.sent[i].id == 0 || HasHandle(n'.ep.handles, n'.sent[i].id))
    {
      assert n'.sent[i] == n.sent[i];
    }
    if UniqueIds(n'.ep.handles) {
      forall k | 0 <= k < |n'.tracks|
        ensures FramesOf(n'.sent, n'.ep.handles[k].id) == n'.tracks[k].out
      {
        assert FramesOf(n.sent, n.ep.handles[k].id) == n.tracks[k].out;
      }
    }
  }

  /** The same IDs and arrivals, and a receive log that may have grown. */
  lemma SamePeersKeeps(n: Node, n': Node)
    requires Peers(n) && Ids(n) && SameTx(n, n')
    requires n'.accepted == n.accepted && Arrived(n') == Arrived(n)
    requires |n.recvd| <= |n'.recvd| && n'.recvd[..|n.recvd|] == n.recvd
    requires n'.ep.nextId == n.ep.nextId && n'.idCalls == n.idCalls
    ensures Peers(n') && Ids(n')
  {
    forall k | 0 <= k < |n'.ep.handles| && !Opener(n'.ep.isClient, n'.ep.handles[k].id)
      ensures k in Arrived(n') && SynBefore(n'.recvd, n'.tracks[k].start, n'.ep.handles[k].id)
    {
      assert SynBefore(n.recvd, n.tracks[k].start, n.ep.handles[k].id);
      assert n'.recvd[n.tracks[k].start - 1] == n'.recvd[..|n.recvd|][n.tracks[k].start - 1];
    }
  }

  lemma ReadSame(n: Node, k: nat, room: nat, closed: bool)
    requires Rx(n) && At(n, k, User) && room > 0
    ensures var n' := ReadNode(n, k, room, closed);
      SameTx(n, n') && Arrived(n') == Arrived(n) && n'.recvd[..|n.recvd|] == n.recvd
  {
    ReadRxOk(n.ep.handles[k], n.tracks[k], n.recvd, closed, room);
  }

  lemma ReadLedger(n: Node, k: nat, room: nat, closed: bool)
    requires Ledger(n) && NeverWaits(n) && At(n, k, User)
    ensures Ledger(ReadNode(n, k, room, closed)) && NeverWaits(ReadNode(n, k, room, closed))
  {
    WrapAdd(LedgerValue(n), |CopiedBytes(PollRead(n.ep.handles[k], closed, room).0)|);
  }

  lemma ReadKeeps(n: Node, k: nat, room: nat, closed: bool)
    requires Inv(n) && At(n, k, User) && room > 0
    ensures Inv(ReadNode(n, k, room, closed))
  {
    ReadSame(n, k, room, closed);
    ReadRx(n, k, room, closed);
    SameTxKeeps(n, ReadNode(n, k, room, closed));
    SamePeersKeeps(n, ReadNode(n, k, room, closed));
    ReadLedger(n, k, room, closed);
  }

  // ===== new streams =================================================================

  /** A node with one more handle. */
  function Grown(n: Node, id: U32, place: Place, start: nat): Node {
    n.(ep := InsertHandle(n.ep, id, place), tracks := n.tracks + [NewTrack(start)])
  }

  lemma GrowRx(n: Node, id: U32, place: Place)
    requires Mapped(n.ep) && Rx(n) && id !in n.ep.streams
    ensures Mapped(Grown(n, id, place, |n.recvd|).ep) && Rx(Grown(n, id, place, |n.recvd|))
  {
    var n' := Grown(n, id, place, |n.recvd|);
    forall j | 0 <= j < |n'.tracks|
      ensures RxOk(n'.ep.handles[j], n'.tracks[j], n'.recvd)
    {
      if j < |n.tracks| {
        assert RxOk(n.ep.handles[j], n.tracks[j], n.recvd);
      }
    }
  }

  lemma GrowTx(n: Node, id: U32, place: Place, start: nat)
    requires Tx(n) && id != 0 && id !in n.ep.streams
    requires place == if Opener(n.ep.isClient, id) then Opening else Queued
    ensures Tx(Grown(n, id, place, start))
  {
    var n' := Grown(n, id, place, start);
    forall j | 0 <= j < |n'.tracks|
      ensures TxOk(n'.ep.isClient, n'.ep.config, n'.ep.frames.connected, n'.ep.handles[j], n'.tracks[j])
    {
      if j < |n.tracks| {
        assert TxOk(n.ep.isClient, n.ep.config, n.ep.frames.connected, n.ep.handles[j], n.tracks[j]);
      }
    }
  }

  lemma GrowSent(n: Node, id: U32, place: Place, start: nat)
    requires SentOk(n) && id !in n.ep.streams
    ensures SentOk(Grown(n, id, place, start))
  {
    var n' := Grown(n, id, place, start);
    forall i | 0 <= i < |n'.sent|
      ensures Produced(n'.ep.config, n'.sent[i]) && (n'.sent[i].id == 0 || HasHandle(n'.ep.handles, n'.sent[i].id))
    {
      if n.sent[i].id != 0 {
        assert HasHandle(n.ep.handles, n.sent[i].id);
        var k :| 0 <= k < |n.ep.handles| && n.ep.handles[k].id == n.sent[i].id;
        assert n'.ep.handles[k].id == n.sent[i].id;
      }
    }
  }

  lemma GrowFiltered(n: Node, id: U32, place: Place, start: nat)
    requires Filtered(n) && SentOk(n) && id !in n.ep.streams && id != 0
    ensures Filtered(Grown(n, id, place, start))
  {
    var n' := Grown(n, id, place, start);
    if UniqueIds(n'.ep.handles) {
      forall i, j | 0 <= i < j < |n.ep.handles|
        ensures n.ep.handles[i].id != n.ep.handles[j].id
      {
        assert n'.ep.handles[i].id != n'.ep.handles[j].id;
      }
      assert UniqueIds(n.ep.handles);
      forall k | 0 <= k < |n.ep.handles|
        ensures n.ep.handles[k].id != id
      {
        assert n'.ep.handles[k].id != n'.ep.handles[|n.ep.handles|].id;
      }
      FramesOfNone(n.sent, id);
      forall k | 0 <= k < |n'.tracks|
        ensures FramesOf(n'.sent, n'.ep.handles[k].id) == n'.tracks[k].out
      {
        if k < |n.tracks| {
          assert FramesOf(n.sent, n.ep.handles[k].id) == n.tracks[k].out;
        }
      }
    }
  }

  /** A freshly counted ID is new: no handle has it, so no entry does. */
  lemma FreshId(n: Node)
    requires Mapped(n.ep) && Ids(n) && n.idCalls < IdLimit(n.ep.isClient)
    ensures IdAnswer(n.ep.nextId) == Success(n.ep.nextId)
    ensures Opener(n.ep.isClient, n.ep.nextId) && n.ep.nextId != 0
    ensures Advance(n.ep.nextId) == n.ep.nextId + 2
    ensures forall k :: 0 <= k < |n.ep.handles| ==> n.ep.handles[k].id != n.ep.nextId
    ensures n.ep.nextId !in n.ep.streams
  {
  }

  lemma OpenIds(n: Node, closed: bool)
    requires Mapped(n.ep) && Ids(n) && Peers(n) && IdsFit(OpenNode(n, closed))
    ensures Ids(OpenNode(n, closed)) && Peers(OpenNode(n, closed))
  {
    var n' := OpenNode(n, closed);
    if !closed {
      FreshId(n);
      assert Arrived(n') == Arrived(n);
      forall k | 0 <= k < |n'.ep.handles| && !Opener(n'.ep.isClient, n'.ep.handles[k].id)
        ensures k in Arrived(n') && SynBefore(n'.recvd, n'.tracks[k].start, n'.ep.handles[k].id)
      {
        assert n'.ep.handles[k] == n.ep.handles[k];
      }
    }
  }

  lemma OpenKeeps(n: Node, closed: bool)
    requires Inv(n) && IdsFit(OpenNode(n, closed))
    ensures Inv(OpenNode(n, closed))
  {
    OpenIds(n, closed);
    if !closed {
      FreshId(n);
      var id := n.ep.nextId;
      var m := n.(ep := n.ep.(nextId := Advance(id)), idCalls := n.idCalls + 1);
      assert OpenNode(n, closed) == Grown(m, id, Opening, |m.recvd|);
      OpenGrows(n, m, id);
    }
  }

  lemma OpenGrows(n: Node, m: Node, id: U32)
    requires Mapped(n.ep) && Rx(n) && Tx(n) && SentOk(n) && Filtered(n) && Ledger(n) && NeverWaits(n)
    requires m == n.(ep := n.ep.(nextId := m.ep.nextId), idCalls := m.idCalls)
    requires id !in n.ep.streams && id != 0 && Opener(n.ep.isClient, id)
    ensures var g := Grown(m, id, Opening, |m.recvd|);
      Mapped(g.ep) && Rx(g) && Tx(g) && SentOk(g) && Filtered(g) && Ledger(g) && NeverWaits(g)
  {
    GrowRx(m, id, Opening);
    GrowTx(m, id, Opening, |m.recvd|);
    GrowSent(m, id, Opening, |m.recvd|);
    GrowFiltered(m, id, Opening, |m.recvd|);
  }

  // ===== received frames ===============================================================

  lemma RxUnmoved(h: Handle, t: Track, recvd: seq<Frame>, f: Frame)
    requires RxOk(h, t, recvd)
    requires f.id != h.id || !h.txOpen || !(f.cmd.Fin? || (f.cmd.Psh? && f.data != []))
    ensures RxOk(h, t, recvd + [f])
  {
    DeliveredSnoc(recvd, f, t.start, h.id);
    var d := Delivered(recvd, t.start, h.id);
    assert d + [] == d;
  }

  lemma RxClosed(h: Handle, t: Track, recvd: seq<Frame>, f: Frame)
    requires RxOk(h, t, recvd) && (h.place.Dropped? || (f.cmd.Fin? && f.id == h.id))
    ensures RxOk(h.(txOpen := false), t, recvd + [f])
  {
    DeliveredSnoc(recvd, f, t.start, h.id);
  }

  lemma RxPushed(h: Handle, t: Track, recvd: seq<Frame>, f: Frame)
    requires RxOk(h, t, recvd) && h.txOpen && !h.place.Dropped?
    requires f.cmd.Psh? && f.id == h.id && f.data != []
    ensures RxOk(h.(queue := h.queue + [f.data]), t, recvd + [f])
  {
    DeliveredSnoc(recvd, f, t.start, h.id);
    FlatSnoc(h, f.data);
    PushChunked(h, f.data);
    Regrouped(t.read, Flat(h), f.data);
  }

  lemma PushChunked(h: Handle, data: Bytes)
    requires WellChunked(h) && data != []
    ensures WellChunked(h.(queue := h.queue + [data]))
  {
  }

  /** What a frame may do to the handles: nothing to those it does not concern, and for the one in the
      map entry of its ID either nothing, or closing its channel, or pushing the payload. */
  predicate Handled(hs: seq<Handle>, hs': seq<Handle>, streams: map<U32, nat>, f: Frame) {
    && |hs'| == |hs|
    && (forall k :: 0 <= k < |hs| ==>
          if f.id in streams && streams[f.id] == k then
            || (hs'[k] == hs[k] && !(f.cmd.Fin? || (f.cmd.Psh? && f.data != [])))
            || (hs'[k] == hs[k].(txOpen := false) && (hs[k].place.Dropped? || f.cmd.Fin?))
            || (hs'[k] == hs[k].(queue := hs[k].queue + [f.data])
                && f.cmd.Psh? && f.data != [] && !hs[k].place.Dropped?)
          else hs'[k] == hs[k])
  }

  lemma HandledRx(n: Node, n': Node, f: Frame)
    requires Mapped(n.ep) && Rx(n) && Handled(n.ep.handles, n'.ep.handles, n.ep.streams, f)
    requires n'.tracks == n.tracks && n'.recvd == n.recvd + [f]
    ensures Rx(n')
  {
    forall k | 0 <= k < |n'.tracks|
      ensures RxOk(n'.ep.handles[k], n'.tracks[k], n'.recvd)
    {
      var h, t := n.ep.handles[k], n.tracks[k];
      assert RxOk(h, t, n.recvd);
      if n'.ep.handles[k] == h {
        RxUnmoved(h, t, n.recvd, f);
      } else if n'.ep.handles[k] == h.(txOpen := false) {
        RxClosed(h, t, n.recvd, f);
      } else {
        RxPushed(h, t, n.recvd, f);
      }
    }
  }

  lemma RemoveMapped(ep: Endpoint, id: U32)
    requires Mapped(ep)
    ensures Mapped(RemoveEntry(ep, id))
  {
  }

  /** A received frame that creates no stream. */
  predicate Plain(n: Node, f: Frame) {
    |HandleFrame(n.ep, f).handles| == |n.ep.handles|
  }

  /** The effect of a frame that creates no stream and does not wait. */
  predicate Absorbs(n: Node, n': Node, f: Frame) {
    && Mapped(n'.ep)
    && Handled(n.ep.handles, n'.ep.handles, n.ep.streams, f)
    && n'.tracks == n.tracks && n'.recvd == n.recvd + [f] && n'.accepted == n.accepted
    && n'.sent == n.sent && n'.popped == n.popped && n'.lost == n.lost && n'.ep.frames == n.ep.frames
    && n'.ep.config == n.ep.config && n'.ep.isClient == n.ep.isClient
    && n'.ep.nextId == n.ep.nextId && n'.idCalls == n.idCalls
    && n'.ep.acceptQueue == n.ep.acceptQueue && n'.ep.task.Idle?
    && Ledger(n') && n'.taken == 0
  }

  /** The token loop's outcomes keep the ledger, waiting included. */
  lemma TurnLedger(n: Node, f: Frame)
    requires Ledger(n)
    ensures var (outcome, ep) := TokenTurn(n.ep, f); Ledger(Account(n.(ep := ep), f, outcome))
  {
    WrapAdd(LedgerValue(n), |f.data|);
    WrapAdd(LedgerValue(n), -|f.data|);
  }

  lemma PshShape(n: Node, f: Frame)
    requires f.cmd.Psh? && f.data != []
    ensures var m := n.(ep := n.ep.(dataReceived := true));
      var (outcome, ep) := TokenTurn(m.ep, f);
      DispatchNode(n, f) == Account(m.(ep := ep), f, outcome).(recvd := n.recvd + [f])
  {
  }

  lemma DispatchLedgerAlways(n: Node, f: Frame)
    requires Ledger(n)
    ensures Ledger(DispatchNode(n, f))
  {
    if f.cmd.Psh? && f.data != [] {
      PshShape(n, f);
      TurnLedger(n.(ep := n.ep.(dataReceived := true)), f);
    }
  }

  lemma FinAbsorbs(n: Node, f: Frame)
    requires Mapped(n.ep) && Ledger(n) && NeverWaits(n) && n.ep.task.Idle? && f.cmd.Fin?
    ensures Absorbs(n, DispatchNode(n, f), f)
  {
    RemoveMapped(n.ep.(dataReceived := true), f.id);
    DispatchHistory(n, f);
    HandleFrameKeeps(n.ep, f);
    DispatchLedgerAlways(n, f);
  }

  lemma PushMapped(ep: Endpoint, k: nat, queue: seq<Bytes>)
    requires Mapped(ep) && k < |ep.handles|
    ensures Mapped(ep.(handles := ep.handles[k := ep.handles[k].(queue := queue)]))
  {
  }

  /** A payload goes into the queue of its stream, or the entry of its ID is removed. */
  lemma DeliverHandled(ep: Endpoint, f: Frame)
    requires Mapped(ep) && f.cmd.Psh? && f.data != []
    ensures var ep' := Deliver(ep, f).1;
      Mapped(ep') && Handled(ep.handles, ep'.handles, ep.streams, f) && ep'.task.Idle?
  {
    var ep' := Deliver(ep, f).1;
    if Deliver(ep, f).0.PshDelivered? {
      var k := ep.streams[f.id];
      PushMapped(ep, k, ep.handles[k].queue + [f.data]);
      assert ep'.handles == ep.handles[k := ep.handles[k].(queue := ep.handles[k].queue + [f.data])];
    } else {
      RemoveMapped(ep, f.id);
      assert ep'.handles == RemoveEntry(ep, f.id).handles;
    }
  }

  lemma PshAbsorbs(n: Node, f: Frame)
    requires Mapped(n.ep) && Ledger(n) && NeverWaits(n) && n.ep.task.Idle? && n.ep.tokens > 0
    requires f.cmd.Psh? && f.data != []
    ensures Absorbs(n, DispatchNode(n, f), f)
  {
    DeliverHandled(n.ep.(dataReceived := true), f);
    DeliverKeeps(n.ep.(dataReceived := true), f);
    DispatchLedgerAlways(n, f);
    PshShape(n, f);
  }

  lemma QuietAbsorbs(n: Node, f: Frame)
    requires Mapped(n.ep) && Ledger(n) && NeverWaits(n) && n.ep.task.Idle? && Plain(n, f)
    requires !f.cmd.Fin? && !(f.cmd.Psh? && f.data != [])
    ensures Absorbs(n, DispatchNode(n, f), f)
  {
    QuietUnmoved(n.ep, f);
    DispatchHistory(n, f);
    HandleFrameKeeps(n.ep, f);
    DispatchLedgerAlways(n, f);
  }

  /** A SYN that is refused, an empty payload, a NOP or a UPD only marks that data came. */
  lemma QuietUnmoved(ep: Endpoint, f: Frame)
    requires |HandleFrame(ep, f).handles| == |ep.handles|
    requires !f.cmd.Fin? && !(f.cmd.Psh? && f.data != [])
    ensures HandleFrame(ep, f) == ep.(dataReceived := true)
  {
  }

  lemma AbsorbsSame(n: Node, n': Node, f: Frame)
    requires Absorbs(n, n', f) && n.ep.task.Idle?
    ensures SameTx(n, n') && Arrived(n') == Arrived(n) && n'.recvd[..|n.recvd|] == n.recvd
  {
  }

  lemma AbsorbKeeps(n: Node, n': Node, f: Frame)
    requires Inv(n) && n.ep.task.Idle? && Absorbs(n, n', f)
    ensures Inv(n')
  {
    AbsorbsSame(n, n', f);
    HandledRx(n, n', f);
    SameTxKeeps(n, n');
    SamePeersKeeps(n, n');
  }

  /** The token guard is always open while the counter has not overflowed. */
  lemma PositiveTokens(n: Node)
    requires Ledger(n) && NeverWaits(n) && LedgerFits(n) && n.ep.config.Validates()
    ensures n.ep.tokens == LedgerValue(n) >= n.ep.config.maxReceiveBuffer > 0
  {
  }

  lemma PlainAbsorbs(n: Node, f: Frame)
    requires Mapped(n.ep) && Ledger(n) && NeverWaits(n) && n.ep.task.Idle? && Plain(n, f) && n.ep.tokens > 0
    ensures Absorbs(n, DispatchNode(n, f), f)
  {
    if f.cmd.Fin? {
      FinAbsorbs(n, f);
    } else if f.cmd.Psh? && f.data != [] {
      PshAbsorbs(n, f);
    } else {
      QuietAbsorbs(n, f);
    }
  }

  /** The node a new peer stream is added to: the SYN is in the log. */
  function Logged(n: Node, f: Frame): Node {
    n.(ep := n.ep.(dataReceived := true), recvd := n.recvd + [f])
  }

  lemma SynShape(n: Node, f: Frame)
    requires n.ep.task.Idle? && !Plain(n, f)
    ensures f.cmd.Syn? && f.id != 0 && !Opener(n.ep.isClient, f.id) && f.id !in n.ep.streams
    ensures var g := Grown(Logged(n, f), f.id, Queued, |n.recvd| + 1);
      DispatchNode(n, f) == g.(ep := g.ep.(task := AwaitAccept(|n.ep.handles|)))
  {
  }

  lemma LoggedKeeps(n: Node, f: Frame)
    requires Mapped(n.ep) && Rx(n) && f.cmd.Syn?
    ensures Mapped(Logged(n, f).ep) && Rx(Logged(n, f))
  {
    HandledRx(n, Logged(n, f), f);
  }

  lemma SynPeers(n: Node, f: Frame)
    requires Peers(n) && Ids(n) && n.ep.task.Idle? && !Plain(n, f)
    ensures Peers(DispatchNode(n, f)) && Ids(DispatchNode(n, f))
    ensures Arrived(DispatchNode(n, f)) == Arrived(n) + [|n.ep.handles|]
  {
    SynShape(n, f);
    var n' := DispatchNode(n, f);
    assert Arrived(n') == Arrived(n) + [|n.ep.handles|];
    forall k | 0 <= k < |n'.ep.handles| && !Opener(n'.ep.isClient, n'.ep.handles[k].id)
      ensures k in Arrived(n') && SynBefore(n'.recvd, n'.tracks[k].start, n'.ep.handles[k].id)
    {
      if k < |n.ep.handles| {
        assert k in Arrived(n) && SynBefore(n.recvd, n.tracks[k].start, n.ep.handles[k].id);
      }
    }
  }

  lemma SynGrows(n: Node, f: Frame)
    requires Mapped(n.ep) && Rx(n) && Tx(n) && SentOk(n) && Filtered(n) && n.ep.task.Idle? && !Plain(n, f)
    ensures var n' := DispatchNode(n, f);
      Mapped(n'.ep) && Rx(n') && Tx(n') && SentOk(n') && Filtered(n')
  {
    SynShape(n, f);
    LoggedKeeps(n, f);
    var m := Logged(n, f);
    SameTxKeeps(n, m);
    GrowRx(m, f.id, Queued);
    GrowTx(m, f.id, Queued, |m.recvd|);
    GrowSent(m, f.id, Queued, |m.recvd|);
    GrowFiltered(m, f.id, Queued, |m.recvd|);
    SameTxKeeps(Grown(m, f.id, Queued, |m.recvd|), DispatchNode(n, f));
  }

  lemma SynLedger(n: Node, f: Frame)
    requires Ledger(n) && NeverWaits(n) && n.ep.task.Idle? && !Plain(n, f)
    ensures Ledger(DispatchNode(n, f)) && NeverWaits(DispatchNode(n, f))
    ensures DispatchNode(n, f).ep.config == n.ep.config
  {
    SynShape(n, f);
  }

  lemma DispatchKeeps(n: Node, f: Frame)
    requires Inv(n) && n.ep.task.Idle? && LedgerFits(n)
    ensures Inv(DispatchNode(n, f))
  {
    if Plain(n, f) {
      PositiveTokens(n);
      PlainAbsorbs(n, f);
      AbsorbKeeps(n, DispatchNode(n, f), f);
    } else {
      SynGrows(n, f);
      SynPeers(n, f);
      SynLedger(n, f);
    }
  }

  // ===== accepting and the background loops ================================================

  lemma AcceptPlace(n: Node)
    requires Peers(n) && Tx(n) && n.ep.acceptQueue != []
    ensures var k := n.ep.acceptQueue[0];
      && k < |n.tracks| && n.ep.handles[k].place.Queued?
      && GoodCall(n.ep.isClient, n.ep.config, n.ep.handles[k], n.tracks[k], n.ep.frames,
                  n.ep.handles[k].(place := User), n.ep.frames, [])
  {
    var k := n.ep.acceptQueue[0];
    assert Arrived(n)[|n.accepted|] == k;
    assert TxOk(n.ep.isClient, n.ep.config, n.ep.frames.connected, n.ep.handles[k], n.tracks[k]);
    var h := n.ep.handles[k].(place := User);
    NoFrameIsGood(n.ep.isClient, n.ep.config, n.ep.handles[k], n.tracks[k], n.ep.frames, h);
  }

  lemma AcceptArrived(n: Node)
    requires n.ep.acceptQueue != []
    ensures Arrived(AcceptNode(n, false)) == Arrived(n)
    ensures AcceptNode(n, false).accepted == n.accepted + [n.ep.acceptQueue[0]]
    ensures Arrived(n)[|n.accepted|] == n.ep.acceptQueue[0]
  {
  }

  /** Moving one arrived handle on to the application leaves the list of arrivals alone. */
  lemma PlacePeers(n: Node, n': Node, k: nat)
    requires Peers(n) && Ids(n) && k < |n.ep.handles|
    requires |Arrived(n)| > |n.accepted| && Arrived(n)[|n.accepted|] == k
    requires Arrived(n') == Arrived(n) && |n'.accepted| == |n.accepted| + 1
    requires n'.ep.handles == n.ep.handles[k := n.ep.handles[k].(place := User)]
    requires n'.tracks == n.tracks && n'.recvd == n.recvd && n'.ep.isClient == n.ep.isClient
    requires n'.ep.nextId == n.ep.nextId && n'.idCalls == n.idCalls
    ensures Peers(n') && Ids(n')
  {
    forall i | |n'.accepted| <= i < |Arrived(n')|
      ensures n'.ep.handles[Arrived(n')[i]].place == Queued
    {
      assert Arrived(n)[|n.accepted|] < Arrived(n)[i];
    }
  }

  lemma AcceptPeers(n: Node)
    requires Peers(n) && Ids(n) && n.ep.acceptQueue != []
    ensures Peers(AcceptNode(n, false)) && Ids(AcceptNode(n, false))
  {
    AcceptArrived(n);
    PlacePeers(n, AcceptNode(n, false), n.ep.acceptQueue[0]);
  }

  lemma AcceptKeeps(n: Node, closed: bool)
    requires Inv(n)
    ensures Inv(AcceptNode(n, closed))
  {
    if !closed && n.ep.acceptQueue != [] {
      AcceptPlace(n);
      AcceptPeers(n);
      var k := n.ep.acceptQueue[0];
      var h := n.ep.handles[k].(place := User);
      var m := Touch(n, k, h, n.ep.frames, []);
      TouchRx(n, k, h, n.ep.frames, []);
      TouchTx(n, k, h, n.ep.frames, []);
      TouchSent(n, k, h, n.ep.frames, []);
      TouchFiltered(n, k, h, n.ep.frames, []);
      AcceptIsTouch(n, m, k);
    }
  }

  lemma AcceptIsTouch(n: Node, m: Node, k: nat)
    requires n.ep.acceptQueue != [] && k == n.ep.acceptQueue[0] && k < |n.tracks| && k < |n.ep.handles|
    requires m == Touch(n, k, n.ep.handles[k].(place := User), n.ep.frames, [])
    ensures var a := AcceptNode(n, false);
      && a == m.(ep := m.ep.(acceptQueue := a.ep.acceptQueue), accepted := a.accepted)
      && (Mapped(m.ep) ==> Mapped(a.ep)) && (Rx(m) ==> Rx(a)) && (Tx(m) ==> Tx(a))
      && (SentOk(m) ==> SentOk(a)) && (Filtered(m) ==> Filtered(a))
      && (Ledger(n) ==> Ledger(a)) && (NeverWaits(n) ==> NeverWaits(a))
  {
    var t := n.tracks[k];
    assert t.out + [] == t.out && t.written + [] == t.written && n.sent + [] == n.sent;
    assert m.tracks == n.tracks;
  }

  /** Steps that touch neither handles nor histories of handles. */
  predicate Untouched(n: Node, n': Node) {
    && n'.ep.handles == n.ep.handles && n'.ep.streams == n.ep.streams && n'.tracks == n.tracks
    && n'.recvd == n.recvd && n'.accepted == n.accepted && Arrived(n') == Arrived(n)
    && n'.ep.config == n.ep.config && n'.ep.isClient == n.ep.isClient
    && n'.ep.nextId == n.ep.nextId && n'.idCalls == n.idCalls
    && n'.ep.tokens == n.ep.tokens && n'.copied == n.copied && n'.discarded == n.discarded && n'.taken == n.taken
    && !n'.ep.task.AwaitTokens?
    && (n'.ep.frames.connected ==> n.ep.frames.connected)
  }

  lemma UntouchedMostly(n: Node, n': Node)
    requires Untouched(n, n') && Tx(n)
    ensures Mapped(n.ep) ==> Mapped(n'.ep)
    ensures Rx(n) ==> Rx(n')
    ensures Tx(n')
    ensures Ledger(n) && NeverWaits(n) ==> Ledger(n') && NeverWaits(n')
  {
    forall k | 0 <= k < |n'.tracks|
      ensures TxOk(n'.ep.isClient, n'.ep.config, n'.ep.frames.connected, n'.ep.handles[k], n'.tracks[k])
    {
      assert TxOk(n.ep.isClient, n.ep.config, n.ep.frames.connected, n.ep.handles[k], n.tracks[k]);
    }
  }

  lemma UntouchedPeers(n: Node, n': Node)
    requires Untouched(n, n') && Peers(n) && Ids(n)
    ensures Peers(n') && Ids(n')
  {
  }

  lemma UntouchedKeeps(n: Node, n': Node)
    requires Inv(n) && Untouched(n, n') && SentOk(n') && Filtered(n')
    ensures Inv(n')
  {
    UntouchedMostly(n, n');
    UntouchedPeers(n, n');
  }

  lemma AcceptResumeKeeps(n: Node)
    requires Inv(n)
    ensures Inv(n.(ep := AcceptResume(n.ep)))
  {
    var n' := n.(ep := AcceptResume(n.ep));
    assert Arrived(n') == Arrived(n);
    UntouchedKeeps(n, n');
  }

  lemma TransmitKeeps(n: Node)
    requires Inv(n)
    ensures Inv(TransmitNode(n))
  {
    var q := n.ep.frames.queue;
    if q != [] {
      assert n.popped + q + n.lost == n.popped + [q[0]] + q[1..] + n.lost;
    }
    UntouchedKeeps(n, TransmitNode(n));
  }

  lemma SendStopKeeps(n: Node)
    requires Inv(n)
    ensures Inv(n.(ep := SendStop(n.ep), lost := n.ep.frames.queue + n.lost))
  {
    assert n.popped + [] + (n.ep.frames.queue + n.lost) == n.popped + n.ep.frames.queue + n.lost;
    UntouchedKeeps(n, n.(ep := SendStop(n.ep), lost := n.ep.frames.queue + n.lost));
  }

  lemma PingShape(n: Node)
    ensures var n' := PingNode(n);
      var e := Emitted(n.ep.frames, n'.ep.frames);
      && (e == [] || (e == [NewNop(n.ep.config.version)] && n.ep.frames.connected))
      && n'.ep == n.ep.(frames := n.ep.frames.(queue := n.ep.frames.queue + e), pinging := n'.ep.pinging)
      && n' == n.(ep := n'.ep, sent := n.sent + e)
  {
    TrySendEmits(n.ep.frames, NewNop(n.ep.config.version));
    NothingEmitted(n.ep.frames);
  }

  lemma PingKeeps(n: Node)
    requires Inv(n)
    ensures Inv(PingNode(n))
  {
    var n' := PingNode(n);
    PingShape(n);
    PingSent(n, n', Emitted(n.ep.frames, n'.ep.frames));
    assert Arrived(n') == Arrived(n);
    UntouchedKeeps(n, n');
  }

  lemma PingSent(n: Node, n': Node, e: seq<Frame>)
    requires SentOk(n) && Filtered(n) && Tx(n)
    requires n.ep.config.version != 0
    requires e == [] || (e == [NewNop(n.ep.config.version)] && n.ep.frames.connected)
    requires n'.ep == n.ep.(frames := n.ep.frames.(queue := n.ep.frames.queue + e), pinging := n'.ep.pinging)
    requires n' == n.(ep := n'.ep, sent := n.sent + e)
    ensures SentOk(n') && Filtered(n')
  {
    if e == [] {
      assert n.sent + e == n.sent && n.ep.frames.queue + e == n.ep.frames.queue;
    } else {
      assert n.sent + e == n.popped + (n.ep.frames.queue + e) + [];
    }
    if UniqueIds(n'.ep.handles) {
      forall k | 0 <= k < |n'.tracks|
        ensures FramesOf(n'.sent, n'.ep.handles[k].id) == n'.tracks[k].out
      {
        assert TxOk(n.ep.isClient, n.ep.config, n.ep.frames.connected, n.ep.handles[k], n.tracks[k]);
        FramesOfOthers(n.sent, e, n.ep.handles[k].id, 0);
        assert n.tracks[k].out + [] == n.tracks[k].out;
      }
    }
  }

  // ===== one operation, and any run ==========================================================

  /** What the application calls. */
  predicate IsCall(op: Op) {
    op.OpOpen? || op.OpAccept? || op.OpRead? || op.OpCall?
  }

  lemma AppCallKeeps(n: Node, op: Op)
    requires Inv(n) && IsCall(op) && IdsFit(Apply(n, op))
    ensures Inv(Apply(n, op))
  {
    match op
    case OpOpen(passed) => OpenKeeps(n, Seen(n.ep, passed));
    case OpAccept(passed) => AcceptKeeps(n, Seen(n.ep, passed));
    case OpRead(k, room, passed) => if At(n, k, User) && room > 0 { ReadKeeps(n, k, room, Seen(n.ep, passed)); }
    case OpCall(k, call) => if At(n, k, CallPlace(call)) { CallKeeps(n, k, call); }
  }

  /** A change of the flags and of what the receive loop does. */
  lemma FlagsKeep(n: Node, ep: Endpoint)
    requires Inv(n) && !n.ep.task.AwaitAccept? && !ep.task.AwaitAccept? && !ep.task.AwaitTokens?
    requires ep == n.ep.(closed := ep.closed, dataReceived := ep.dataReceived, task := ep.task)
    ensures Inv(n.(ep := ep))
  {
    UntouchedKeeps(n, n.(ep := ep));
  }

  lemma ClosedKeeps(n: Node, ep: Endpoint)
    requires Inv(n) && ep == n.ep.(closed := ep.closed, dataReceived := ep.dataReceived)
    ensures Inv(n.(ep := ep))
  {
    assert Arrived(n.(ep := ep)) == Arrived(n);
    UntouchedKeeps(n, n.(ep := ep));
  }

  lemma LoopKeeps(n: Node, op: Op)
    requires Inv(n) && LedgerFits(n) && !IsCall(op)
    ensures Inv(Apply(n, op))
  {
    match op
    case OpDispatch(f) => if n.ep.task.Idle? { DispatchKeeps(n, f); }
    case OpAcceptResume => AcceptResumeKeeps(n);
    case OpTokenRetry =>
    case OpTokenAbort =>
    case OpTransmit => TransmitKeeps(n);
    case OpSendStop => SendStopKeeps(n);
    case OpRecvStop => if n.ep.task.Idle? { FlagsKeep(n, RecvStop(n.ep)); }
    case OpCloseSession => ClosedKeeps(n, n.ep.(closed := true));
    case OpPing => PingKeeps(n);
    case OpTimeoutTick => ClosedKeeps(n, TimeoutTick(n.ep));
  }

  /** Every operation keeps the invariant, as long as neither counter has overflowed. */
  lemma ApplyKeeps(n: Node, op: Op)
    requires Inv(n) && Fits(Apply(n, op))
    ensures Inv(Apply(n, op))
  {
    ApplyExtends(n, op);
    if IsCall(op) {
      AppCallKeeps(n, op);
    } else {
      LoopKeeps(n, op);
    }
  }

  lemma {:induction false} RunInv(isClient: bool, config: Config, ops: seq<Op>)
    requires config.Validates() && Fits(Run(NewNode(isClient, config), ops))
    ensures Inv(Run(NewNode(isClient, config), ops))
  {
    if ops == [] {
      InitInv(isClient, config);
    } else {
      var n := Run(NewNode(isClient, config), ops[..|ops| - 1]);
      var op := ops[|ops| - 1];
      ApplyExtends(n, op);
      RunInv(isClient, config, ops[..|ops| - 1]);
      ApplyKeeps(n, op);
    }
  }
}
