/** One stream handle and the channels it talks to, as values; `poll_read`, `poll_write`, `close`,
    `poll_shutdown` and `Drop` as functions on them. */
module StreamSpec {
  import opened Wrappers
  import opened Frames
  import opened CodecSpec

  /** Who holds the handle: an `open_stream` call that still has to send its SYN, the accept queue,
      the application, a `close` call that still has to send its FIN, or nobody. */
  datatype Place = Opening | Queued | User | Closing | Dropped

  /** A stream together with its data channel: `queue` is what the channel holds and `txOpen` says
      whether the session still keeps the sending half. */
  datatype Handle = Handle(
    id: U32,
    place: Place,
    chunk: Option<Bytes>,
    queue: seq<Bytes>,
    txOpen: bool,
    readClosed: bool,
    writeClosed: bool)

  function NewHandle(id: U32, place: Place): Handle {
    Handle(id, place, None, [], true, false, false)
  }

  /** The bounded channel to the send loop; it is disconnected once the send loop is gone. */
  datatype FrameChan = FrameChan(queue: seq<Frame>, capacity: nat, connected: bool)

  datatype Sending = Sent | Full | Disconnected

  function TrySend(ch: FrameChan, f: Frame): (Sending, FrameChan) {
    if !ch.connected then (Disconnected, ch)
    else if |ch.queue| >= ch.capacity then (Full, ch)
    else (Sent, ch.(queue := ch.queue + [f]))
  }

  // ----- reading -----------------------------------------------------------

  datatype ReadResult = Copied(data: Bytes) | ReadPending | ReadBroken

  function Min(a: nat, b: nat): nat {
    if a <= b then a else b
  }

  function AfterChunk(chunk: Bytes, n: nat, otherwise: Option<Bytes>): Option<Bytes>
    requires n <= |chunk|
  {
    if chunk[n..] == [] then otherwise else Some(chunk[n..])
  }

  /** `poll_read` into a buffer with `room` free bytes. */
  function PollRead(h: Handle, sessionClosed: bool, room: nat): (ReadResult, Handle) {
    if h.readClosed then
      (Copied([]), h)
    else if sessionClosed then
      (ReadBroken, h)
    else if h.chunk.Some? && Min(|h.chunk.value|, room) > 0 then
      var n := Min(|h.chunk.value|, room);
      (Copied(h.chunk.value[..n]), h.(chunk := AfterChunk(h.chunk.value, n, None)))
    else if h.queue != [] then
      var c := h.queue[0];
      var n := Min(|c|, room);
      (Copied(c[..n]),
       h.(chunk := if n > 0 then AfterChunk(c, n, h.chunk) else Some(c), queue := h.queue[1..]))
    else if h.txOpen then
      (ReadPending, h)
    else
      (Copied([]), h)
  }

  function CopiedBytes(r: ReadResult): Bytes {
    if r.Copied? then r.data else []
  }

  /** Everything the reader has been given and has not read. */
  function Flat(h: Handle): Bytes {
    (if h.chunk.Some? then h.chunk.value else []) + Concat(h.queue)
  }

  predicate WellChunked(h: Handle) {
    && !h.readClosed
    && (h.chunk.Some? ==> h.chunk.value != [])
    && (forall i :: 0 <= i < |h.queue| ==> h.queue[i] != [])
  }

  /** The chunk the next read takes from. */
  function HeadChunk(h: Handle): Bytes
    requires h.chunk.Some? || h.queue != []
  {
    if h.chunk.Some? then h.chunk.value else h.queue[0]
  }

  lemma TakeFront(c: Bytes, n: nat, rest: Bytes)
    requires n <= |c|
    ensures c[..n] + (c[n..] + rest) == c + rest
  {
    assert c[..n] + c[n..] == c;
  }

  lemma ReadConserves(h: Handle, room: nat)
    requires WellChunked(h) && room > 0
    ensures var (r, h') := PollRead(h, false, room); CopiedBytes(r) + Flat(h') == Flat(h)
  {
    var (r, h') := PollRead(h, false, room);
    if h.chunk.Some? {
      var c := h.chunk.value;
      var n := Min(|c|, room);
      TakeFront(c, n, Concat(h.queue));
      assert Flat(h') == c[n..] + Concat(h.queue);
    } else if h.queue != [] {
      var c := h.queue[0];
      var n := Min(|c|, room);
      TakeFront(c, n, Concat(h.queue[1..]));
      assert Flat(h') == c[n..] + Concat(h.queue[1..]);
      assert Flat(h) == Concat(h.queue);
    } else {
      assert [] + Flat(h) == Flat(h);
    }
  }

  lemma FlatEmpty(h: Handle)
    requires WellChunked(h)
    ensures Flat(h) == [] <==> h.chunk.None? && h.queue == []
  {
  }

  lemma ReadShape(h: Handle, room: nat)
    requires WellChunked(h) && room > 0
    ensures var h' := PollRead(h, false, room).1;
      WellChunked(h') && h' == h.(chunk := h'.chunk, queue := h'.queue)
  {
    var h' := PollRead(h, false, room).1;
    forall i | 0 <= i < |h'.queue|
      ensures h'.queue[i] != []
    {
      assert h'.queue[i] == h.queue[i + |h.queue| - |h'.queue|];
    }
  }

  lemma ReadAmount(h: Handle, room: nat)
    requires WellChunked(h) && room > 0
    ensures var (r, h') := PollRead(h, false, room);
      if h.chunk.None? && h.queue == []
      then h' == h && r == if h.txOpen then ReadPending else Copied([])
      else r.Copied? && |r.data| == Min(|HeadChunk(h)|, room) > 0
  {
  }

  /** A read into a non-empty buffer takes a non-empty prefix of the flat byte queue, as long as the
      head chunk and the buffer allow; on an empty queue it waits, or reports EOF once the session has
      let go of the sending half. */
  lemma ReadIsFifo(h: Handle, room: nat)
    requires WellChunked(h) && room > 0
    ensures var (r, h') := PollRead(h, false, room);
      && WellChunked(h')
      && h' == h.(chunk := h'.chunk, queue := h'.queue)
      && CopiedBytes(r) + Flat(h') == Flat(h)
      && if Flat(h) == []
         then h' == h && r == if h.txOpen then ReadPending else Copied([])
         else r.Copied? && (h.chunk.Some? || h.queue != []) && |r.data| == Min(|HeadChunk(h)|, room) > 0
  {
    ReadShape(h, room);
    ReadConserves(h, room);
    ReadAmount(h, room);
    FlatEmpty(h);
  }

  /** What each answer of a read into a non-empty buffer means. */
  lemma ReadAnswers(h: Handle, sessionClosed: bool, room: nat)
    requires WellChunked(h) && room > 0
    ensures var (r, h') := PollRead(h, sessionClosed, room);
      && (r.ReadBroken? <==> sessionClosed)
      && (r.ReadPending? <==> !sessionClosed && Flat(h) == [] && h.txOpen)
      && (r == Copied([]) <==> !sessionClosed && Flat(h) == [] && !h.txOpen)
      && CopiedBytes(r) + Flat(h') == Flat(h)
      && (CopiedBytes(r) == [] ==> h' == h)
  {
    if sessionClosed {
      assert [] + Flat(h) == Flat(h);
    } else {
      ReadIsFifo(h, room);
    }
  }

  lemma EmptyBufferRead(h: Handle)
    requires WellChunked(h)
    ensures var (r, h') := PollRead(h, false, 0);
      && CopiedBytes(r) == []
      && h' == if h.queue == [] then h else h.(chunk := Some(h.queue[0]), queue := h.queue[1..])
  {
  }

  /** On any buffer, empty ones included, a read keeps the byte queue intact exactly when it is not
      the case that an empty buffer meets a partly read chunk and a waiting one: then the held chunk
      is overwritten and its bytes are gone. */
  lemma ReadKeepsBytes(h: Handle, sessionClosed: bool, room: nat)
    requires WellChunked(h)
    ensures var (r, h') := PollRead(h, sessionClosed, room);
      CopiedBytes(r) + Flat(h') == Flat(h) <==>
      !(!sessionClosed && room == 0 && h.chunk.Some? && h.queue != [])
  {
    var (r, h') := PollRead(h, sessionClosed, room);
    if sessionClosed {
      assert [] + Flat(h) == Flat(h);
    } else if room > 0 {
      ReadConserves(h, room);
    } else {
      EmptyBufferRead(h);
      assert [] + Flat(h') == Flat(h');
      assert h.queue != [] ==> Flat(h') == Concat(h.queue);
      assert |Flat(h)| == |if h.chunk.Some? then h.chunk.value else []| + |Concat(h.queue)|;
    }
  }

  // ----- a whole history of one reader ---------------------------------------

  datatype ReaderEvent = Arrive(chunk: Bytes) | HangUp | Read(room: nat)

  predicate Admissible(e: ReaderEvent) {
    match e
    case Arrive(c) => c != []
    case HangUp => true
    case Read(room) => room > 0
  }

  function ReaderStep(h: Handle, e: ReaderEvent): (ReadResult, Handle) {
    match e
    case Arrive(c) => (Copied([]), if h.txOpen then h.(queue := h.queue + [c]) else h)
    case HangUp => (Copied([]), h.(txOpen := false))
    case Read(room) => PollRead(h, false, room)
  }

  function ReaderRun(h: Handle, es: seq<ReaderEvent>): (Bytes, Handle)
    decreases |es|
  {
    if es == [] then ([], h)
    else
      var (r, h1) := ReaderStep(h, es[0]);
      var (more, h2) := ReaderRun(h1, es[1..]);
      (CopiedBytes(r) + more, h2)
  }

  /** The chunks that reached the channel while the sending half was held. */
  function Arrivals(es: seq<ReaderEvent>, open: bool): Bytes
    decreases |es|
  {
    if es == [] || !open then []
    else (if es[0].Arrive? then es[0].chunk else []) + Arrivals(es[1..], !es[0].HangUp?)
  }

  lemma FlatSnoc(h: Handle, c: Bytes)
    ensures Flat(h.(queue := h.queue + [c])) == Flat(h) + c
  {
    ConcatSnoc(h.queue, c);
    var front := if h.chunk.Some? then h.chunk.value else [];
    assert front + (Concat(h.queue) + c) == front + Concat(h.queue) + c;
  }

  lemma ReaderStepConserves(h: Handle, e: ReaderEvent)
    requires WellChunked(h) && Admissible(e)
    ensures var (r, h1) := ReaderStep(h, e);
      && WellChunked(h1)
      && h1.txOpen == (h.txOpen && !e.HangUp?)
      && CopiedBytes(r) + Flat(h1) == Flat(h) + if h.txOpen && e.Arrive? then e.chunk else []
  {
    match e {
      case Arrive(c) => FlatSnoc(h, c);
      case HangUp =>
      case Read(room) => ReadConserves(h, room); ReadShape(h, room);
    }
  }

  lemma Glue(out: Bytes, more: Bytes, left: Bytes, flat1: Bytes, flat: Bytes, x: Bytes, later: Bytes)
    requires out + flat1 == flat + x && more + left == flat1 + later
    ensures out + more + left == flat + (x + later)
  {
    assert out + more + left == out + (more + left);
    assert out + (flat1 + later) == out + flat1 + later;
  }

  /** For every history of arrivals and reads into non-empty buffers of any sizes, the chunk queue is
      one byte queue: what was read, followed by what is still held, is what was held at the start
      followed by what arrived. */
  lemma {:induction false} ReaderIsByteQueue(h: Handle, es: seq<ReaderEvent>)
    requires WellChunked(h)
    requires forall i :: 0 <= i < |es| ==> Admissible(es[i])
    ensures var (out, h') := ReaderRun(h, es);
      WellChunked(h') && out + Flat(h') == Flat(h) + Arrivals(es, h.txOpen)
    decreases |es|
  {
    if es != [] {
      assert Admissible(es[0]);
      ReaderStepConserves(h, es[0]);
      var (r, h1) := ReaderStep(h, es[0]);
      ReaderIsByteQueue(h1, es[1..]);
      var (more, h2) := ReaderRun(h1, es[1..]);
      var x := if h.txOpen && es[0].Arrive? then es[0].chunk else [];
      Glue(CopiedBytes(r), more, Flat(h2), Flat(h1), Flat(h), x, Arrivals(es[1..], h1.txOpen));
      assert h.txOpen || Arrivals(es[1..], h1.txOpen) == [];
    }
  }

  lemma ReaderRunCons(h: Handle, e: ReaderEvent, es: seq<ReaderEvent>)
    ensures var (r, h1) := ReaderStep(h, e);
      var (more, h2) := ReaderRun(h1, es);
      ReaderRun(h, [e] + es) == (CopiedBytes(r) + more, h2)
  {
    assert ([e] + es)[1..] == es;
  }

  /** The smallest case of bytes lost to an empty read buffer: two chunks arrive, one byte of the first is
      read, and a read into an empty buffer then throws the rest of it away. */
  lemma EmptyReadLosesBytes(id: U32)
    ensures var (out, h) := ReaderRun(NewHandle(id, User), [Arrive([0, 1]), Arrive([2]), Read(1)]);
      && out == [0] && Flat(h) == [1, 2]
      && PollRead(h, false, 0).0 == Copied([]) && Flat(PollRead(h, false, 0).1) == [2]
  {
    var g := NewHandle(id, User);
    var a, b, r := Arrive([0, 1]), Arrive([2]), Read(1);
    var x: Bytes, y: Bytes := [0, 1], [2];
    var h1 := ReaderStep(g, a).1;
    assert g.queue + [x] == [x];
    assert h1 == g.(queue := [x]);
    var h2 := ReaderStep(h1, b).1;
    assert [x] + [y] == [x, y];
    assert h2 == g.(queue := [x, y]);
    assert [x, y][1..] == [y] && x[..1] == [0] && x[1..] == [1];
    var h3 := ReaderStep(h2, r).1;
    assert h3 == g.(chunk := Some([1]), queue := [[2]]);
    assert ReaderStep(h2, r) == (Copied([0]), h3);
    ReaderRunCons(h2, r, []);
    ReaderRunCons(h1, b, [r]);
    ReaderRunCons(g, a, [b, r]);
    assert [b] + [r] == [b, r] && [a] + [b, r] == [a, b, r] && [r] + [] == [r];
    assert x[..1] + [] == [0] && [] + x[..1] == [0];
    assert Concat([[2]]) == [2] + Concat([]) == [2];
  }

  // ----- writing and closing -------------------------------------------------

  datatype WriteResult = Accepted(n: nat) | WritePending | WriteBroken

  function MaxPayload(maxFrameSize: nat): nat {
    if maxFrameSize <= HEADER_SIZE then 0 else maxFrameSize - HEADER_SIZE
  }

  function PollWrite(h: Handle, sessionClosed: bool, ch: FrameChan, maxFrameSize: nat, buf: Bytes)
    : (WriteResult, FrameChan)
  {
    if sessionClosed || h.writeClosed then
      (WriteBroken, ch)
    else if buf == [] then
      (Accepted(0), ch)
    else
      var n := Min(|buf|, MaxPayload(maxFrameSize));
      var (s, ch') := TrySend(ch, NewPsh(1, h.id, buf[..n]));
      match s
      case Sent => (Accepted(n), ch')
      case Full => (WritePending, ch')
      case Disconnected => (WriteBroken, ch')
  }

  function PollShutdown(h: Handle, ch: FrameChan): (Sending, Handle, FrameChan) {
    if h.writeClosed then (Sent, h, ch)
    else
      var (s, ch') := TrySend(ch, NewFin(1, h.id));
      if s.Full? then (Full, h, ch') else (Sent, h.(writeClosed := true), ch')
  }

  /** `close` up to its await: the flag is swapped first. */
  function CloseStart(h: Handle): Handle {
    if h.writeClosed then h else h.(writeClosed := true, place := Closing)
  }

  /** `close` once its FIN gets an answer from the channel. */
  function CloseResume(h: Handle, ch: FrameChan): (Sending, Handle, FrameChan) {
    var (s, ch') := TrySend(ch, NewFin(1, h.id));
    if s.Full? then (Full, h, ch') else (s, h.(place := User), ch')
  }

  /** `Drop`: a FIN is sent if it was not before and the channel takes it at once. */
  function DropHandle(h: Handle, ch: FrameChan): (Handle, FrameChan) {
    if h.writeClosed then (h.(place := Dropped), ch)
    else
      var (_, ch') := TrySend(ch, NewFin(1, h.id));
      (h.(place := Dropped, writeClosed := true), ch')
  }

  /** A write reports what it did: it accepts bytes exactly if both sides are open and the channel has room,
      and then queues one frame with exactly the bytes it reports; otherwise it queues nothing. It waits only
      for room. It reports zero bytes of a non-empty buffer exactly if no payload fits a frame; the frame
      queued is then empty. */
  lemma WriteIsHonest(h: Handle, sessionClosed: bool, ch: FrameChan, maxFrameSize: nat, buf: Bytes)
    requires buf != []
    ensures var (r, ch') := PollWrite(h, sessionClosed, ch, maxFrameSize, buf);
      && (r.Accepted? <==> !sessionClosed && !h.writeClosed && HasRoom(ch))
      && (r.WritePending? <==> !sessionClosed && !h.writeClosed && ch.connected && !HasRoom(ch))
      && (r.Accepted? ==> r.n <= |buf| && ch' == ch.(queue := ch.queue + [NewPsh(1, h.id, buf[..r.n])]))
      && (!r.Accepted? ==> ch' == ch)
      && (r.Accepted? ==> (r.n == 0 <==> maxFrameSize <= HEADER_SIZE))
  {
  }

  /** An empty write succeeds at once on an open stream, and never queues anything. */
  lemma EmptyWrite(h: Handle, sessionClosed: bool, ch: FrameChan, maxFrameSize: nat)
    ensures var (r, ch') := PollWrite(h, sessionClosed, ch, maxFrameSize, []);
      && (r == Accepted(0) <==> !sessionClosed && !h.writeClosed)
      && (r == WriteBroken <==> sessionClosed || h.writeClosed)
      && ch' == ch
  {
  }

  /** What each answer of `poll_shutdown` means. It waits exactly while the stream is open for writing and a
      live frame channel is full, and has then done nothing. Otherwise it has closed the stream for writing,
      and its FIN went out exactly if the stream was open and there was room. */
  lemma ShutdownAnswers(h: Handle, ch: FrameChan)
    ensures var (s, h', ch') := PollShutdown(h, ch);
      && (s.Full? <==> !h.writeClosed && ch.connected && !HasRoom(ch))
      && (s.Sent? <==> h.writeClosed || !ch.connected || HasRoom(ch))
      && (s.Full? ==> h' == h && ch' == ch)
      && (s.Sent? ==> h' == h.(writeClosed := true))
      && ch'.queue == ch.queue + (if !h.writeClosed && HasRoom(ch) then [NewFin(1, h.id)] else [])
      && ch' == ch.(queue := ch'.queue)
  {
    assert ch.queue + [] == ch.queue;
  }

  /** What each answer of `close` means. On a stream closed for writing it does nothing. Otherwise the stream is
      closed for writing at once, and the call waits exactly while a live frame channel is full; it fails
      exactly if the send loop is gone, and succeeds with its FIN queued. */
  lemma CloseAnswers(h: Handle, ch: FrameChan)
    ensures h.writeClosed ==> CloseStart(h) == h
    ensures !h.writeClosed ==> CloseStart(h) == h.(writeClosed := true, place := Closing)
    ensures var (s, h', ch') := CloseResume(h, ch);
      && (s.Full? <==> ch.connected && !HasRoom(ch))
      && (s.Disconnected? <==> !ch.connected)
      && h' == (if s.Full? then h else h.(place := User))
      && ch' == (if s.Sent? then ch.(queue := ch.queue + [NewFin(1, h.id)]) else ch)
  {
  }

  // ----- fragmentation ---------------------------------------------------------

  /** The frames a long buffer becomes. */
  function Fragments(id: U32, maxPayload: nat, buf: Bytes): seq<Frame>
    requires maxPayload > 0
    decreases |buf|
  {
    if buf == [] then [] else
      var n := Min(|buf|, maxPayload);
      [NewPsh(1, id, buf[..n])] + Fragments(id, maxPayload, buf[n..])
  }

  function Payloads(fs: seq<Frame>): seq<Bytes> {
    seq(|fs|, i requires 0 <= i < |fs| => fs[i].data)
  }

  /** k is n / b, rounded up. */
  predicate IsCeiling(k: nat, n: nat, b: nat) {
    n <= k * b < n + b
  }

  lemma CeilingStep(k: nat, rest: nat, n: nat, b: nat)
    requires IsCeiling(k, rest, b) && 0 < n <= b && (n < b ==> rest == 0)
    ensures IsCeiling(k + 1, rest + n, b)
  {
    assert (k + 1) * b == k * b + b;
    assert k >= 1 ==> k * b >= b;
  }

  lemma {:induction false} FragmentsCount(id: U32, maxPayload: nat, buf: Bytes)
    requires maxPayload > 0
    ensures IsCeiling(|Fragments(id, maxPayload, buf)|, |buf|, maxPayload)
    decreases |buf|
  {
    if buf != [] {
      var n := Min(|buf|, maxPayload);
      FragmentsCount(id, maxPayload, buf[n..]);
      CeilingStep(|Fragments(id, maxPayload, buf[n..])|, |buf| - n, n, maxPayload);
    }
  }

  /** A buffer of n bytes becomes ceil(n / maxPayload) frames, none empty and none over the limit, whose
      payloads are the buffer. */
  lemma {:induction false} FragmentsCover(id: U32, maxPayload: nat, buf: Bytes)
    requires maxPayload > 0
    ensures var fs := Fragments(id, maxPayload, buf);
      && IsCeiling(|fs|, |buf|, maxPayload)
      && Concat(Payloads(fs)) == buf
      && (forall i :: 0 <= i < |fs| ==> fs[i] == NewPsh(1, id, fs[i].data) && 0 < |fs[i].data| <= maxPayload)
    decreases |buf|
  {
    FragmentsCount(id, maxPayload, buf);
    if buf != [] {
      var n := Min(|buf|, maxPayload);
      var fs, gs := Fragments(id, maxPayload, buf), Fragments(id, maxPayload, buf[n..]);
      FragmentsCover(id, maxPayload, buf[n..]);
      assert Payloads(fs) == [buf[..n]] + Payloads(gs);
      assert Payloads(fs)[1..] == Payloads(gs);
      assert buf[..n] + buf[n..] == buf;
    } else {
      assert Payloads([]) == [];
    }
  }

  /** `poll_write` called again and again on what is left of `buf`; `channels` are the states in which
      the successive calls find the frame channel. Returns the frames sent and the bytes left. */
  function WriteRun(h: Handle, maxFrameSize: nat, buf: Bytes, channels: seq<FrameChan>): (seq<Frame>, Bytes)
    decreases |channels|
  {
    if buf == [] || channels == [] then ([], buf)
    else
      var (r, ch') := PollWrite(h, false, channels[0], maxFrameSize, buf);
      match r
      case WriteBroken => ([], buf)
      case WritePending => WriteRun(h, maxFrameSize, buf, channels[1..])
      case Accepted(n) =>
        var (fs, left) := if n <= |buf| then WriteRun(h, maxFrameSize, buf[n..], channels[1..]) else ([], buf);
        (ch'.queue[Min(|channels[0].queue|, |ch'.queue|)..] + fs, left)
  }

  predicate HasRoom(ch: FrameChan) {
    ch.connected && |ch.queue| < ch.capacity
  }

  /** In how many of the channel's states there is room. */
  function RoomCount(channels: seq<FrameChan>): nat {
    if channels == [] then 0
    else (if HasRoom(channels[0]) then 1 else 0) + RoomCount(channels[1..])
  }

  /** Whatever the channel does in between, the frames sent are the first of the buffer's fragments and
      the bytes left are those of the others; a full or lost channel sends nothing. */
  lemma {:induction false} WriteRunFragments(h: Handle, maxFrameSize: nat, buf: Bytes, channels: seq<FrameChan>)
    requires !h.writeClosed && maxFrameSize > HEADER_SIZE
    ensures var (fs, left) := WriteRun(h, maxFrameSize, buf, channels);
      var p := maxFrameSize - HEADER_SIZE;
      fs + Fragments(h.id, p, left) == Fragments(h.id, p, buf)
    decreases |channels|
  {
    var p := MaxPayload(maxFrameSize);
    if buf != [] && channels != [] {
      var (r, ch') := PollWrite(h, false, channels[0], maxFrameSize, buf);
      match r {
        case WriteBroken =>
        case WritePending => WriteRunFragments(h, maxFrameSize, buf, channels[1..]);
        case Accepted(n) =>
          WriteRunFragments(h, maxFrameSize, buf[n..], channels[1..]);
          var q := channels[0].queue;
          assert (q + [NewPsh(1, h.id, buf[..n])])[|q|..] == [NewPsh(1, h.id, buf[..n])];
          var (fs, left) := WriteRun(h, maxFrameSize, buf[n..], channels[1..]);
          assert [NewPsh(1, h.id, buf[..n])] + fs + Fragments(h.id, p, left)
              == [NewPsh(1, h.id, buf[..n])] + (fs + Fragments(h.id, p, left));
      }
    }
  }

  /** While the send loop lives, writing again and again sends the whole buffer exactly if the channel
      has room at as many of the calls as the buffer has fragments; calls that find it full in between
      only wait. */
  lemma {:induction false} WriteRunFinishes(h: Handle, maxFrameSize: nat, buf: Bytes, channels: seq<FrameChan>)
    requires !h.writeClosed && maxFrameSize > HEADER_SIZE
    requires forall i :: 0 <= i < |channels| ==> channels[i].connected
    ensures WriteRun(h, maxFrameSize, buf, channels).1 == [] <==>
      RoomCount(channels) >= |Fragments(h.id, maxFrameSize - HEADER_SIZE, buf)|
    decreases |channels|
  {
    if buf != [] && channels != [] {
      var (r, ch') := PollWrite(h, false, channels[0], maxFrameSize, buf);
      match r {
        case WriteBroken =>
        case WritePending => WriteRunFinishes(h, maxFrameSize, buf, channels[1..]);
        case Accepted(n) => WriteRunFinishes(h, maxFrameSize, buf[n..], channels[1..]);
      }
    }
  }
}
