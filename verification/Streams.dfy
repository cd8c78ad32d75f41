/** Streams and channels as the source keeps them: objects updated in place. */
module Streams {
  import opened Wrappers
  import opened Frames
  import opened SS = StreamSpec
  import opened SessionSpec

  /** The state shared by a session's tasks and streams. */
  class SessionState {
    var closed: bool
    var tokens: I64
    var dataReceived: bool

    constructor (bufferSize: nat)
      ensures !closed && tokens == WrapI64(bufferSize) && dataReceived
    {
      closed := false;
      tokens := WrapI64(bufferSize);
      dataReceived := true;
    }

    method Close()
      modifies this`closed
      ensures closed
    {
      closed := true;
    }

    method ReturnTokens(count: nat)
      modifies this`tokens
      ensures tokens == WrapI64(old(tokens) + count)
    {
      tokens := WrapI64(tokens + count);
    }

    method TakeTokens(count: nat) returns (left: I64)
      modifies this`tokens
      ensures left == tokens == WrapI64(old(tokens) - count)
    {
      tokens := WrapI64(tokens - count);
      left := tokens;
    }

    method MarkDataReceived()
      modifies this`dataReceived
      ensures dataReceived
    {
      dataReceived := true;
    }

    method CheckAndResetDataReceived() returns (was: bool)
      modifies this`dataReceived
      ensures was == old(dataReceived) && !dataReceived
    {
      was := dataReceived;
      dataReceived := false;
    }
  }

  /** The bounded channel of outgoing frames. */
  class FrameChannel {
    var queue: seq<Frame>
    const capacity: nat
    var connected: bool

    constructor (capacity: nat)
      ensures View() == FrameChan([], capacity, true)
    {
      this.capacity := capacity;
      queue := [];
      connected := true;
    }

    function View(): FrameChan
      reads this
    {
      FrameChan(queue, capacity, connected)
    }

    method TrySend(f: Frame) returns (s: Sending)
      modifies this
      ensures (s, View()) == SS.TrySend(old(View()), f)
    {
      if !connected {
        return Disconnected;
      }
      if |queue| >= capacity {
        return Full;
      }
      queue := queue + [f];
      s := Sent;
    }

    method Recv() returns (f: Option<Frame>)
      modifies this
      ensures old(queue) == [] ==> f == None && View() == old(View())
      ensures old(queue) != [] ==> f == Some(old(queue)[0]) && View() == old(View()).(queue := old(queue)[1..])
    {
      if queue == [] {
        return None;
      }
      f := Some(queue[0]);
      queue := queue[1..];
    }

    method Disconnect()
      modifies this
      ensures View() == FrameChan([], capacity, false)
    {
      queue := [];
      connected := false;
    }
  }

  /** The unbounded channel of one stream's payloads. */
  class DataChannel {
    var queue: seq<Bytes>
    var txOpen: bool
    var rxAlive: bool

    constructor ()
      ensures queue == [] && txOpen && rxAlive
    {
      queue := [];
      txOpen := true;
      rxAlive := true;
    }

    /** Fails if the stream has been dropped. */
    method Send(data: Bytes) returns (ok: bool)
      modifies this`queue
      ensures ok == rxAlive
      ensures queue == if rxAlive then old(queue) + [data] else old(queue)
    {
      ok := rxAlive;
      if rxAlive {
        queue := queue + [data];
      }
    }

    method DropSender()
      modifies this`txOpen
      ensures !txOpen
    {
      txOpen := false;
    }
  }

  /** The destination of a read. */
  class ReadBuf {
    var filled: Bytes
    const capacity: nat

    predicate Valid()
      reads this
    {
      |filled| <= capacity
    }

    function Remaining(): nat
      requires Valid()
      reads this
    {
      capacity - |filled|
    }

    constructor (capacity: nat)
      ensures Valid() && filled == [] && this.capacity == capacity
    {
      this.capacity := capacity;
      filled := [];
    }

    method PutSlice(data: Bytes)
      requires Valid() && |data| <= Remaining()
      modifies this
      ensures Valid() && filled == old(filled) + data
    {
      filled := filled + data;
    }
  }

  datatype Polled = Ready | Pending | BrokenPipe

  function PollOf(r: ReadResult): Polled {
    match r
    case Copied(_) => Ready
    case ReadPending => Pending
    case ReadBroken => BrokenPipe
  }

  /** What the answer of a read says of the buffer and of what the stream still holds. */
  lemma ReadMeans(h: Handle, closed: bool, room: nat, filled: Bytes)
    ensures var (r, h') := SS.PollRead(h, closed, room);
      var filled' := filled + CopiedBytes(r);
      && (h.readClosed ==> PollOf(r) == Ready && filled' == filled && h' == h)
      && (WellChunked(h) && room > 0 ==>
            && (PollOf(r).BrokenPipe? <==> closed)
            && (PollOf(r).Pending? <==> !closed && Flat(h) == [] && h.txOpen)
            && (PollOf(r).Ready? && filled' == filled <==> !closed && Flat(h) == [] && !h.txOpen)
            && filled' + Flat(h') == filled + Flat(h))
  {
    var (r, h') := SS.PollRead(h, closed, room);
    assert filled + [] == filled;
    if WellChunked(h) && room > 0 {
      ReadAnswers(h, closed, room);
      assert filled + CopiedBytes(r) + Flat(h') == filled + (CopiedBytes(r) + Flat(h'));
      assert |filled + CopiedBytes(r)| == |filled| + |CopiedBytes(r)|;
    }
  }

  class Stream {
    const id: U32
    const frameTx: FrameChannel
    const dataRx: DataChannel
    const state: SessionState
    const config: Config
    var currentChunk: Option<Bytes>
    var isReadClosed: bool
    var isWriteClosed: bool
    /** Who owns the stream; the source leaves this to the type system. */
    ghost var place: Place

    constructor (id: U32, frameTx: FrameChannel, dataRx: DataChannel, state: SessionState, config: Config,
                 ghost place: Place)
      ensures this.id == id && this.frameTx == frameTx && this.dataRx == dataRx
      ensures this.state == state && this.config == config && this.place == place
      ensures currentChunk == None && !isReadClosed && !isWriteClosed
    {
      this.id := id;
      this.frameTx := frameTx;
      this.dataRx := dataRx;
      this.state := state;
      this.config := config;
      this.place := place;
      currentChunk := None;
      isReadClosed := false;
      isWriteClosed := false;
    }

    ghost predicate Valid()
      reads this, dataRx
    {
      dataRx.rxAlive <==> !place.Dropped?
    }

    ghost function View(): Handle
      reads this, dataRx
    {
      Handle(id, place, currentChunk, dataRx.queue, dataRx.txOpen, isReadClosed, isWriteClosed)
    }

    /** `poll_read`. `passed`: the call looked at the closed flag before the session closed. Stream, buffer and
        tokens follow the read function. What the answer means is said without it: broken exactly if the call
        found the session closed; waiting exactly if nothing is held and the session may still send; ready with
        nothing read, which is EOF, exactly if nothing is held and the session has let go of the channel. */
    method PollRead(buf: ReadBuf, passed: bool) returns (p: Polled)
      requires Valid() && buf.Valid()
      modifies this`currentChunk, dataRx`queue, state`tokens, buf
      ensures Valid() && buf.Valid()
      ensures var (r, h) := SS.PollRead(old(View()), old(state.closed) && !passed, buf.capacity - |old(buf.filled)|);
        && p == PollOf(r)
        && View() == h
        && buf.filled == old(buf.filled) + CopiedBytes(r)
        && state.tokens == WrapI64(old(state.tokens) + |CopiedBytes(r)|)
      ensures old(isReadClosed) ==> p.Ready? && buf.filled == old(buf.filled) && View() == old(View())
      ensures WellChunked(old(View())) && |old(buf.filled)| < buf.capacity ==>
        var found := old(state.closed) && !passed;
        && (p.BrokenPipe? <==> found)
        && (p.Pending? <==> !found && Flat(old(View())) == [] && old(dataRx.txOpen))
        && (p.Ready? && buf.filled == old(buf.filled) <==> !found && Flat(old(View())) == [] && !old(dataRx.txOpen))
        && buf.filled + Flat(View()) == old(buf.filled) + Flat(old(View()))
    {
      ReadMeans(View(), state.closed && !passed, buf.capacity - |buf.filled|, buf.filled);
      p := ReadInto(buf, passed);
    }

    method ReadInto(buf: ReadBuf, passed: bool) returns (p: Polled)
      requires Valid() && buf.Valid()
      modifies this`currentChunk, dataRx`queue, state`tokens, buf
      ensures Valid() && buf.Valid()
      ensures var (r, h) := SS.PollRead(old(View()), old(state.closed) && !passed, buf.capacity - |old(buf.filled)|);
        && p == PollOf(r)
        && View() == h
        && buf.filled == old(buf.filled) + CopiedBytes(r)
        && state.tokens == WrapI64(old(state.tokens) + |CopiedBytes(r)|)
    {
      if isReadClosed {
        return Ready;
      }
      if state.closed && !passed {
        return BrokenPipe;
      }
      if currentChunk.Some? {
        var chunk := currentChunk.value;
        var n := Min(|chunk|, buf.Remaining());
        if n > 0 {
          buf.PutSlice(chunk[..n]);
          state.ReturnTokens(n);
          currentChunk := if chunk[n..] == [] then None else Some(chunk[n..]);
          return Ready;
        }
      }
      if dataRx.queue != [] {
        var chunk := dataRx.queue[0];
        dataRx.queue := dataRx.queue[1..];
        var n := Min(|chunk|, buf.Remaining());
        if n > 0 {
          buf.PutSlice(chunk[..n]);
          state.ReturnTokens(n);
          if chunk[n..] != [] {
            currentChunk := Some(chunk[n..]);
          }
        } else {
          currentChunk := Some(chunk);
        }
        return Ready;
      }
      p := if dataRx.txOpen then Pending else Ready;
    }

    /** `poll_write`; `passed` as for `poll_read`. */
    method PollWrite(buf: Bytes, passed: bool) returns (r: WriteResult)
      requires Valid()
      modifies frameTx
      ensures Valid() && View() == old(View())
      ensures (r, frameTx.View()) ==
        SS.PollWrite(View(), state.closed && !passed, old(frameTx.View()), config.maxFrameSize, buf)
    {
      if (state.closed && !passed) || isWriteClosed {
        return WriteBroken;
      }
      if buf == [] {
        return Accepted(0);
      }
      var maxPayload := if config.maxFrameSize < HEADER_SIZE then 0 else config.maxFrameSize - HEADER_SIZE;
      var n := Min(|buf|, maxPayload);
      var s := frameTx.TrySend(NewPsh(1, id, buf[..n]));
      match s
      case Sent => r := Accepted(n);
      case Full => r := WritePending;
      case Disconnected => r := WriteBroken;
    }

    /** `poll_shutdown`. */
    method PollShutdown() returns (s: Sending)
      requires Valid()
      modifies this`isWriteClosed, frameTx
      ensures Valid()
      ensures (s, View(), frameTx.View()) == SS.PollShutdown(old(View()), old(frameTx.View()))
    {
      if isWriteClosed {
        return Sent;
      }
      s := frameTx.TrySend(NewFin(1, id));
      if s.Full? {
        return Full;
      }
      isWriteClosed := true;
      s := Sent;
    }

    /** `close` up to its await. */
    method CloseStart() returns (waiting: bool)
      requires Valid() && place.User?
      modifies this`isWriteClosed, this`place
      ensures Valid() && View() == SS.CloseStart(old(View())) && (waiting <==> place.Closing?)
    {
      waiting := !isWriteClosed;
      isWriteClosed := true;
      if waiting {
        place := Closing;
      }
    }

    /** `close` when its await is polled. */
    method CloseResume() returns (s: Sending)
      requires Valid() && place.Closing?
      modifies this`place, frameTx
      ensures Valid()
      ensures (s, View(), frameTx.View()) == SS.CloseResume(old(View()), old(frameTx.View()))
    {
      s := frameTx.TrySend(NewFin(1, id));
      if !s.Full? {
        place := User;
      }
    }

    /** `drop`. */
    method Drop()
      requires Valid()
      modifies this`isWriteClosed, this`place, frameTx, dataRx`rxAlive
      ensures Valid() && (View(), frameTx.View()) == SS.DropHandle(old(View()), old(frameTx.View()))
    {
      if !isWriteClosed {
        isWriteClosed := true;
        var _ := frameTx.TrySend(NewFin(1, id));
      }
      dataRx.rxAlive := false;
      place := Dropped;
    }

    /** `open_stream` when its await is polled; on failure the stream is dropped. */
    method OpenResume() returns (s: Sending)
      requires Valid() && place.Opening?
      modifies this`isWriteClosed, this`place, frameTx, dataRx`rxAlive
      ensures Valid()
      ensures (s, View(), frameTx.View()) == SessionSpec.OpenResume(old(View()), config.version, old(frameTx.View()))
    {
      s := frameTx.TrySend(NewSyn(config.version, id));
      match s
      case Sent => place := User;
      case Full =>
      case Disconnected => Drop();
    }
  }
}
