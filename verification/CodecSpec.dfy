/** The wire format as functions on byte sequences, and what they promise each other. */
module CodecSpec {
  import opened Wrappers
  import opened Frames
  import opened LittleEndian

  // ----- one frame ---------------------------------------------------------

  /** One call of `decode`: wait for bytes, hand over a frame, or fail.
      `rest` is what the call leaves in the buffer. */
  datatype Decoded =
    | NeedMore
    | Yield(frame: Frame, rest: Bytes)
    | Broken(error: Error, rest: Bytes)

  function DeclaredSize(src: Bytes): nat
    requires |src| >= HEADER_SIZE
  {
    HEADER_SIZE + GetU16(src[2..4])
  }

  function DecodeUpdData(data: Bytes): Result<(U32, U32), Error> {
    if |data| != 8 then Failure(ProtocolViolation(UpdLength))
    else Success((GetU32(data[..4]), GetU32(data[4..])))
  }

  /** What `decode` does with a complete frame's fields. */
  function Assemble(max: nat, version: Byte, cmd: Command, id: U32, data: Bytes): Result<Frame, Error> {
    if cmd.Upd? && version >= 2 && |data| != 8 then
      Failure(ProtocolViolation(UpdLength))
    else
      var finalCmd := if cmd.Upd? && version >= 2
                      then Upd(GetU32(data[..4]), GetU32(data[4..])) else cmd;
      var frame := Frame(version, finalCmd, id, if finalCmd.Upd? then [] else data);
      match frame.Validate(max)
      case Fail(e) => Failure(e)
      case Pass => Success(frame)
  }

  function Decode(max: nat, src: Bytes): (d: Decoded)
    ensures d.Yield? ==> |d.rest| + HEADER_SIZE <= |src|
  {
    if |src| < HEADER_SIZE then
      NeedMore
    else
      match Command.FromByte(src[1])
      case Failure(e) => Broken(e, src)
      case Success(cmd) =>
        var total := DeclaredSize(src);
        if total > max then
          Broken(FrameTooLarge(total, max), src)
        else if |src| < total then
          NeedMore
        else
          match Assemble(max, src[0], cmd, GetU32(src[4..8]), src[HEADER_SIZE..total])
          case Failure(e) => Broken(e, src[total..])
          case Success(frame) => Yield(frame, src[total..])
  }

  function EncodedPayload(f: Frame): Bytes {
    if f.cmd.Upd? && f.version >= 2
    then PutU32(f.cmd.consumed) + PutU32(f.cmd.window) else f.data
  }

  function EncodeHeader(version: Byte, cmd: Command, id: U32, length: U16): (b: Bytes)
    ensures |b| == HEADER_SIZE
  {
    [version, cmd.ToByte()] + PutU16(length) + PutU32(id)
  }

  /** A frame's bytes on the wire. */
  function WireForm(f: Frame): Bytes {
    EncodeHeader(f.version, f.cmd, f.id, |EncodedPayload(f)| % 0x1_0000) + EncodedPayload(f)
  }

  /** `encode`: the length field keeps only the low sixteen bits of the payload length. */
  function Encode(max: nat, f: Frame): Result<Bytes, Error> {
    match f.Validate(max)
    case Fail(e) => Failure(e)
    case Pass =>
      var payload := EncodedPayload(f);
      var length := |payload| % 0x1_0000;
      if HEADER_SIZE + length > max then
        Failure(FrameTooLarge(HEADER_SIZE + length, max))
      else
        Success(WireForm(f))
  }

  // ----- what one call promises --------------------------------------------

  /** The header fields are where `EncodeHeader` put them. */
  lemma HeaderFields(version: Byte, cmd: Command, id: U32, length: U16, tail: Bytes)
    ensures var s := EncodeHeader(version, cmd, id, length) + tail;
      && |s| >= HEADER_SIZE && s[0] == version && s[1] == cmd.ToByte()
      && GetU16(s[2..4]) == length && GetU32(s[4..8]) == id && s[HEADER_SIZE..] == tail
  {
    var s := EncodeHeader(version, cmd, id, length) + tail;
    assert s[2..4] == PutU16(length);
    assert s[4..8] == PutU32(id);
    U16RoundTrip(length, PutU16(length));
    U32RoundTrip(id, PutU32(id));
  }

  /** What `Assemble` makes of the payload an encoder wrote, at any limit it fits. */
  lemma AssembleEncoded(max: nat, f: Frame)
    requires f.Validate(max).Pass?
    ensures |f.data| <= U16_MAX ==>
      Assemble(max, f.version, if f.cmd.Upd? then Upd(0, 0) else f.cmd, f.id, EncodedPayload(f)) == Success(f)
  {
    if f.cmd.Upd? {
      var p := EncodedPayload(f);
      assert p[..4] == PutU32(f.cmd.consumed) && p[4..] == PutU32(f.cmd.window);
      U32RoundTrip(f.cmd.consumed, p[..4]);
      U32RoundTrip(f.cmd.window, p[4..]);
    }
  }

  /** A frame that one side could encode is read back by a peer with its own limit:
      whole if the peer's limit admits it, refused as too large otherwise. */
  lemma DecodeEncoded(maxSender: nat, maxReceiver: nat, f: Frame, rest: Bytes)
    requires Encode(maxSender, f).Success? && |f.data| <= U16_MAX
    ensures var bs := Encode(maxSender, f).value;
      && HEADER_SIZE <= |bs| <= HEADER_SIZE + U16_MAX && |bs| <= maxSender
      && Decode(maxReceiver, bs + rest) ==
         if |bs| <= maxReceiver then Yield(f, rest) else Broken(FrameTooLarge(|bs|, maxReceiver), bs + rest)
  {
    var bs := Encode(maxSender, f).value;
    var p := EncodedPayload(f);
    HeaderFields(f.version, f.cmd, f.id, |p|, p + rest);
    var s := EncodeHeader(f.version, f.cmd, f.id, |p|) + (p + rest);
    assert s == bs + rest;
    CommandBytes(f.cmd, 0);
    if |bs| <= maxReceiver {
      assert f.Validate(maxReceiver).Pass?;
      AssembleEncoded(maxReceiver, f);
      assert s[HEADER_SIZE..|bs|] == p;
      assert s[|bs|..] == rest;
    }
  }

  lemma YieldsShort(max: nat, src: Bytes)
    ensures Decode(max, src).Yield? ==> |Decode(max, src).frame.data| <= U16_MAX
  {
  }

  /** A frame the encoder accepts survives the trip exactly when its payload length fits the
      sixteen-bit length field. The encoder itself does not check this. */
  lemma RoundTrip(max: nat, f: Frame, rest: Bytes)
    requires Encode(max, f).Success?
    ensures Decode(max, Encode(max, f).value + rest) == Yield(f, rest) <==> |f.data| <= U16_MAX
  {
    if |f.data| <= U16_MAX {
      DecodeEncoded(max, max, f, rest);
    } else {
      YieldsShort(max, Encode(max, f).value + rest);
    }
  }

  /** A concrete frame that the encoder accepts and the peer cannot read back. */
  lemma RoundTripFailsOnLongPayload()
    ensures var f := Frame(1, Psh, 1, seq(0x1_0000, _ => 7));
      && Encode(0x10_0000, f).Success?
      && Decode(0x10_0000, Encode(0x10_0000, f).value) == Yield(f.(data := []), f.data)
  {
    var data: Bytes := seq(0x1_0000, _ => 7);
    var f := Frame(1, Psh, 1, data);
    HeaderFields(1, Psh, 1, 0, data);
    var s := EncodeHeader(1, Psh, 1, 0) + data;
    assert s == Encode(0x10_0000, f).value;
    assert s[HEADER_SIZE..HEADER_SIZE] == [];
    CommandBytes(Psh, 0);
  }

  /** Exactly which frames the encoder accepts. */
  lemma EncodeAccepts(max: nat, f: Frame)
    ensures Encode(max, f).Success? <==>
      && f.version != 0
      && (f.cmd.Psh? || f.data == [])
      && (f.cmd.Nop? <==> f.id == 0)
      && (f.cmd.Upd? ==> f.version >= 2)
      && HEADER_SIZE + |EncodedPayload(f)| <= max
  {
  }

  /** A decoded frame's payload is what followed the header. */
  lemma PayloadRecovered(max: nat, src: Bytes)
    requires Decode(max, src).Yield?
    ensures EncodedPayload(Decode(max, src).frame) == src[HEADER_SIZE..DeclaredSize(src)]
  {
    var data := src[HEADER_SIZE..DeclaredSize(src)];
    if Decode(max, src).frame.cmd.Upd? {
      U32RoundTrip(0, data[..4]);
      U32RoundTrip(0, data[4..]);
      assert data == data[..4] + data[4..];
    }
  }

  lemma FieldsRecovered(max: nat, src: Bytes)
    requires Decode(max, src).Yield?
    ensures var f, total := Decode(max, src).frame, DeclaredSize(src);
      && f.version == src[0] && f.cmd.ToByte() == src[1] && f.id == GetU32(src[4..8])
      && HEADER_SIZE <= total <= |src| && total <= max && Decode(max, src).rest == src[total..]
      && f.Validate(max).Pass? && |f.data| <= U16_MAX
  {
    CommandBytes(Decode(max, src).frame.cmd, src[1]);
  }

  lemma HeaderRecovered(src: Bytes, cmd: Command)
    requires |src| >= HEADER_SIZE && cmd.ToByte() == src[1]
    ensures EncodeHeader(src[0], cmd, GetU32(src[4..8]), GetU16(src[2..4])) == src[..HEADER_SIZE]
  {
    U16RoundTrip(0, src[2..4]);
    U32RoundTrip(0, src[4..8]);
    assert src[..HEADER_SIZE] == [src[0], src[1]] + src[2..4] + src[4..8];
  }

  /** Whenever `decode` hands over a frame, encoding that frame gives back exactly the bytes consumed. */
  lemma ReEncode(max: nat, src: Bytes)
    requires Decode(max, src).Yield?
    ensures var d := Decode(max, src);
      && Encode(max, d.frame).Success?
      && src == Encode(max, d.frame).value + d.rest
      && |Encode(max, d.frame).value| == DeclaredSize(src)
      && |d.frame.data| <= U16_MAX
  {
    var f := Decode(max, src).frame;
    var total := DeclaredSize(src);
    FieldsRecovered(max, src);
    PayloadRecovered(max, src);
    HeaderRecovered(src, f.cmd);
    assert src[..total] == src[..HEADER_SIZE] + src[HEADER_SIZE..total];
    assert src == src[..total] + src[total..];
  }

  /** A frame or an error is final: bytes that arrive later do not change it. */
  lemma DecodeStable(max: nat, src: Bytes, more: Bytes)
    requires !Decode(max, src).NeedMore?
    ensures Decode(max, src + more) ==
      match Decode(max, src)
      case Yield(f, rest) => Yield(f, rest + more)
      case Broken(e, rest) => Broken(e, rest + more)
  {
    var s := src + more;
    assert s[2..4] == src[2..4] && s[4..8] == src[4..8];
    var total := DeclaredSize(src);
    if total <= |src| {
      assert s[HEADER_SIZE..total] == src[HEADER_SIZE..total];
      assert s[total..] == src[total..] + more;
    }
  }

  // ----- bytes and errors in full ------------------------------------------

  /** A little-endian number. */
  function Number(b: Bytes): nat {
    if b == [] then 0 else (b[0] as nat) + 0x100 * Number(b[1..])
  }

  lemma NumberOf(b: Bytes)
    ensures |b| == 2 ==> Number(b) == GetU16(b)
    ensures |b| == 4 ==> Number(b) == GetU32(b)
  {
    assert Number([]) == 0;
    if |b| == 2 {
      assert b[1..] == [b[1]] && Number([b[1]]) == b[1] as nat;
    } else if |b| == 4 {
      assert b[3..] == [b[3]] && Number(b[3..]) == b[3] as nat;
      assert b[2..][1..] == b[3..] && Number(b[2..]) == b[2] as nat + 0x100 * Number(b[3..]);
      assert b[1..][1..] == b[2..] && Number(b[1..]) == b[1] as nat + 0x100 * Number(b[2..]);
    }
  }

  /** The wire format, byte by byte: version, command number, payload length in two bytes, stream ID in four, both
      little-endian, then the payload; that of a UPD frame is its two numbers in four bytes each. */
  lemma WireLayout(f: Frame)
    requires |f.data| <= U16_MAX && (f.cmd.Upd? ==> f.version >= 2)
    ensures var w := WireForm(f);
      && |w| >= 8 && w[0] == f.version
      && w[1] == (match f.cmd case Syn => 0 case Fin => 1 case Psh => 2 case Nop => 3 case Upd(_, _) => 4)
      && Number(w[2..4]) == |w| - 8
      && Number(w[4..8]) == f.id
      && (!f.cmd.Upd? ==> w[8..] == f.data)
      && (f.cmd.Upd? ==> |w| == 16 && Number(w[8..12]) == f.cmd.consumed && Number(w[12..16]) == f.cmd.window)
  {
    var w, p := WireForm(f), EncodedPayload(f);
    HeaderFields(f.version, f.cmd, f.id, |p|, p);
    NumberOf(w[2..4]);
    NumberOf(w[4..8]);
    CommandBytes(f.cmd, 0);
    if f.cmd.Upd? {
      assert w[8..12] == PutU32(f.cmd.consumed) && w[12..16] == PutU32(f.cmd.window);
      U32RoundTrip(f.cmd.consumed, w[8..12]);
      U32RoundTrip(f.cmd.window, w[12..16]);
      NumberOf(w[8..12]);
      NumberOf(w[12..16]);
    }
  }

  /** One frame, written out. */
  lemma WireExample()
    ensures WireForm(Frame(1, Psh, 0x0403_0201, [9])) == [1, 2, 1, 0, 1, 2, 3, 4, 9]
    ensures WireForm(Frame(2, Upd(0x0807_0605, 9), 3, [])) == [2, 4, 8, 0, 3, 0, 0, 0, 5, 6, 7, 8, 9, 0, 0, 0]
  {
  }

  /** Which error the encoder reports: that of validation, or that a UPD frame's numbers do not fit. */
  lemma EncodeErrors(max: nat, f: Frame)
    requires Encode(max, f).Failure?
    ensures f.Validate(max).Fail? ==> Encode(max, f) == Failure(f.Validate(max).error)
    ensures f.Validate(max).Pass? ==> f.cmd.Upd? && max < 16 && Encode(max, f) == Failure(FrameTooLarge(16, max))
  {
  }

  /** Which error the decoder reports, read off the bytes. */
  lemma DecodeErrors(max: nat, src: Bytes)
    requires Decode(max, src).Broken?
    ensures |src| >= 8
    ensures var version, command, length := src[0], src[1], Number(src[2..4]);
      var e := Decode(max, src).error;
      if command > 4 then e == InvalidFrame
      else if 8 + length > max then e == FrameTooLarge(8 + length, max)
      else if command == 4 && version >= 2 && length != 8 then e == ProtocolViolation(UpdLength)
      else if version == 0 then e == InvalidProtocol(0)
      else if command == 4 && version == 1 then e == ProtocolViolation(UpdNeedsVersion2)
      else if command != 2 && command != 4 && length > 0 then e == ProtocolViolation(ControlCarriesData)
      else e.InvalidStreamId? && e.id == Number(src[4..8])
  {
    NumberOf(src[2..4]);
    NumberOf(src[4..8]);
    CommandBytes(Syn, src[1]);
  }

  // ----- a whole buffer ----------------------------------------------------

  /** The frames read from a byte stream so far, the first error if any, and the bytes not consumed. */
  datatype Drained = Drained(frames: seq<Frame>, error: Option<Error>, left: Bytes)

  /** Decoding a buffer until `decode` asks for more bytes or fails. */
  function DecodeAll(max: nat, src: Bytes): Drained
    decreases |src|
  {
    match Decode(max, src)
    case NeedMore => Drained([], None, src)
    case Broken(e, rest) => Drained([], Some(e), rest)
    case Yield(f, rest) =>
      var d := DecodeAll(max, rest);
      Drained([f] + d.frames, d.error, d.left)
  }

  /** Bytes arrive: append and drain. After an error nothing more is read. */
  function Feed(max: nat, st: Drained, chunk: Bytes): Drained {
    if st.error.Some? then
      st.(left := st.left + chunk)
    else
      var d := DecodeAll(max, st.left + chunk);
      Drained(st.frames + d.frames, d.error, d.left)
  }

  function FeedAll(max: nat, st: Drained, chunks: seq<Bytes>): Drained
    decreases |chunks|
  {
    if chunks == [] then st else FeedAll(max, Feed(max, st, chunks[0]), chunks[1..])
  }

  function Concat(chunks: seq<Bytes>): Bytes {
    if chunks == [] then [] else chunks[0] + Concat(chunks[1..])
  }

  lemma {:induction false} DecodeAllAppend(max: nat, a: Bytes, b: Bytes)
    ensures DecodeAll(max, a + b) == Feed(max, DecodeAll(max, a), b)
    decreases |a|
  {
    match Decode(max, a)
    case NeedMore =>
    case Broken(e, rest) =>
      DecodeStable(max, a, b);
    case Yield(f, rest) =>
      DecodeStable(max, a, b);
      DecodeAllAppend(max, rest, b);
      if DecodeAll(max, rest).error.None? {
        var d := DecodeAll(max, DecodeAll(max, rest).left + b);
        assert [f] + (DecodeAll(max, rest).frames + d.frames) == ([f] + DecodeAll(max, rest).frames) + d.frames;
      }
  }

  /** Chunking independence: however the transport splits a byte stream, the receiver gets the same
      frames, the same first error and the same unread bytes as from the whole stream at once. */
  lemma {:induction false} ChunkingIndependent(max: nat, seen: Bytes, chunks: seq<Bytes>)
    ensures FeedAll(max, DecodeAll(max, seen), chunks) == DecodeAll(max, seen + Concat(chunks))
    decreases |chunks|
  {
    ConcatOne(seen, chunks);
    if chunks != [] {
      DecodeAllAppend(max, seen, chunks[0]);
      ChunkingIndependent(max, seen + chunks[0], chunks[1..]);
    }
  }

  lemma ConcatOne(seen: Bytes, chunks: seq<Bytes>)
    ensures chunks == [] ==> seen + Concat(chunks) == seen
    ensures chunks != [] ==> seen + Concat(chunks) == seen + chunks[0] + Concat(chunks[1..])
  {
  }

  /** Any two ways of splitting the same bytes are indistinguishable. */
  lemma ChunkingsAgree(max: nat, xs: seq<Bytes>, ys: seq<Bytes>)
    requires Concat(xs) == Concat(ys)
    ensures FeedAll(max, Drained([], None, []), xs) == FeedAll(max, Drained([], None, []), ys)
  {
    assert DecodeAll(max, []) == Drained([], None, []);
    ChunkingIndependent(max, [], xs);
    ChunkingIndependent(max, [], ys);
  }

  /** What the encoder accepts and the wire can carry; see EncodableIs. */
  predicate Encodable(max: nat, f: Frame) {
    && f.version != 0
    && (f.cmd.Psh? || f.data == [])
    && (f.cmd.Nop? <==> f.id == 0)
    && (f.cmd.Upd? ==> f.version >= 2)
    && HEADER_SIZE + |EncodedPayload(f)| <= max
    && |f.data| <= U16_MAX
  }

  lemma EncodableIs(max: nat, f: Frame)
    ensures Encodable(max, f) <==> Encode(max, f).Success? && |f.data| <= U16_MAX
    ensures Encodable(max, f) ==> Encode(max, f) == Success(WireForm(f))
  {
    EncodeAccepts(max, f);
  }

  /** Exactly what `decode` reads: a frame with some bytes after it, if and only if the buffer is that
      frame's encoding followed by those bytes and the frame is one the encoder accepts. */
  lemma DecodeIsInverse(max: nat, src: Bytes, f: Frame, rest: Bytes)
    ensures Decode(max, src) == Yield(f, rest) <==> Encodable(max, f) && src == WireForm(f) + rest
  {
    EncodableIs(max, f);
    if Decode(max, src) == Yield(f, rest) {
      ReEncode(max, src);
    }
    if Encodable(max, f) && src == WireForm(f) + rest {
      DecodeEncoded(max, max, f, rest);
    }
  }

  /** Exactly when `decode` waits and when it fails. It waits for a header and then for the declared size,
      unless the command is unknown or the size over the limit: those it refuses at once, with the buffer
      untouched. A complete frame is refused exactly if it is no frame's encoding, and is then consumed. */
  lemma DecodeVerdicts(max: nat, src: Bytes)
    ensures var d := Decode(max, src);
      var refused := |src| >= HEADER_SIZE && (src[1] > 4 || DeclaredSize(src) > max);
      var complete := |src| >= HEADER_SIZE && DeclaredSize(src) <= |src|;
      && (d.NeedMore? <==> !refused && !complete)
      && (d.Broken? <==>
            refused || (complete && forall f | Encodable(max, f) :: WireForm(f) != src[..DeclaredSize(src)]))
      && (d.Broken? ==> d.rest == if refused then src else src[DeclaredSize(src)..])
  {
    var d := Decode(max, src);
    if |src| >= HEADER_SIZE {
      CommandBytes(Syn, src[1]);
      if DeclaredSize(src) <= |src| {
        assert src == src[..DeclaredSize(src)] + src[DeclaredSize(src)..];
        forall f | Encodable(max, f) && WireForm(f) == src[..DeclaredSize(src)]
          ensures d == Yield(f, src[DeclaredSize(src)..])
        {
          DecodeIsInverse(max, src, f, src[DeclaredSize(src)..]);
        }
      }
      if d.Yield? {
        EncodableIs(max, d.frame);
        ReEncode(max, src);
      }
    }
  }

  predicate AllEncodable(max: nat, fs: seq<Frame>) {
    forall i :: 0 <= i < |fs| ==> Encodable(max, fs[i])
  }

  function WireForms(fs: seq<Frame>): seq<Bytes> {
    seq(|fs|, i requires 0 <= i < |fs| => WireForm(fs[i]))
  }

  /** The encodings of a frame list, one after the other. */
  function EncodeAll(fs: seq<Frame>): Bytes {
    Concat(WireForms(fs))
  }

  lemma {:induction false} ConcatSnoc(chunks: seq<Bytes>, last: Bytes)
    ensures Concat(chunks + [last]) == Concat(chunks) + last
  {
    if chunks == [] {
      assert chunks + [last] == [last] && [last][1..] == [];
    } else {
      ConcatSnoc(chunks[1..], last);
      assert (chunks + [last])[1..] == chunks[1..] + [last];
      assert chunks[0] + (Concat(chunks[1..]) + last) == chunks[0] + Concat(chunks[1..]) + last;
    }
  }

  lemma EncodeAllSnoc(fs: seq<Frame>, f: Frame)
    ensures EncodeAll(fs + [f]) == EncodeAll(fs) + WireForm(f)
  {
    assert WireForms(fs + [f]) == WireForms(fs) + [WireForm(f)];
    ConcatSnoc(WireForms(fs), WireForm(f));
  }

  lemma EncodeAllCons(f: Frame, fs: seq<Frame>, left: Bytes)
    ensures EncodeAll([f] + fs) + left == WireForm(f) + (EncodeAll(fs) + left)
  {
    var bs := WireForms([f] + fs);
    assert bs[0] == WireForm(f) && bs[1..] == WireForms(fs);
    assert WireForm(f) + EncodeAll(fs) + left == WireForm(f) + (EncodeAll(fs) + left);
  }

  lemma DecodeAllStep(max: nat, f: Frame, rest: Bytes)
    requires Encodable(max, f)
    ensures var d := DecodeAll(max, rest);
      DecodeAll(max, WireForm(f) + rest) == Drained([f] + d.frames, d.error, d.left)
  {
    EncodableIs(max, f);
    DecodeEncoded(max, max, f, rest);
  }

  /** The concatenated encodings of a frame list, followed by the start of another frame, decode to
      that list and leave that start. */
  lemma {:induction false} DecodeEncodeAll(max: nat, fs: seq<Frame>, tail: Bytes)
    requires AllEncodable(max, fs)
    requires DecodeAll(max, tail) == Drained([], None, tail)
    ensures DecodeAll(max, EncodeAll(fs) + tail) == Drained(fs, None, tail)
  {
    if fs == [] {
      assert EncodeAll(fs) + tail == tail;
    } else {
      EncodeAllCons(fs[0], fs[1..], tail);
      assert [fs[0]] + fs[1..] == fs;
      DecodeAllStep(max, fs[0], EncodeAll(fs[1..]) + tail);
      DecodeEncodeAll(max, fs[1..], tail);
    }
  }

  /** The other direction: draining any buffer yields frames whose encodings are exactly the bytes
      consumed, when no error stopped it. */
  lemma {:induction false} EncodeDecodeAll(max: nat, src: Bytes)
    requires DecodeAll(max, src).error.None?
    ensures var d := DecodeAll(max, src); AllEncodable(max, d.frames) && src == EncodeAll(d.frames) + d.left
    decreases |src|
  {
    var d := Decode(max, src);
    if d.Yield? {
      ReEncode(max, src);
      EncodableIs(max, d.frame);
      EncodeDecodeAll(max, d.rest);
      var e := DecodeAll(max, d.rest);
      EncodeAllCons(d.frame, e.frames, e.left);
    } else {
      assert EncodeAll([]) + src == src;
    }
  }

  /** Progress: a buffer of n bytes holds at most n / 8 frames, and what is left over when the loop
      waits is shorter than a header or shorter than the size its own header declares. */
  lemma {:induction false} DecodeLoopProgress(max: nat, src: Bytes)
    ensures var d := DecodeAll(max, src);
      && HEADER_SIZE * |d.frames| + |d.left| <= |src|
      && (d.error.None? ==> |d.left| < HEADER_SIZE || |d.left| < DeclaredSize(d.left) <= max)
    decreases |src|
  {
    var d := Decode(max, src);
    if d.Yield? {
      DecodeLoopProgress(max, d.rest);
    }
  }
}
