/** The codec as the source runs it: in place, over a growing byte buffer. */
module Codec {
  import opened Wrappers
  import opened Frames
  import opened LittleEndian
  import opened CodecSpec

  datatype Header = Header(version: Byte, cmd: Command, id: U32, length: U16)

  class Codec {
    const maxFrameSize: nat

    constructor (config: Config)
      ensures maxFrameSize == config.maxFrameSize
    {
      maxFrameSize := config.maxFrameSize;
    }

    /** Consumes eight bytes, if there are eight, even when the command byte is unknown. */
    static method ReadHeader(src: BytesMut) returns (r: Result<Header, Error>)
      modifies src
      ensures |old(src.data)| < HEADER_SIZE ==> r == Failure(InsufficientData) && src.data == old(src.data)
      ensures |old(src.data)| >= HEADER_SIZE ==>
        var s := old(src.data);
        && src.data == s[HEADER_SIZE..]
        && r == match Command.FromByte(s[1])
                case Failure(e) => Failure(e)
                case Success(cmd) => Success(Header(s[0], cmd, GetU32(s[4..8]), GetU16(s[2..4])))
    {
      if |src.data| < HEADER_SIZE {
        return Failure(InsufficientData);
      }
      ghost var s := src.data;
      var version := src.GetU8();
      var cmdByte := src.GetU8();
      var length := src.GetU16Le();
      var id := src.GetU32Le();
      assert s[1..][1..] == s[2..] && s[2..][..2] == s[2..4];
      assert s[2..][2..] == s[4..] && s[4..][..4] == s[4..8] && s[4..][4..] == s[HEADER_SIZE..];
      match Command.FromByte(cmdByte)
      case Failure(e) => r := Failure(e);
      case Success(cmd) => r := Success(Header(version, cmd, id, length));
    }

    static method WriteHeader(dst: BytesMut, version: Byte, cmd: Command, id: U32, length: U16)
      modifies dst
      ensures dst.data == old(dst.data) + EncodeHeader(version, cmd, id, length)
    {
      dst.PutU8(version);
      dst.PutU8(cmd.ToByte());
      dst.PutU16Le(length);
      dst.PutU32Le(id);
      assert dst.data == old(dst.data) + EncodeHeader(version, cmd, id, length);
    }

    static method ReadUpdData(data: Bytes) returns (r: Result<(U32, U32), Error>)
      ensures r == DecodeUpdData(data)
    {
      if |data| != 8 {
        return Failure(ProtocolViolation(UpdLength));
      }
      var buf := new BytesMut(data);
      var consumed := buf.GetU32Le();
      var window := buf.GetU32Le();
      assert data[4..][..4] == data[4..];
      r := Success((consumed, window));
    }

    /** One call of `decode`. A frame or a late error consumes the frame's bytes; waiting for more
        bytes, an unknown command and an oversized frame leave the buffer as it was. */
    method Decode(src: BytesMut) returns (r: Result<Option<Frame>, Error>)
      modifies src
      ensures match CodecSpec.Decode(maxFrameSize, old(src.data))
        case NeedMore => r == Success(None) && src.data == old(src.data)
        case Yield(f, rest) => r == Success(Some(f)) && src.data == rest
        case Broken(e, rest) => r == Failure(e) && src.data == rest
    {
      if |src.data| < HEADER_SIZE {
        return Success(None);
      }
      var peek := new BytesMut(src.data);
      var peeked := ReadHeader(peek);
      if peeked.Failure? {
        return Failure(peeked.error);
      }
      var total := HEADER_SIZE + peeked.value.length;
      if total > maxFrameSize {
        return Failure(FrameTooLarge(total, maxFrameSize));
      }
      if |src.data| < total {
        return Success(None);
      }
      ghost var s := src.data;
      var header := ReadHeader(src);
      var Header(version, cmd, id, length) := header.value;
      var data := src.SplitTo(length);
      assert s[HEADER_SIZE..] == data + src.data;
      assert data == s[HEADER_SIZE..total] && src.data == s[total..];
      var finalCmd := cmd;
      if cmd.Upd? && version >= 2 {
        var upd := ReadUpdData(data);
        if upd.Failure? {
          return Failure(upd.error);
        }
        finalCmd := Upd(upd.value.0, upd.value.1);
      }
      var frame := Frame(version, finalCmd, id, if finalCmd.Upd? then [] else data);
      match frame.Validate(maxFrameSize)
      case Fail(e) => r := Failure(e);
      case Pass => r := Success(Some(frame));
    }

    /** Appends the encoding, or fails and leaves the buffer as it was. */
    method Encode(frame: Frame, dst: BytesMut) returns (r: Outcome<Error>)
      modifies dst
      ensures match CodecSpec.Encode(maxFrameSize, frame)
        case Success(b) => r == Pass && dst.data == old(dst.data) + b
        case Failure(e) => r == Fail(e) && dst.data == old(dst.data)
    {
      var valid := frame.Validate(maxFrameSize);
      if valid.Fail? {
        return valid;
      }
      var payload := frame.data;
      if frame.cmd.Upd? && frame.version >= 2 {
        var upd := new BytesMut([]);
        upd.PutU32Le(frame.cmd.consumed);
        upd.PutU32Le(frame.cmd.window);
        payload := upd.data;
      }
      var length := |payload| % 0x1_0000;
      var total := HEADER_SIZE + length;
      if total > maxFrameSize {
        return Fail(FrameTooLarge(total, maxFrameSize));
      }
      WriteHeader(dst, frame.version, frame.cmd, frame.id, length);
      dst.PutSlice(payload);
      r := Pass;
    }

    /** The read side of the frame transport: append what arrived, then decode until `decode` asks for
        more bytes or fails. */
    method ReadFrames(src: BytesMut, arrived: Bytes) returns (frames: seq<Frame>, error: Option<Error>)
      modifies src
      ensures Drained(frames, error, src.data) == DecodeAll(maxFrameSize, old(src.data) + arrived)
    {
      src.PutSlice(arrived);
      frames, error := [], None;
      ghost var all := DecodeAll(maxFrameSize, src.data);
      var waiting := false;
      while !waiting && error.None?
        invariant var d := DecodeAll(maxFrameSize, src.data);
          if waiting || error.Some?
          then all == Drained(frames, error, src.data)
          else all == Drained(frames + d.frames, d.error, d.left)
        decreases |src.data|, if waiting || error.Some? then 0 else 1
      {
        var r := Decode(src);
        match r
        case Success(Some(f)) => frames := frames + [f];
        case Success(None) => waiting := true;
        case Failure(e) => error := Some(e);
      }
    }
  }
}
