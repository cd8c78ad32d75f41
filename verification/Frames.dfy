/** Commands, frames and session configuration. */
module Frames {
  import opened Wrappers

  type Byte = x: int | 0 <= x < 0x100
  type U16 = x: int | 0 <= x < 0x1_0000
  type U32 = x: int | 0 <= x < 0x1_0000_0000
  type Bytes = seq<Byte>

  const HEADER_SIZE := 8
  const U16_MAX := 0xFFFF
  const U32_MAX := 0xFFFF_FFFF

  datatype Violation = UpdNeedsVersion2 | ControlCarriesData | UpdLength | StreamIdOverflow

  datatype Error =
    | InvalidProtocol(version: Byte)
    | FrameTooLarge(size: nat, max: nat)
    | SessionClosed
    | StreamAlreadyExists(id: U32)
    | InvalidStreamId(id: U32)
    | InvalidFrame
    | ProtocolViolation(what: Violation)
    | InsufficientData

  datatype Command = Syn | Fin | Psh | Nop | Upd(consumed: U32, window: U32) {

    static function FromByte(b: Byte): Result<Command, Error> {
      match b
      case 0 => Success(Syn)
      case 1 => Success(Fin)
      case 2 => Success(Psh)
      case 3 => Success(Nop)
      case 4 => Success(Upd(0, 0))
      case _ => Failure(InvalidFrame)
    }

    function ToByte(): Byte {
      match this
      case Syn => 0
      case Fin => 1
      case Psh => 2
      case Nop => 3
      case Upd(_, _) => 4
    }

    predicate IsControl() {
      !Psh?
    }

    predicate RequiresV2() {
      Upd?
    }
  }

  datatype Frame = Frame(version: Byte, cmd: Command, id: U32, data: Bytes) {

    function TotalSize(): nat {
      HEADER_SIZE + |data|
    }

    function ValidateStreamId(): Outcome<Error> {
      if cmd.Nop? then
        if id != 0 then Fail(InvalidStreamId(id)) else Pass
      else
        if id == 0 then Fail(InvalidStreamId(id)) else Pass
    }

    /** The checks of `Frame::validate`, in the order in which the source makes them. */
    function Validate(maxFrameSize: nat): Outcome<Error> {
      if version == 0 then
        Fail(InvalidProtocol(version))
      else if cmd.RequiresV2() && version < 2 then
        Fail(ProtocolViolation(UpdNeedsVersion2))
      else if TotalSize() > maxFrameSize then
        Fail(FrameTooLarge(TotalSize(), maxFrameSize))
      else if cmd.IsControl() && data != [] then
        Fail(ProtocolViolation(ControlCarriesData))
      else
        ValidateStreamId()
    }
  }

  function NewSyn(version: Byte, id: U32): Frame {
    Frame(version, Syn, id, [])
  }

  function NewFin(version: Byte, id: U32): Frame {
    Frame(version, Fin, id, [])
  }

  function NewPsh(version: Byte, id: U32, data: Bytes): Frame {
    Frame(version, Psh, id, data)
  }

  function NewNop(version: Byte): Frame {
    Frame(version, Nop, 0, [])
  }

  datatype Config = Config(
    version: Byte,
    keepAliveInterval: real,
    keepAliveTimeout: real,
    maxFrameSize: nat,
    maxReceiveBuffer: nat,
    frameChannelCapacity: nat,
    maxStreamBuffer: nat,
    enableKeepAlive: bool) {

    /** `Config::validate`, as a predicate. */
    predicate Validates() {
      && version != 0
      && (enableKeepAlive ==> keepAliveInterval < keepAliveTimeout)
      && 0 < maxFrameSize <= 16 * 1024 * 1024
      && maxFrameSize <= maxReceiveBuffer
      && maxStreamBuffer != 0
    }
  }

  /** Which error `Frame::validate` reports: the first that applies, in this order. */
  lemma ValidateErrors(f: Frame, max: nat)
    ensures var r := f.Validate(max);
      var upd1, large := f.cmd.Upd? && f.version == 1, 8 + |f.data| > max;
      var loaded, stray := !f.cmd.Psh? && f.data != [], f.cmd.Nop? != (f.id == 0);
      && (r == Fail(InvalidProtocol(0)) <==> f.version == 0)
      && (r == Fail(ProtocolViolation(UpdNeedsVersion2)) <==> upd1)
      && (r == Fail(FrameTooLarge(8 + |f.data|, max)) <==> f.version != 0 && !upd1 && large)
      && (r == Fail(ProtocolViolation(ControlCarriesData)) <==> f.version != 0 && !upd1 && !large && loaded)
      && (r == Fail(InvalidStreamId(f.id)) <==> f.version != 0 && !upd1 && !large && !loaded && stray)
      && (r == Pass <==> f.version != 0 && !upd1 && !large && !loaded && !stray)
  {
  }

  /** The default configuration is valid, and how far each of its values can go. */
  lemma DefaultValidates(x: nat, timeout: real)
    ensures var c := Config(1, 10.0, 30.0, 0x8000, 0x40_0000, 512, 0x1_0000, true);
      && c.Validates()
      && !c.(version := 0).Validates()
      && (c.(keepAliveTimeout := timeout).Validates() <==> timeout > 10.0)
      && c.(keepAliveTimeout := timeout, enableKeepAlive := false).Validates()
      && (c.(maxFrameSize := x).Validates() <==> 1 <= x <= 0x40_0000)
      && (c.(maxFrameSize := x, maxReceiveBuffer := x).Validates() <==> 1 <= x <= 0x100_0000)
      && (c.(maxReceiveBuffer := x).Validates() <==> 0x8000 <= x)
      && (c.(maxStreamBuffer := x).Validates() <==> 1 <= x)
      && c.(frameChannelCapacity := x).Validates()
  {
  }

  /** Command bytes name commands one to one; a UPD byte comes back with zero fields. */
  lemma CommandBytes(c: Command, b: Byte)
    ensures Command.FromByte(c.ToByte()) == Success(if c.Upd? then Upd(0, 0) else c)
    ensures Command.FromByte(b).Success? <==> b <= 4
    ensures b > 4 ==> Command.FromByte(b) == Failure(InvalidFrame)
    ensures c.ToByte() == (match c case Syn => 0 case Fin => 1 case Psh => 2 case Nop => 3 case Upd(_, _) => 4)
    ensures Command.FromByte(b).Success? ==> Command.FromByte(b).value.ToByte() == b
  {
  }
}
