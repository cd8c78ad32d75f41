/** Two sessions over a transport: a client, a server and one byte pipe per direction. */
module SystemSpec {
  import opened Frames
  import opened CodecSpec
  import opened NodeSpec

  /** One direction of the transport: bytes on the way, bytes in the reader's buffer, and, as history,
      the frames written by the sender and not yet decoded by the reader. */
  datatype Link = Link(wire: Bytes, buffer: Bytes, flight: seq<Frame>)

  datatype System = System(client: Node, server: Node, up: Link, down: Link)

  function NewSystem(clientConfig: Config, serverConfig: Config): System {
    System(NewNode(true, clientConfig), NewNode(false, serverConfig), Link([], [], []), Link([], [], []))
  }

  /** What one side can do: an operation of its own, one turn of its send loop, moving bytes that were
      sent to it into its buffer, or one turn of its receive loop. */
  datatype Action = Local(op: Op) | Send | Carry(count: nat) | Receive

  /** Operations that do not go through the transport. */
  predicate IsLocal(op: Op) {
    !op.OpDispatch? && !op.OpTransmit?
  }

  /** The send loop encodes the next frame onto the wire; an encoding error ends it. */
  function SendAct(x: Node, outgoing: Link): (Node, Link) {
    if x.ep.frames.queue == [] then (x, outgoing)
    else
      var f := x.ep.frames.queue[0];
      match Encode(x.ep.config.maxFrameSize, f)
      case Failure(_) => (Apply(x, OpSendStop), outgoing)
      case Success(bytes) =>
        (Apply(x, OpTransmit), outgoing.(wire := outgoing.wire + bytes, flight := outgoing.flight + [f]))
  }

  /** The receive loop with the outcome of one decoding step: a frame is handled, an error ends the loop. */
  function Received(x: Node, incoming: Link, d: Decoded): (Node, Link) {
    match d
    case NeedMore => (x, incoming)
    case Broken(_, rest) => (Apply(x, OpRecvStop), incoming.(buffer := rest))
    case Yield(f, rest) =>
      (Apply(x, OpDispatch(f)),
       incoming.(buffer := rest, flight := if incoming.flight == [] then [] else incoming.flight[1..]))
  }

  function ReceiveAct(x: Node, incoming: Link): (Node, Link) {
    if x.ep.task.Idle? then Received(x, incoming, Decode(x.ep.config.maxFrameSize, incoming.buffer))
    else (x, incoming)
  }

  function CarryAct(incoming: Link, count: nat): Link {
    if count <= |incoming.wire|
    then incoming.(wire := incoming.wire[count..], buffer := incoming.buffer + incoming.wire[..count])
    else incoming
  }

  function Act(x: Node, outgoing: Link, incoming: Link, action: Action): (Node, Link, Link) {
    match action
    case Local(op) => (if IsLocal(op) then Apply(x, op) else x, outgoing, incoming)
    case Send => var (x', o) := SendAct(x, outgoing); (x', o, incoming)
    case Carry(count) => (x, outgoing, CarryAct(incoming, count))
    case Receive => var (x', i) := ReceiveAct(x, incoming); (x', outgoing, i)
  }

  datatype Step = Step(byClient: bool, action: Action)

  function Move(s: System, step: Step): System {
    if step.byClient then
      var (x, o, i) := Act(s.client, s.up, s.down, step.action);
      System(x, s.server, o, i)
    else
      var (x, o, i) := Act(s.server, s.down, s.up, step.action);
      System(s.client, x, i, o)
  }

  function RunSystem(s: System, steps: seq<Step>): System {
    if steps == [] then s else Move(RunSystem(s, steps[..|steps| - 1]), steps[|steps| - 1])
  }
}
