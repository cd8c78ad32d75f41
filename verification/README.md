# A verified model of smux

smux multiplexes many byte streams over one connection. This project models the library's codec, streams and
sessions in Dafny and proves what they promise, up to the whole two-endpoint system: a client session, a server
session and one byte pipe per direction, with every task and every application call interleaving freely.

`dafny verify dfyconfig.toml` checks everything.

## How the model is built

| file | what it holds |
|---|---|
| `Frames.dfy`, `LittleEndian.dfy` | commands, frames, configuration, errors, fixed-width integers and the byte buffer |
| `CodecSpec.dfy`, `Codec.dfy` | the wire format as functions and their laws; the codec as methods that consume and extend a buffer in place |
| `StreamSpec.dfy`, `Streams.dfy` | one stream handle and its channels as values; the same as objects with in-place methods |
| `SessionSpec.dfy`, `Sessions.dfy` | one endpoint as a value, with stream IDs, the stream map, the accept queue, tokens and flags; the same as a session object |
| `Logs.dfy` | logs of frames, what they deliver to a stream, and the frame grammar of a stream |
| `NodeSpec.dfy`, `NodeInvariant.dfy`, `NodeSteps.dfy`, `NodeTheorems.dfy`, `NodeFinality.dfy`, `NodeAccounts.dfy` | an endpoint with its history, driven by any sequence of operations and any received frames; the invariant and its consequences |
| `KeepAlive.dfy` | timed runs of an endpoint |
| `SystemSpec.dfy`, `SystemInvariant.dfy`, `SystemTheorems.dfy`, `SystemProgress.dfy`, `SystemWork.dfy` | two endpoints and the transport; the end-to-end results |
| `SystemKeepAlive.dfy` | timed runs of the two endpoints |

The classes are tied to the value functions: each method's postcondition equates the object's view after the call
with the function applied to its view before. The results are then proved about those functions, over all runs.

Async functions are cut at their awaits. `open_stream` and `close` are two operations each, because other tasks
may run while they wait for room in the frame channel; `handle_syn_frame` may wait for room in the accept queue
and `handle_psh_frame` for tokens. Waiting is a step that is not possible yet and changes nothing. `flume`
channels are sequences with a disconnected flag that drain before they report it; each atomic operation is one
step. A stream call, `open_stream` or `accept_stream` is one step apart from its look at the session's closed flag,
which another thread may set right after: the `passed` operations are calls that found the session open, or began to
wait for a stream, before it closed. A ping that waits for room holds up the timeout ticks of its loop. The send and
receive loops may end at any moment, as they do when the transport fails or the session closes.

## What is assumed

* Configurations pass `Config::validate`. `Session::new` does not call it, so this is a precondition. The frame
  channel has room for at least one frame; with capacity 0 `flume` hands frames over directly, which is not
  modelled.
* The end-to-end results need `max_frame_size` at most 65543 on both sides, so that a payload fits the sixteen-bit
  length field. Beyond that the encoder truncates the length: `RoundTripFailsOnLongPayload` shows a frame, and
  `RoundTrip` says exactly which frames survive.
* The results about runs hold for states in which `next_stream_id` has not reported its first overflow and fewer
  than 2^63 bytes went through the token counter (`Fits`). What happens after an overflow is stated exactly by
  `IdsRepeat`, `IdsAfterOverflow`, `CounterOfRun` and `TokenLedger`, which have no such condition.
* Reads in runs have a non-empty buffer. `ReadKeepsBytes` says exactly when a read into an empty one loses bytes.
* Keep-alive ticks are due at 0, T, 2T and so on and taken at most `late` afterwards, which is what a ping that
  waits for room in the same loop can cause; `late` is any number, zero for ideal ticks. What a tick does is one
  step.
* "Closed" in `NothingIsUndone` and `ClosedCutsReaders` means closed with no `passed` call still under way.

## Where code and documents differ

The model follows the code.

* `specs/004-codec.md` refuses payloads over 65535 bytes; `encode` truncates their length instead.
* `specs/005-session.md` takes tokens for every PSH frame. The code takes tokens only while the counter is not
  positive, and that loop is never entered (`NeverEntersTokenLoop`). The documented law, tokens plus buffered bytes
  equal the buffer size, holds exactly as long as no frame handled carried a payload; what the frames carried is
  the excess (`DesignedLedgerExactly`).
* `specs/006-stream.md` has reads drain and then report EOF after the session has shut down; `poll_read` reports a
  broken pipe at once. `HeldByteIsLost` shows a byte that is never read; `ClosedCutsReaders` says that a stream gets
  to read what was delivered to it exactly if it held nothing when the session closed.
* The protocol sketch lets server stream IDs start from 0; the code starts them at 2 (`src/session.rs:271`).
* The wiki says that a FIN sets the stream's read-closed flag. The stream's own flag is never set
  (`ReadFlagNeverSet`); EOF comes only from the sending half of its channel being dropped.
* `specs/005-session.md`, `specs/006-stream.md` and the wiki promise a FIN when a stream is dropped. `Drop` sends one
  only if the frame channel has room at that moment, and nothing makes up for it later (`DropSendsFin`);
  `DropLosesFin` is a run in which it is lost, and by `EofExact` the peer's reader then never sees EOF.

## Model

| member | source | states |
|---|---|---|
| `Frames.CommandBytes` | src/command.rs:13-41 | SYN, FIN, PSH, NOP and UPD are bytes 0 to 4, one to one; any other byte is an invalid frame; a UPD byte comes back with zero fields |
| `Frames.ValidateErrors` | src/frame.rs:68-118 | which error validation reports, with its size and limit or ID, in the order of the checks |
| `Frames.DefaultValidates` | src/config.rs:46-96 | the default configuration is valid, and how far each of its values can go |
| `LittleEndian.U16RoundTrip` | src/codec.rs:30-45 | the length field's two bytes and the number determine each other |
| `LittleEndian.U32RoundTrip` | src/codec.rs:54-66 | the same for stream IDs and UPD fields |
| `CodecSpec.WireLayout` | src/codec.rs:40-66 | the wire format byte by byte: version, command, little-endian length and ID, payload; the two numbers of a UPD frame |
| `CodecSpec.WireExample` | src/codec.rs:40-66 | two frames written out |
| `CodecSpec.DecodeVerdicts` | src/codec.rs:73-130 | decoding waits exactly for a header and then for the declared size; it fails exactly on an unknown command, a size over the limit, or a complete frame that is no frame's encoding; what a failure leaves in the buffer |
| `CodecSpec.EncodeAccepts` | src/codec.rs:136-160 | exactly which frames the encoder accepts |
| `CodecSpec.EncodeErrors` | src/codec.rs:136-160 | which error the encoder reports |
| `CodecSpec.DecodeErrors` | src/codec.rs:73-130 | which error the decoder reports, read off the bytes |
| `CodecSpec.DecodeEncoded` | src/codec.rs:73-130 | a frame one side encoded is read back whole by a peer whose limit admits it and refused as too large by any other |
| `CodecSpec.RoundTrip` | src/codec.rs:136-172 | an accepted frame decodes to itself, before any following bytes, if and only if its payload is at most 65535 bytes |
| `CodecSpec.RoundTripFailsOnLongPayload` | src/codec.rs:146-150 | a 65536-byte payload is accepted and read back as an empty frame |
| `CodecSpec.ReEncode` | src/codec.rs:102-129 | whatever decodes re-encodes to exactly the bytes consumed |
| `CodecSpec.DecodeIsInverse` | src/codec.rs:73-172 | decoding yields a frame and a rest if and only if the buffer is that frame's encoding followed by that rest |
| `CodecSpec.DecodeStable` | src/codec.rs:77-107 | a frame or an error does not change when more bytes arrive |
| `CodecSpec.DecodeAllAppend` | src/session.rs:536-557 | draining after an arrival continues exactly where draining stopped |
| `CodecSpec.ChunkingIndependent` | src/session.rs:536-557 | frames, first error and leftover do not depend on how the transport splits the bytes |
| `CodecSpec.ChunkingsAgree` | src/session.rs:536-557 | any two splittings of the same bytes give the same result |
| `CodecSpec.DecodeEncodeAll` | src/codec.rs:73-172 | concatenated encodings of any frame list, followed by the start of another frame, decode to that list and leave that start |
| `CodecSpec.EncodeDecodeAll` | src/codec.rs:73-172 | draining any buffer without error yields frames whose encodings are the bytes consumed |
| `CodecSpec.DecodeLoopProgress` | src/codec.rs:77-107 | n bytes hold at most n/8 frames; what is left over is shorter than a header or than the size its header declares |
| `Codec.Codec.ReadHeader` | src/codec.rs:25-38 | consumes the eight header bytes, also before an unknown command; fewer bytes are left alone |
| `Codec.Codec.WriteHeader` | src/codec.rs:40-45 | appends version, command, length, ID |
| `Codec.Codec.ReadUpdData` | src/codec.rs:47-59 | exactly eight bytes are two numbers |
| `Codec.Codec.Decode` | src/codec.rs:73-130 | result and remaining buffer are those of the wire format; waiting leaves the buffer as it was |
| `Codec.Codec.Encode` | src/codec.rs:136-172 | appends the wire form, or fails and appends nothing |
| `Codec.Codec.ReadFrames` | src/session.rs:536-557 | the decode loop computes exactly the draining of the buffer |
| `StreamSpec.ReadIsFifo` | src/stream.rs:132-196 | a read into a non-empty buffer returns min(head chunk, room) bytes from the front of one flat byte queue; on an empty queue it waits, or reports EOF if the session let go of the channel |
| `StreamSpec.ReadAnswers` | src/stream.rs:132-196 | a read into a non-empty buffer breaks exactly if the session was found closed, waits exactly if nothing is held and the channel is open, and reports EOF exactly if nothing is held and the channel is closed |
| `StreamSpec.ReadKeepsBytes` | src/stream.rs:150-185 | exactly when a read keeps the byte queue: unless an empty buffer meets a held chunk and a waiting one |
| `StreamSpec.EmptyReadLosesBytes` | src/stream.rs:150-185 | the smallest run in which an empty buffer loses a byte: two chunks arrive, one byte is read |
| `StreamSpec.ReaderIsByteQueue` | src/stream.rs:132-196 | over any history of arrivals and reads of any sizes, bytes read then bytes held are the bytes that arrived |
| `StreamSpec.WriteIsHonest` | src/stream.rs:200-252 | a write accepts bytes exactly if both sides are open and there is room, and queues exactly the bytes it reports; it reports zero bytes of a non-empty buffer exactly if `max_frame_size` is at most 8 |
| `StreamSpec.EmptyWrite` | src/stream.rs:207-224 | an empty write succeeds exactly on an open stream, and queues nothing |
| `StreamSpec.ShutdownAnswers` | src/stream.rs:259-284 | `poll_shutdown` waits exactly while the stream is open and a live channel is full, and has then done nothing; otherwise the stream is closed, with its FIN queued exactly if it was open and there was room |
| `StreamSpec.CloseAnswers` | src/stream.rs:119-128 | `close` closes the stream at once; it waits exactly while a live channel is full, fails exactly if the send loop is gone, and succeeds with its FIN queued |
| `StreamSpec.FragmentsCover` | src/stream.rs:226-234 | a buffer of n bytes becomes ceil(n / (max_frame_size - 8)) PSH frames, none empty, none too long, whose payloads are the buffer |
| `StreamSpec.WriteRunFragments` | src/stream.rs:200-252 | repeated `poll_write` on the remainder sends exactly those fragments in order whatever the channel does; a full or lost channel sends nothing |
| `StreamSpec.WriteRunFinishes` | src/stream.rs:200-252 | while the send loop lives, repeated `poll_write` sends the whole buffer exactly if the channel has room at as many of the calls as there are fragments, with any number of full polls in between |
| `SessionSpec.WrapI64` | src/session.rs:143-155 | 64-bit wrap-around that changes nothing in range |
| `SessionSpec.CounterClosedForm` | src/session.rs:500-508 | the counter after any number of calls |
| `SessionSpec.IdsUntilOverflow` | src/session.rs:500-524 | a client's first 2^31 - 1 and a server's first 2^31 - 2 calls yield valid IDs that the peer accepts and the owner would not; the next call fails with the overflow error |
| `SessionSpec.IdsRepeat` | src/session.rs:500-508 | two calls give the same ID exactly if they are a multiple of 2^31 calls apart |
| `SessionSpec.IdsAfterOverflow` | src/session.rs:500-524 | exactly which calls fail, and that the server's next call hands out ID 0 |
| `SessionSpec.OpenAnswers` | src/session.rs:347-353 | `open_stream` fails exactly if the session was found closed or the IDs overflow, with the error that says so; what a refused call leaves behind |
| `SessionSpec.OpenResumeAnswers` | src/session.rs:376-384 | it then waits exactly while a live channel is full, succeeds with its SYN queued, and fails exactly if the send loop is gone, dropping the stream |
| `SessionSpec.AcceptAnswers` | src/session.rs:422-439 | `accept_stream` fails exactly if the session was found closed, waits exactly if it was not and no stream is queued, and otherwise takes the oldest |
| `SessionSpec.SynAnswers` | src/session.rs:623-632 | which SYNs are refused, with which error; a refused SYN changes nothing |
| `SessionSpec.AcceptRoom` | src/session.rs:655-662 | a waiting stream enters the accept queue exactly while fewer than 16 are there |
| `SessionSpec.TokenAnswers` | src/session.rs:693-712 | a frame waits exactly if the counter is not positive, and is kept; one given up gets its tokens back |
| `SessionSpec.LoopsEnd` | src/session.rs:563-605 | a loop that ends closes the session and is over |
| `SessionSpec.TickCondition` | src/session.rs:774-798 | a tick closes the session exactly with keep-alive on, no ping waiting, no data since the last tick and tokens left |
| `NodeInvariant.InsertReplaces` | src/session.rs:374-374 | inserting a stream under an ID in use cuts the old stream off and keeps the map in step |
| `NodeInvariant.CallIsGood` | src/stream.rs:119-297 | every call on a stream adds nothing to the frame channel or one frame the grammar allows next |
| `NodeSteps.ApplyKeeps` | src/session.rs:498-807 | every operation, whatever frame arrives, keeps the endpoint's invariant |
| `NodeSteps.RunInv` | src/session.rs:256-313 | the invariant holds after every sequence of operations |
| `NodeTheorems.Demultiplexed` | src/session.rs:609-733 | for any frames and any interleaving, each stream gets exactly the payloads carrying its ID from its creation to the next FIN, and its map entry exists exactly while its channel is open |
| `NodeTheorems.ReadFlagNeverSet` | src/stream.rs:82-97 | in no run is a stream's own read-closed flag ever set |
| `NodeTheorems.SynCreatesStream` | src/session.rs:623-663 | a SYN creates a stream exactly if its ID is valid for the peer and no open stream has it; otherwise nothing changes |
| `NodeTheorems.OtherStreamsUntouched` | src/session.rs:609-733 | a frame changes no stream and no map entry with another ID |
| `NodeTheorems.DroppedStreamForgotten` | src/session.rs:715-730 | a payload for a dropped stream is refunded and removes the map entry |
| `NodeTheorems.QueuesBounded` | src/session.rs:267-268 | accept queue and frame channel never exceed their capacities |
| `NodeTheorems.FrameGrammar` | src/stream.rs:119-297 | each stream sends SYN PSH* FIN? or PSH* FIN?; payloads are the bytes written; a FIN is out only if the stream is closed for writing, and is out if it is closed, still in the application's hands and the send loop lives |
| `NodeTheorems.OpenedIdsDistinct` | src/session.rs:347-385 | up to the first overflow error opened streams have distinct, valid IDs |
| `NodeTheorems.OpenNeverOverwrites` | src/session.rs:353-374 | until the IDs are used up, opening on an open session succeeds and its insert overwrites no map entry |
| `NodeTheorems.TokenLedger` | src/session.rs:118-155 | for every run, overflow included: tokens are the buffer size plus bytes read plus bytes discarded minus bytes taken, modulo 2^64 |
| `NodeTheorems.NeverEntersTokenLoop` | src/session.rs:693-712 | with a valid configuration the waiting branch is never reached |
| `NodeTheorems.TokensNeverFall` | src/session.rs:118-155 | tokens never fall and never go below the buffer size |
| `NodeAccounts.BytesAccounted` | src/session.rs:682-733 | in every run each payload byte handled was read, was discarded with its tokens given back, or is held by its stream |
| `NodeAccounts.DesignedLedgerExactly` | src/session.rs:682-733 | tokens plus buffered bytes are the buffer size plus all payload bytes handled, so the documented conservation law holds exactly while no frame handled carried a payload |
| `NodeAccounts.DesignedLedgerFails` | src/session.rs:682-733 | one delivered byte breaks the documented law |
| `NodeFinality.NothingIsUndone` | src/stream.rs:119-298 | between any two moments of any run logs only grow; a closed session stays closed and, once the calls that found it open are over, moves no byte, hands out no stream ID and accepts no stream; a stream closed for writing accepts nothing; a dropped stream sends, reads and gets nothing; ended loops queue and handle nothing |
| `NodeFinality.EndedMeansClosed` | src/session.rs:563-605 | in every run, once the receive loop or the send loop has ended the session is closed |
| `NodeFinality.ShutdownMeansFin` | src/stream.rs:259-284 | in every run, while the send loop lives, a `poll_shutdown` that does not wait leaves the stream's FIN in its send log |
| `NodeFinality.CloseMeansFin` | src/stream.rs:119-128 | a `close` that succeeds after its wait has sent the FIN |
| `NodeFinality.OpenMeansSyn` | src/session.rs:376-384 | in every run an `open_stream` that succeeds has sent exactly its SYN |
| `NodeFinality.ClosedCutsReaders` | src/stream.rs:137-148 | after the session closes every read is a broken pipe, and a stream has read what was delivered to it exactly if it holds nothing: at the close, and at any later moment |
| `NodeFinality.HeldByteIsLost` | src/stream.rs:137-148 | a run in which the session closes on a stream that holds one byte, which is never read |
| `NodeFinality.DropIsFinal` | src/stream.rs:287-298 | dropping takes a stream out of use and closes it for writing at once, and sends a FIN at that moment exactly if it was open for writing and the frame channel has room |
| `NodeFinality.DropSendsFin` | src/stream.rs:287-298 | at the end of any run a dropped stream's FIN is out if and only if it was out before the drop, or the stream was open for writing and the frame channel had room at the drop |
| `NodeFinality.DropLosesFin` | src/stream.rs:287-298 | a stream dropped while the frame channel is full, whose FIN never goes out however the run continues |
| `NodeFinality.CounterOfRun` | src/session.rs:500-508 | in every run, overflow included, the ID counter counts every call, failed ones too |
| `KeepAlive.ClosedWithinBounds` | src/session.rs:762-807 | keep-alive closes a session no earlier than T and no later than 2T after the last frame, give or take how late its ticks are taken |
| `KeepAlive.LatestClose` | src/session.rs:762-807 | the later bound is met: a ping of the session's own that waits for room keeps a dead session open 2T and as long as it waits |
| `KeepAlive.EarliestClose` | src/session.rs:762-807 | the earlier bound is met: a tick held up by a ping makes the session close T less the delay after a frame |
| `KeepAlive.OpenMeansRecent` | src/session.rs:774-798 | a session still open has handled a frame within 2T and what its ticks may be late |
| `KeepAlive.NoGapNoTimeout` | src/session.rs:774-798 | if every gap between frames is shorter than T less what ticks may be late, keep-alive never closes the session |
| `KeepAlive.NopsKeepOpen` | src/session.rs:758-773 | a peer that sends a NOP every interval with jitter below timeout minus interval, less what ticks may be late, keeps the session open |
| `KeepAlive.OffNeverCloses` | src/session.rs:752-756 | with keep-alive off only `close` and the end of a loop ever close the session, however many ticks come |
| `KeepAlive.OffSendsNoNop` | src/session.rs:752-756 | with keep-alive off no NOP is ever sent |
| `KeepAlive.PingSends` | src/session.rs:764-773 | with keep-alive on a ping sends a NOP exactly if there is room, and otherwise waits and holds up the ticks while the send loop lives |
| `SystemKeepAlive.SideIsRun` | src/session.rs:256-313 | each side of a run of the system is a run of an endpoint |
| `SystemKeepAlive.PingingPeerKeepsOpen` | src/session.rs:752-807 | while the peer's session is open, its pings on its own interval keep this one open, if the wait for room, the delay until a ping is handled and the lateness of ticks stay below this timeout minus that interval |
| `SystemKeepAlive.MutualKeepAlive` | src/session.rs:752-807 | two sessions keep each other open: with pings and delivery in time as long as both are open, keep-alive closes neither |
| `SystemInvariant.DecodeExpected` | src/session.rs:536-557 | at any point of the byte stream the next decoded frame is the oldest frame in flight |
| `SystemInvariant.NextSynIsNew` | src/session.rs:623-632 | between conforming endpoints the next SYN names a new stream of the right parity |
| `SystemInvariant.OpenedIdUnseen` | src/session.rs:347-385 | an ID about to be handed out occurs in no frame received so far |
| `SystemInvariant.ActKeeps` | src/session.rs:528-606 | every step of either side keeps the system's invariant |
| `SystemInvariant.SystemRunInv` | src/session.rs:528-606 | the system's invariant holds in every reachable state |
| `SystemTheorems.Conservation` | src/stream.rs:132-252 | in every reachable state, bytes read, held and in transit are, in order, exactly the bytes written on the other side; wire and buffer hold exactly the encodings of the frames in transit; what was read is a prefix of what was written |
| `SystemTheorems.EofExact` | src/stream.rs:168-195 | on an open session a read reports EOF if and only if the FIN was handled and everything ever written has been read; then the writer is closed and its FIN went out |
| `SystemTheorems.AcceptOrder` | src/session.rs:422-439 | accepted, queued and travelling SYNs are exactly the SYNs sent, in order, none twice |
| `SystemTheorems.AcceptFollowsLog` | src/session.rs:422-439 | on an open session `accept_stream` waits exactly when every SYN handled has been accepted, but for one waiting for room, and otherwise hands out the stream of the first SYN not accepted yet |
| `SystemTheorems.SynNeverRefused` | src/session.rs:623-632 | neither the parity check nor StreamAlreadyExists ever fires |
| `SystemTheorems.CodecNeverFails` | src/session.rs:548-551 | every waiting frame encodes and everything that arrives decodes, so no loop ends because of the codec |
| `SystemTheorems.TinyLimitStopsSending` | src/session.rs:587-605 | with a limit below a header the send loop ends at its first frame and closes the session |
| `SystemTheorems.OversizedFrameCloses` | src/session.rs:548-566 | a frame over the reader's limit ends its receive loop as soon as the header is there, closes the session and reaches no stream |
| `SystemProgress.EverythingArrives` | src/session.rs:528-606 | from every reachable state with both loops of a direction running, some schedule loses nothing, has every opened stream accepted in order, every written byte read by the application that holds the stream, and EOF seen where the FIN went out |
| `SystemWork.QuietStep` | src/session.rs:528-606 | a step of a loop, the transport, an accept or a read does nothing or leaves less to do, and keeps the system running |
| `SystemWork.EveryScheduleDelivers` | src/session.rs:528-606 | under every schedule of loops, transport, accepts and reads of both sides at most Work(s) steps do anything, and when none can any more, all that was sent has arrived, been accepted and been read in both directions |
| `SystemWork.BothDirectionsArrive` | src/session.rs:528-606 | some schedule empties both directions at once |
| `Streams.SessionState.ReturnTokens` | src/session.rs:143-146 | adds to the counter, with wrap-around |
| `Streams.SessionState.TakeTokens` | src/session.rs:152-155 | subtracts from the counter and returns it |
| `Streams.SessionState.CheckAndResetDataReceived` | src/session.rs:168-170 | clears the flag and returns what it was |
| `Streams.Stream.PollRead` | src/stream.rs:132-196 | stream, buffer and tokens are those of the read function, for what the call read from the closed flag; broken, waiting and EOF exactly when they should be, told from what the stream held |
| `Streams.Stream.PollWrite` | src/stream.rs:200-252 | result and frame channel are those of the write function, for what the call read from the closed flag; the stream is unchanged |
| `Streams.Stream.PollShutdown` | src/stream.rs:259-284 | as the shutdown function: one FIN, or nothing when the channel is full |
| `Streams.Stream.CloseStart` | src/stream.rs:119-121 | `close` before its await: the write side is closed first |
| `Streams.Stream.CloseResume` | src/stream.rs:122-128 | `close` when the channel answers |
| `Streams.Stream.Drop` | src/stream.rs:287-298 | the receiving half goes, and a FIN is sent if none was and there is room |
| `Streams.Stream.OpenResume` | src/session.rs:376-384 | `open_stream` when the channel answers |
| `Sessions.Session.constructor` | src/session.rs:256-287 | a new endpoint |
| `Sessions.Session.NextStreamId` | src/session.rs:500-508 | answers as the ID function and moves the counter even on error |
| `Sessions.Session.ValidatePeerStreamId` | src/session.rs:511-524 | zero and the wrong parity are refused |
| `Sessions.Session.OpenStream` | src/session.rs:347-374 | `open_stream` before its await: the endpoint gains a handle and an entry, or an error says why not |
| `Sessions.Session.AcceptStream` | src/session.rs:422-439 | hands out the oldest waiting stream, also to a call that has waited since before the session closed; a later call is refused |
| `Sessions.Session.HandleSyn` | src/session.rs:623-655 | as the endpoint's SYN function |
| `Sessions.Session.AcceptResume` | src/session.rs:655-662 | the accept queue takes the waiting stream when it has room |
| `Sessions.Session.HandleFin` | src/session.rs:666-679 | the entry goes and the channel closes |
| `Sessions.Session.Deliver` | src/session.rs:715-732 | the payload goes into the stream's channel, or its tokens are returned |
| `Sessions.Session.TokenTurn` | src/session.rs:693-712 | one turn of the token loop |
| `Sessions.Session.HandlePsh` | src/session.rs:682-733 | as the endpoint's PSH function |
| `Sessions.Session.TokenAbort` | src/session.rs:706-710 | a frame waiting when the session closes is dropped and its tokens returned |
| `Sessions.Session.HandleFrame` | src/session.rs:538-546 | marks data received and dispatches |
| `Sessions.Session.RecvNext` | src/session.rs:536-567 | one turn of the receive loop on the byte buffer |
| `Sessions.Session.SendNext` | src/session.rs:580-605 | one turn of the send loop onto the byte buffer |
| `Sessions.Session.Ping` | src/session.rs:764-773 | one NOP, if keep-alive is on; without room it waits, and further calls try again |
| `Sessions.Session.TimeoutTick` | src/session.rs:774-798 | closes the session only if the flag was down and tokens are positive; nothing while a ping waits |
| `Sessions.StreamCallSeen` | src/session.rs:365-371 | a call on one stream changes the session's view in that handle, the frame channel and the shared flags only |

## Left out

- Futures dropped before they finish, such as a cancelled `open_stream` or `close`: calls run to the end or wait.
- Liveness under the runtime's own scheduling and lost `Notify` wakeups: `EveryScheduleDelivers` needs that a step that can do something is taken in the end.
- The last `Session` handle being dropped, which tears the stream map down: the session's close comes first in the code, and after it reads fail.
- Bytes left in the buffer when the transport ends: the receive loop ends either way.
- The v2 sliding window: `handle_upd_frame` does nothing; UPD matters only in the codec.
- ID reuse after the overflow error inside the two-endpoint system, and zero-length reads there: stated exactly on their own.
- The read-closed flag kept in the session's stream table, which nothing reads.
- ConfigBuilder, error display and recoverability, tracing: they would add only easy members.
- Buffer capacity, sharing of `Bytes`, wakers and memory ordering: buffers are byte sequences and atomics are sequentially consistent.
