# A verified model of message-io

message-io is an event-driven network library. A node runs one master thread and several worker threads.
Each thread owns a command queue and private registries of connections and listeners; users post commands and
receive `Connected`, `Accepted`, `Message` and `Disconnected` events. Messages travel over TCP, optionally with
a size prefix, or over an embedded WebSocket engine (RFC 6455).

The project models the parts of that system whose behaviour depends on interleavings, on how a byte stream is
cut, or on what a stream answers, and proves what holds in every case.

| files | what they hold |
|---|---|
| `Encoding.dfy` | the size-prefixed message stream and its incremental decoder |
| `Mask.dfy`, `Frame.dfy` | masking, operation and close codes, frame headers, frames |
| `Wire.dfy` | the bytes of headers, frames, texts and sizes, said without the functions that compute them |
| `Codec.dfy` | reading frames from, and buffering frames to, a stream |
| `Message.dfy` | UTF-8, the text collector, message reassembly |
| `Context.dfy`, `ContextObject.dfy`, `SessionObject.dfy` | the connection state machine, call by call, and the object that implements it |
| `Writing.dfy`, `Fragments.dfy` | what each call sends, flushes and reports; which frames are taken, and that every correct one is |
| `Session.dfy`, `Closing.dfy`, `Replies.dfy`, `Ending.dfy`, `Reading.dfy`, `EndToEnd.dfy`, `CloseEndToEnd.dfy`, `Link.dfy`, `Pongs.dfy` | what holds over whole sessions and between two ends |
| `WsAdapter.dfy` | the receive and send loops of the WebSocket adapter over its context |
| `ResourceId.dfy`, `Remote.dfy`, `Driver.dfy`, `DriverObject.dfy`, `Worker.dfy` | identifiers, adapters, drivers, what one thread does |
| `Node.dfy`, `Lifecycle.dfy`, `Runs.dfy`, `Threads.dfy` | the node as a step system, its invariant, what holds in every run, the work of a thread as a run |
| `Effects.dfy` | what each step of a node shows, posts and leaves registered, said without the functions that compute it |
| `Handshake.dfy` | the WebSocket handshake machine and its loop |

How to read it:

- Imperative code of the source is a class or a method here, and its `ensures` equates the new state with a
  function of the old one (`Contexts.Read`, `Drivers.ProcessRead`, `Handshakes.HandshakeFrom`, ...). The
  theorems about sessions and runs are about those functions.
- A `Stream` is a script: the chunks, partial writes, refusals and failures that its system calls will answer,
  the random masks that will be drawn, and every byte it has taken. Theorems quantify over all scripts.
- A node run is any sequence of steps: minting an identifier, posting a command, accepting, a poll event for
  any identifier ever issued on any thread (stale ones included), or carrying out the next command of some
  queue. Each step carries the answers of the operating system and the peer. A step that is not possible
  changes nothing, so every sequence of steps is a run.
- One driver call is one step. Registries belong to their thread, user callbacks only post commands, and a post
  only appends to a queue, so finer interleaving shows no other events for a resource.
- A panic of the source (`unreachable!`, `unwrap`, the unimplemented driver, sending through a listener) is
  either a precondition, a `Panic` effect, or an outcome, and the theorems show it is not reached.

Where code and documentation disagree the model follows the code:

- `close` is documented to guarantee that the close frame is queued. `Closing.CloseQueuesIff` gives the exact
  condition in every state; `Closing.CloseWithoutReasonSendsNothing` and `Closing.SecondCloseSendsNothing` are
  the plainest cases in which it is not.
- A decoder fed a stream that was not made by `encode_size` can underflow or lose the message boundary.
  `Encoding.ChunkingIndependent` says for exactly which streams it does not, and `Encoding.UnsafeChunking`
  constructs a failing chunking for every other stream.
- `close` accepts a reason of any length; `CloseEndToEnd.CloseTakenIff` says which the peer takes.
- Identifiers are documented as unique (a debug build asserts the range). `ResourceIds.AllDistinctIff` says exactly
  when they are, and `ResourceIds.SameIdIff` exactly which ones coincide.
- A clean close is documented to mean that a close frame was both sent and received and that the connection may be
  dropped. `Ending.CleanCloseHandsOverIff` says exactly when nothing is left unsent and when a close frame went out;
  `CloseEndToEnd.ServerDropsReply` and `CloseEndToEnd.ServerCannotReply` are runs in which the reply is lost, to a
  blocked stream and to a full buffer.
- `flush` is documented to write all messages and queued replies. `Replies.FlushKeepsPromiseIff` says exactly when an
  `Ok` means so.
- The receive loop of the WebSocket adapter stops after a binary message when peeking at the socket finds nothing,
  although the context may have more messages buffered. `WsAdapters.ReceiveTakesAllIff` says exactly when none is
  left behind; `WsAdapters.SecondIsLeft` is two messages that arrive at once.
- `SendStatus::ResourceNotFound` is documented to imply a disconnection or a resource that never existed. By
  `WsAdapters.SendMeans` a WebSocket send whose frame does not fit the write buffer gets it too, none ever gets
  `MaxPacketSizeExceeded`, and on a stream that never takes the bytes the loop does not end.
- The reading stage of the handshake never reads from its stream. `Handshakes.NeverCompletes` proves that no
  handshake completes and `Handshakes.CompletesIff` says exactly when one could.

## Model

| member | source | states |
|---|---|---|
| Encoding.SizeRoundTrip | src/util/encoding.rs:9-18 | decoding an encoded size gives it back with the bytes it used, whatever follows, and every strict prefix is undecided; sizes that need two bytes or more are at least 128 |
| Encoding.DecodeStable | src/util/encoding.rs:16-18 | a decoded size does not depend on the bytes behind it |
| Encoding.SafeCallsCut | src/util/encoding.rs:34-103 | on safe streams any sequence of decode calls equals one cut of the stored bytes and all chunks |
| Encoding.UnsafeChunking | src/util/encoding.rs:55-86 | for every unsafe stream a chunking on which a subtraction underflows |
| Encoding.ChunkingIndependent | src/util/encoding.rs:34-103 | all chunkings decode to the same messages without underflow if and only if the stream is safe |
| Encoding.EncodedIsSafe | src/util/encoding.rs:55-86 | streams made by `encode_size` are safe: the look-ahead never reaches into the next message |
| Encoding.DecodesEveryChunking | src/util/encoding.rs:34-103 | for every list of messages and every cut into chunks the messages come out in order, and the stored bytes are the undelivered strict prefix of the next one |
| Encoding.Decoder.TryDecode | src/util/encoding.rs:34-53 | the copy-free loop delivers the cut of its data and stores the rest |
| Encoding.Decoder.StoreAndDecodedData | src/util/encoding.rs:55-86 | the storing path completes the stored message or keeps all the bytes, and reports an underflow |
| Encoding.Decoder.Decode | src/util/encoding.rs:92-103 | one call is one step of the specification of the decoder |
| SizeForms.SizeReads | src/util/encoding.rs:16-18 | bytes that end a size, at most ten, decode to the number that their groups of seven bits spell, low group first |
| SizeForms.NoSizeReads | src/util/encoding.rs:16-18 | bytes without an end decode to nothing |
| SizeForms.SizeWrites | src/util/encoding.rs:9-12 | an encoded size spells the length of the message, with no group to spare |
| Masking.XorTwice | src/adapters/ws/protocol/frame/mask.rs:15-19 | exclusive or undoes itself |
| Masking.MaskedTwice | src/adapters/ws/protocol/frame/mask.rs:15-19 | masking twice restores the buffer |
| Masking.RotateMask | src/adapters/ws/protocol/frame/mask.rs:28-37 | rotating the mask word by the head, in either byte order, is shifting the mask by as many bytes |
| Masking.XorWord | src/adapters/ws/protocol/frame/mask.rs:38-40 | one word operation is four byte operations, in either byte order |
| Masking.ThreeStretches | src/adapters/ws/protocol/frame/mask.rs:26-41 | a prefix, words and a suffix masked in turn with shifted masks are one masked buffer |
| Masking.ApplyMaskFallback | src/adapters/ws/protocol/frame/mask.rs:15-19 | the byte loop masks its stretch and nothing else |
| Masking.ApplyMaskFast32 | src/adapters/ws/protocol/frame/mask.rs:23-42 | for every split and byte order the word version leaves the bytewise masked buffer |
| Coding.OpCodeOf | src/adapters/ws/protocol/frame/coding.rs:95-116 | the operation code read from a nibble has that nibble as its number |
| Coding.CloseCodeOf | src/adapters/ws/protocol/frame/coding.rs:190-260 | a close code keeps its number, and is allowed exactly for 1000-1003, 1007-1013 and 3000-4999 |
| Frames.BigEndianRoundTrip | src/adapters/ws/protocol/frame/frame.rs:105-131 | the length bytes read back as the length |
| Frames.HeaderRoundTrip | src/adapters/ws/protocol/frame/frame.rs:87-210 | parsing a formatted header followed by any bytes gives header and length and consumes exactly its length |
| Frames.HeaderPrefix | src/adapters/ws/protocol/frame/frame.rs:87-96 | no strict prefix of a formatted header parses |
| Frames.ParseStable | src/adapters/ws/protocol/frame/frame.rs:145-210 | what a header parses to does not depend on the bytes behind it |
| Frames.UnmaskOnTheWire | src/adapters/ws/protocol/frame/frame.rs:276-283 | unmasking what was put on the wire gives the frame without its mask |
| Frames.FrameLenIsFormatted | src/adapters/ws/protocol/frame/frame.rs:223-227 | the computed length is the length of the wire form |
| Frames.CloseRoundTrip | src/adapters/ws/protocol/frame/frame.rs:303-357 | the payload of a close frame reads back as its code number and reason |
| WireForms.OpCodesAreNumbered | src/adapters/ws/protocol/frame/coding.rs:74-114 | every operation code has the number that section 5.2 of RFC 6455 gives it, in both directions |
| WireForms.CloseCodesAreNumbered | src/adapters/ws/protocol/frame/coding.rs:190-260 | every close code is read from the number that section 7.4 of RFC 6455 gives it |
| WireForms.HeaderOnTheWire | src/adapters/ws/protocol/frame/frame.rs:105-134 | a formatted header byte by byte: flags, operation code, mask bit, the shortest length form with its digits most significant first, mask |
| WireForms.HeaderBytesUnique | src/adapters/ws/protocol/frame/frame.rs:105-134 | those bytes are determined by the header and the length |
| WireForms.HeaderReads | src/adapters/ws/protocol/frame/frame.rs:145-210 | what any bytes parse to, minimal or not: when more are needed, which operation codes are refused, and otherwise each flag, the code, the length and the mask by its bytes |
| WireForms.FrameOnTheWire | src/adapters/ws/protocol/frame/frame.rs:365-371 | behind the header bytes, every payload byte as it is, or with the bits of its mask byte turned over |
| WireForms.CloseOnTheWire | src/adapters/ws/protocol/frame/frame.rs:349-357 | a close frame is final and unmasked, its payload the number of the code, high byte first, and the reason |
| WireForms.CloseReads | src/adapters/ws/protocol/frame/frame.rs:303-313 | any close payload is read as nothing, an error, or its number and reason |
| Codecs.TakeFramePending | src/adapters/ws/protocol/frame/mod.rs:83-113 | one attempt takes the first pending frame or leaves all pending frames as they are |
| Codecs.ReadFramePending | src/adapters/ws/protocol/frame/mod.rs:72-128 | a read delivers the first frame of the whole remaining stream or none, never above the limit, and blocks on an exhausted stream only when no frame is left |
| Codecs.ReadFrameProgress | src/adapters/ws/protocol/frame/mod.rs:72-128 | every delivered frame leaves fewer bytes to consume |
| Codecs.ReadFramesRefineStream | src/adapters/ws/protocol/frame/mod.rs:72-128 | over any calls, chunking and interruptions: delivered frames followed by pending frames are the frames of the stream |
| Codecs.WriteOutConserves | src/adapters/ws/protocol/frame/mod.rs:160-178 | partial and failed writes neither lose nor reorder bytes |
| Codecs.BufferFrameConserves | src/adapters/ws/protocol/frame/mod.rs:137-155 | buffering keeps the accounts and the limit, and refuses exactly the frames that do not fit |
| Writes.BufferOffersIff | src/adapters/ws/protocol/frame/mod.rs:137-155 | a frame that brings the buffer above the write length is offered to the stream at once with all that is buffered; at or below it nothing is written; one without room changes nothing |
| Writes.MaskIsDrawn | src/adapters/ws/protocol/mod.rs:696-711 | a client masks every frame with the next random mask, a server with none |
| Writes.ResetWhileWriting | src/adapters/ws/protocol/mod.rs:764-780 | a reset while a frame is buffered is a clean close behind the peer's Close, an error before |
| CodecObjects.FrameCodec.constructor | src/adapters/ws/protocol/frame/mod.rs:39-58 | a new codec holds the partially read bytes and nothing else |
| CodecObjects.FrameCodec.SetLimits | src/adapters/ws/protocol/frame/mod.rs:61-69 | only the limits change |
| CodecObjects.FrameCodec.ReadFrame | src/adapters/ws/protocol/frame/mod.rs:72-128 | the loop does what the specification of reading says, for the buffers, the stream and the result |
| CodecObjects.FrameCodec.WriteOutBuffer | src/adapters/ws/protocol/frame/mod.rs:160-178 | the loop drains as specified, up to the first refusal |
| CodecObjects.FrameCodec.BufferFrame | src/adapters/ws/protocol/frame/mod.rs:137-155 | a refused frame changes nothing; an accepted one is in the buffer whatever the stream says |
| Utf8Text.WholeIsWellFormed | src/adapters/ws/protocol/message.rs:52-66 | the decoder consumes everything exactly for well-formed UTF-8 (section 4 of RFC 3629) |
| TextForms.WellFormedIff | src/adapters/ws/protocol/message.rs:52-66 | well formed are exactly the encodings of Unicode scalar values (section 3 of RFC 3629) |
| Utf8Text.DecodeAppend | src/adapters/ws/protocol/message.rs:52-66 | decoding a concatenation is decoding the parts in turn |
| Utf8Text.TryCompleteDecodes | src/adapters/ws/protocol/message.rs:37-49 | completing a cut character from the next fragment agrees with decoding both together |
| Messages.ExtendTextCollects | src/adapters/ws/protocol/message.rs:34-70 | a fragment is accepted exactly when the text so far can still become well formed, and the collector then holds that text |
| Messages.FragmentsCollectIff | src/adapters/ws/protocol/message.rs:34-78 | for every cut into fragments, all are accepted and the text completes if and only if the concatenation is well-formed UTF-8, and it then equals the concatenation |
| Messages.MessageCollects | src/adapters/ws/protocol/message.rs:121-153 | growth succeeds exactly within the size limit and for possible text, appends, and completion yields the whole |
| CollectorObjects.StringCollector.Extend | src/adapters/ws/protocol/message.rs:34-70 | the collector object changes as the specification of collecting says |
| CollectorObjects.StringCollector.IntoString | src/adapters/ws/protocol/message.rs:72-78 | of any text collected, the whole is yielded if it is well-formed UTF-8 and nothing otherwise |
| Contexts.ReadProgress | src/adapters/ws/protocol/mod.rs:379-394 | every turn of the read loop consumes input, so `read` terminates |
| ContextObjects.WebSocketContext.constructor | src/adapters/ws/protocol/mod.rs:323-335 | a new context is active with the configured limits |
| ContextObjects.WebSocketContext.BufferFrame | src/adapters/ws/protocol/mod.rs:696-711 | masks as a client, buffers, and translates a reset |
| ContextObjects.WebSocketContext.SetAdditionalReply | src/adapters/ws/protocol/mod.rs:714-722 | a pending reply is replaced only when it is a Pong |
| ContextObjects.WebSocketContext.SendAdditionalReply | src/adapters/ws/protocol/mod.rs:480-496 | the pending reply goes into the buffer; a full buffer leaves it pending |
| ContextObjects.WebSocketContext.WriteFrames | src/adapters/ws/protocol/mod.rs:469-511 | frame, then pending reply, then the end of a server with nothing left to read |
| ContextObjects.WebSocketContext.Flush | src/adapters/ws/protocol/mod.rs:455-462 | new state, stream and result are those of the specification |
| ContextObjects.WebSocketContext.Close | src/adapters/ws/protocol/mod.rs:518-528 | new state, stream and result are those of the specification |
| ContextObjects.WebSocketContext.Write | src/adapters/ws/protocol/mod.rs:407-448 | new state, stream and result are those of the specification, for every kind of message |
| ContextObjects.WebSocketContext.AcceptClose | src/adapters/ws/protocol/mod.rs:659-693 | answers, acknowledges or ignores a close; `Terminated` is excluded and no caller reaches it |
| ContextObjects.WebSocketContext.AcceptControl | src/adapters/ws/protocol/mod.rs:576-600 | control frames: checks, close, ping, pong |
| ContextObjects.WebSocketContext.AcceptData | src/adapters/ws/protocol/mod.rs:602-645 | data frames: reassembly and its errors, with the fragment state kept on error |
| ContextObjects.WebSocketContext.AcceptFrame | src/adapters/ws/protocol/mod.rs:538-645 | reserved bits, masking rules of the role, then control or data |
| ContextObjects.WebSocketContext.ReadMessage | src/adapters/ws/protocol/mod.rs:531-655 | one frame or the end of the stream, as specified |
| ContextObjects.WebSocketContext.Read | src/adapters/ws/protocol/mod.rs:372-395 | the loop with its flushes refines the specification of `read` |
| Writes.WriteSendsFrame | src/adapters/ws/protocol/mod.rs:407-448 | a write sends exactly its message's frame, a raw one as given, and behind it at most the pending reply, flushed if the write is `Ok`; without room it changes nothing |
| Writes.WriteIsRefused | src/adapters/ws/protocol/mod.rs:407-420 | a write on a connection that is not active changes nothing and says why |
| Writes.PongIsBuffered | src/adapters/ws/protocol/mod.rs:430-438 | a Pong of the user is buffered like any frame and flushes nothing |
| Writes.FlushReachesStream | src/adapters/ws/protocol/mod.rs:455-462 | a flush that is `Ok` has emptied the buffer and flushed the stream, and a failing flush of the stream is reported |
| Writes.CloseReachesStream | src/adapters/ws/protocol/mod.rs:518-528 | so has a close that is `Ok` |
| Writes.OnlyServersEnd | src/adapters/ws/protocol/mod.rs:498-508 | a call that does not read ends the connection only for a server behind the peer's Close |
| Writes.ServerEndsIff | src/adapters/ws/protocol/mod.rs:498-508 | and does exactly when the stream takes all that is buffered |
| Writes.ReadPushesReply | src/adapters/ws/protocol/mod.rs:379-383 | every read first sends the pending reply if it has room |
| Writes.ReadStopsAtFailure | src/adapters/ws/protocol/mod.rs:379-383 | a stream that fails meanwhile stops the read, one that is blocked does not |
| Writes.ServerReadEnds | src/adapters/ws/protocol/mod.rs:384-387 | a server with nothing to read or answer is done |
| Writes.EndTerminates | src/adapters/ws/protocol/mod.rs:646-654 | the end of the stream ends the connection, cleanly behind the peer's Close, as a reset before |
| Writes.FailureIsReported | src/adapters/ws/protocol/mod.rs:764-780 | a failing read is reported as it is, but for a reset behind the peer's Close |
| Writes.ViolationInWords | src/adapters/ws/protocol/mod.rs:671-682 | the reason that answers a forbidden close code, letter by letter |
| Sessions.SessionMovesForward | src/adapters/ws/protocol/mod.rs:372-448 | over any session the state only moves forward; from the moment it is terminated to the end, every read and every write answers `AlreadyClosed` |
| SessionObjects.PerformOn | src/adapters/ws/protocol/mod.rs:372-528 | one call on the context object is one call of the specification |
| SessionObjects.PlayOn | src/adapters/ws/protocol/mod.rs:372-528 | any sequence of calls on the context object is a session of the specification, so the session theorems hold of the object |
| Sessions.SessionConservesOutput | src/adapters/ws/protocol/mod.rs:469-511 | over any session, bytes taken by the stream followed by the output buffer are the accepted frames in order, and the buffer keeps its limit |
| Closing.SessionDisciplined | src/adapters/ws/protocol/mod.rs:407-528 | the closing invariant is kept by every call but a raw frame write |
| Closing.NothingAfterClose | src/adapters/ws/protocol/mod.rs:407-528 | in every session at most one Close is accepted, no data or Ping follows it, and at most one frame does, a Pong |
| Closing.ReplyIsNeverDropped | src/adapters/ws/protocol/mod.rs:659-722 | the reply to a peer's close is the right one and stays pending through refusals until it is in the buffer |
| Closing.SessionOwed | src/adapters/ws/protocol/mod.rs:714-722 | an owed Close reply stays owed over any calls, an owed Pong over any that bring no other reply |
| Closing.CloseQueuesIff | src/adapters/ws/protocol/mod.rs:513-528 | in every state: a call of `close` queues a close frame if and only if the connection is active and a reason is given whose frame fits, or it is closing with a Close reply pending that fits |
| Closing.FirstCloseQueuesIff | src/adapters/ws/protocol/mod.rs:513-528 | with nothing of a close yet: if and only if the connection is active, a reason is given and its frame fits |
| Closing.SecondCloseSendsNothing | src/adapters/ws/protocol/mod.rs:513-528 | after a close without a reason, a second close with one sends nothing |
| Closing.CloseWithoutReasonSendsNothing | src/adapters/ws/protocol/mod.rs:513-528 | a close without a reason on a new connection sends nothing |
| Replies.PingIsAnswered | src/adapters/ws/protocol/mod.rs:590-597 | after a read returns a Ping on an active connection, the Pong with the same data is owed over any further calls until it is accepted, unless a later Ping, a Pong of the user or the peer's Close takes its place; a flush that finds it pending and has room sends it |
| Replies.CloseIsAnswered | src/adapters/ws/protocol/mod.rs:659-693 | after a read returns the peer's close, the reply with the returned reason is owed over any further calls |
| Replies.ControlWriteSends | src/adapters/ws/protocol/mod.rs:430-438 | a Ping or Pong of the user is sent as such when there is room; otherwise a Ping is refused and a Pong stays pending |
| Replies.FlushSendsReply | src/adapters/ws/protocol/mod.rs:479-497 | with room, a flush moves the pending reply and only it into the output |
| Replies.FlushKeepsPromiseIff | src/adapters/ws/protocol/mod.rs:450-462 | a flush that answers `Ok` leaves nothing in the buffer, and no reply pending if and only if none was pending or it fits |
| Replies.FlushOkLeavesReply | src/adapters/ws/protocol/mod.rs:480-496 | an input on which a flush answers `Ok` and leaves a queued reply pending |
| Ending.PeerClosedWasSeen | src/adapters/ws/protocol/mod.rs:659-693 | a connection is past the peer's Close only if a read returned that Close |
| Ending.EndIsReportedRightly | src/adapters/ws/protocol/mod.rs:646-655 | a read reports a clean close only after an earlier read returned the peer's Close, and a reset only before it; the reset terminates the connection |
| Ending.CleanCloseHandsOverIff | src/adapters/ws/protocol/mod.rs:379-394 | when a read reports a clean close: nothing is left, neither in the output buffer nor as a pending reply, if and only if no reply was pending and the buffer was empty, or the reply fits and the stream takes it with the buffer; and that read sent a close frame if and only if a Close reply was pending and fits |
| Ending.BlockedServerDrops | src/adapters/ws/protocol/mod.rs:384-387 | a server whose stream blocks reports a clean close with its reply unsent in the buffer |
| Ending.FullServerDrops | src/adapters/ws/protocol/mod.rs:480-511 | a server whose reply does not fit reports a clean close with the reply still pending, though the stream takes every byte |
| Reading.AssemblesGroups | src/adapters/ws/protocol/mod.rs:602-645 | whatever control frames are mixed in, and wherever the stream ends, the messages of a frame stream are its finished fragment groups: concatenated payloads with the type of the first fragment (section 5.4 of RFC 6455) |
| Reading.HandleDataAssembles | src/adapters/ws/protocol/mod.rs:602-645 | an accepted data frame opens, continues or completes the group as the reading of the stream says |
| Reading.ReadLoopAssembles | src/adapters/ws/protocol/mod.rs:372-395 | one read delivers the next message of the stream or leaves all of them |
| Reading.SessionAssembles | src/adapters/ws/protocol/mod.rs:372-655 | in every session whose reads meet no error: messages returned followed by messages to come are those of the incoming frames, within the limit, text well formed |
| Fragments.CollectsIff | src/adapters/ws/protocol/message.rs:34-70 | a text is collected exactly while some bytes behind it would make it well formed |
| Fragments.DataFrameTakenIff | src/adapters/ws/protocol/mod.rs:602-645 | a data frame is taken if and only if it opens or continues a message as it should, within the limit, with text that can still become well formed, or is when the frame is final |
| Fragments.DataFrameRefused | src/adapters/ws/protocol/mod.rs:602-645 | and otherwise which error says why |
| Fragments.FrameTakenIff | src/adapters/ws/protocol/mod.rs:538-645 | every frame: taken if and only if the connection can be read, no reserved bit is set, the mask suits the role, and it is a proper control frame or a data frame that may follow |
| Fragments.RefusalIsNamed | src/adapters/ws/protocol/mod.rs:538-645 | and otherwise which error says why, in which order |
| Fragments.ReadsAreTold | src/adapters/ws/protocol/mod.rs:372-395 | on a wire of proper frames reads never fail and return what the frames say, in order |
| Fragments.FragmentsAreRead | src/adapters/ws/protocol/mod.rs:372-645 | any messages within the limit, in any fragmentation, with Pings and Pongs between any frames, in any cut: reads never fail, and enough of them return exactly the messages, and the control messages where they stand |
| Fragments.ControlIsRead | src/adapters/ws/protocol/mod.rs:576-600 | from the wire, a Ping, Pong or empty Close is returned with exactly its payload; only a Ping of an active connection brings a reply, a Pong with that payload; an empty Close closes the connection and sends nothing |
| EndToEnd.WriteSends | src/adapters/ws/protocol/mod.rs:407-448 | a data write adds exactly the one frame that carries the message, masked exactly by a client, unless the buffer is full |
| EndToEnd.TakeFrameOnWire | src/adapters/ws/protocol/frame/mod.rs:83-113 | on bytes that are formatted frames, an attempt never fails: the next frame or nothing yet |
| EndToEnd.ReadDelivers | src/adapters/ws/protocol/mod.rs:372-395 | one read on such a stream returns the next message unchanged or would block |
| EndToEnd.ReadsDeliver | src/adapters/ws/protocol/mod.rs:372-395 | any number of reads returns the first messages in order; enough reads return all whose bytes arrived |
| EndToEnd.WrittenIsRead | src/adapters/ws/protocol/mod.rs:372-655 | client to server and server to client: what one side's writes accepted is what the other side's reads return, for any masks, partial writes, cuts and interruptions |
| Links.WriteSpeaks | src/adapters/ws/protocol/mod.rs:407-511 | a fair write, a close included, accepts only frames of the conversation, among them the data written unless refused |
| Links.ReadHears | src/adapters/ws/protocol/mod.rs:372-395 | in any state, a read hears the next frame, or refuses it behind the peer's Close, or takes none in and, while the connection can be read, fails only by the stream |
| Links.TalkKeeps | src/adapters/ws/protocol/mod.rs:372-511 | every turn of either side keeps the conversation |
| Links.BothHearInOrder | src/adapters/ws/protocol/mod.rs:372-722 | two new contexts joined both ways, in any order of data writes, pings, pongs, flushes, reads and closes of either or both: each side has heard, in order, the first of the data messages and pings the other had accepted, just the first of the messages in its frames, pongs included, and is past the other's Close only if that was sent |
| Links.EverythingIsHeard | src/adapters/ws/protocol/mod.rs:372-722 | while a side can read, its reads fail only by the stream; a read that would block with all let go taken in has heard everything the other side had accepted and every pong it sent, and the side is past the other's Close if and only if the other sent one |
| Links.StaysActive | src/adapters/ws/protocol/mod.rs:372-722 | a conversation in which nobody closes stays open on both sides |
| Pongs.NoPongIsMadeUp | src/adapters/ws/protocol/mod.rs:590-598 | in every conversation, a pong that a side has heard carries the data of a ping it sent itself, or was written by the other side's user |
| CloseEndToEnd.CloseTakenIff | src/adapters/ws/protocol/mod.rs:531-590 | `close` sends a reason of any length; a read of the peer that meets the close takes it if and only if the reason has at most 123 bytes and the frame is within the peer's limit, and otherwise reports which of the two failed |
| CloseEndToEnd.CloseSends | src/adapters/ws/protocol/mod.rs:518-528 | a close whose frame fits adds exactly that frame, whatever the stream answers |
| CloseEndToEnd.CloseReachesPeer | src/adapters/ws/protocol/mod.rs:372-693 | two joined contexts: enough reads of the peer return the messages written before the close, then the Close, and leave the echo pending |
| CloseEndToEnd.SessionAnswers | src/adapters/ws/protocol/mod.rs:469-528 | after the peer's close, whatever calls follow, the reply is the only frame that comes out |
| CloseEndToEnd.FlushHandsOver | src/adapters/ws/protocol/mod.rs:455-511 | with room and a stream that takes the bytes, one flush hands the reply over |
| CloseEndToEnd.EchoReachesInitiator | src/adapters/ws/protocol/mod.rs:372-693 | once the reply is out of the peer's hands, enough reads of the initiator return the echo and the close is acknowledged |
| CloseEndToEnd.ServerDropsReply | src/adapters/ws/protocol/mod.rs:384-387 | a run from a new server in which a blocked stream loses the reply |
| CloseEndToEnd.ServerCannotReply | src/adapters/ws/protocol/mod.rs:480-511 | a run from a new server in which a full buffer loses it: a clean close with nothing ever sent |
| WsAdapters.ReceiveHandsOver | src/adapters/ws/ws_adapter.rs:169-215 | on a wire of proper frames a receive never reports a loss, and hands over the first of the binary messages, whole and in order, leaving the others to be received |
| WsAdapters.ReceiveEnds | src/adapters/ws/ws_adapter.rs:197-212 | a read that fails or returns the peer's Close ends the receive with a loss, unless it is only blocked; so does peeking that fails otherwise |
| WsAdapters.ReceiveLeaves | src/adapters/ws/ws_adapter.rs:179-201 | how many complete messages a receive leaves behind: all but the first of those that the last chunk completes |
| WsAdapters.ReceiveTakesAllIff | src/adapters/ws/ws_adapter.rs:179-201 | all complete messages that have come are handed over if and only if the last chunk completes at most one |
| WsAdapters.SecondIsLeft | src/adapters/ws/ws_adapter.rs:179-201 | an input: of two messages that arrive at once the second is left |
| WsAdapters.SendMeans | src/adapters/ws/ws_adapter.rs:218-242 | `Sent` means that the stream has taken every byte up to the message's frame and behind it; on a stream that only blocks, it is answered exactly if the connection is active and the frame has room, unless the loop spins for ever; otherwise the answer is `ResourceNotFound` |
| WsAdapters.StuckStays | src/adapters/ws/ws_adapter.rs:225-230 | once stuck, no further flush of the loop helps |
| WsRemoteObjects.ReceiveOn | src/adapters/ws/ws_adapter.rs:169-215 | the loop on the context object refines that specification |
| WsRemoteObjects.SendOn | src/adapters/ws/ws_adapter.rs:218-242 | the loop on the context object refines that specification |
| ResourceIds.FieldsDecode | src/network/resource_id.rs:35-95 | adapter, type and base value of an identifier decode back |
| ResourceIds.PackInjective | src/network/resource_id.rs:35-58 | two identifiers are equal only if all fields are |
| ResourceIds.TokenRoundTrip | src/network/poll.rs:16-47 | a token gives its identifier back exactly when the reserved byte is clear, and is never the waker's |
| ResourceIds.ProcessEvents | src/network/poll.rs:51-86 | the loop over raised events yields the waker, read and write events in order |
| ResourceIds.EventsReachTheirOrigin | src/network/poll.rs:57-74 | every raised event is handed on under the identifier that raised it, read before write, and only the waker's as a wake-up |
| ResourceIds.BaseDecodesIff | src/network/resource_id.rs:53-57 | joined bit by bit, a base value decodes back if and only if it is within 48 bits |
| ResourceIds.SameIdIff | src/network/resource_id.rs:48-57 | exactly when two resources of any adapters, types and base values get the same identifier |
| ResourceIds.AllDistinctIff | src/network/resource_id.rs:125-136 | the resources issued by both generators have different identifiers, for whatever adapters, if and only if neither generator has issued more than 2^48 |
| ResourceIds.IdentifiersRepeat | src/network/resource_id.rs:48-57 | an input beyond: a WebSocket gets the identifier of the one 2^48 earlier |
| ResourceIds.RemoteTakesListener | src/network/resource_id.rs:48-57 | another: far beyond, a remote gets the identifier of a listener |
| IdObjects.ResourceIdGenerator.Generate | src/network/resource_id.rs:132-135 | issues the identifier of the counter's value for every value, advances the counter with wrap-around, and the fields decode back while the counter is within 48 bits |
| Remotes.PendingSettles | src/adapters/ws/ws_adapter.rs:245-348 | a pending call on an unsettled remote does not panic, leaves no handshake taken out, and `Ready` leaves it usable |
| Remotes.SendWritesPrefix | src/adapters/tcp/tcp_adapter.rs:108-136 | whatever the socket answers, a prefix is written, and `Sent` means all of it |
| Remotes.SendTcp | src/adapters/tcp/tcp_adapter.rs:108-136 | the bounded loop computes that status and prefix |
| Remotes.SendStatusIff | src/adapters/tcp/tcp_adapter.rs:108-136 | `Sent` exactly when one of the first thousand writes takes the last byte before any is broken, `ResourceNotFound` exactly when one is broken first, `SendAbort` otherwise, and how much is then written |
| Remotes.AllSentOnSocket | src/adapters/tcp/tcp_adapter.rs:108-136 | if every send reports `Sent`, the socket took the concatenation of the buffers |
| Remotes.LastSendOnSocket | src/adapters/tcp/tcp_adapter.rs:108-136 | if only the last does not, the socket took the others and a prefix of the last |
| DriverObjects.RemoteRegister.CallPending | src/adapters/ws/ws_adapter.rs:245-348 | the state left by `pending`, handshake taken out and put back |
| DriverObjects.DriverObject.ResolveRemote | src/adapters/tcp/tcp_driver.rs:61-86 | registry, held register and events after resolving a pending remote |
| DriverObjects.DriverObject.ReadRemote | src/adapters/tcp/tcp_driver.rs:101-116 | messages, and a disconnection only if the remote was still registered |
| DriverObjects.DriverObject.Read | src/adapters/tcp/tcp_driver.rs:174-205 | registries and events after a readable poll event, stale identifiers included |
| DriverObjects.DriverObject.Write | src/adapters/tcp/tcp_driver.rs:208-234 | registries and events after a writable poll event |
| DriverObjects.DriverObject.Send | src/adapters/tcp/tcp_driver.rs:348-373 | only a registered and ready remote is given the buffer |
| DriverObjects.DriverObject.Close | src/adapters/tcp/tcp_driver.rs:376-386 | the resource is removed from the registry of its type |
| DriverObjects.DriverObject.Carry | src/network.rs:179-281 | the effect of every command: registries, events, sends and posts |
| Effects.PendingStatusIs | src/adapters/ws/ws_adapter.rs:245-348 | what a pending remote answers and becomes, by its connection and its handshake |
| Effects.ReadShows | src/adapters/tcp/tcp_driver.rs:61-116 | what a readable event shows for a registered remote: ready or failed, then each buffer received, in order, then the loss; and whether it stays registered |
| Effects.WriteShows | src/adapters/tcp/tcp_driver.rs:208-234 | what a writable event shows: ready, failed or nothing |
| Effects.StaleShowsNothing | src/adapters/tcp/tcp_driver.rs:174-234 | an event for a resource that is not registered shows and changes nothing |
| Effects.CloseRemoves | src/adapters/tcp/tcp_driver.rs:376-386 | a close carried out where the resource lives removes it from every thread and is on record; elsewhere it changes no registry and shows nothing |
| Effects.SendIsHanded | src/adapters/tcp/tcp_driver.rs:348-373 | a send is given to the transport exactly when its remote is registered there and ready, with which status and how many bytes |
| Effects.ConnectIsHandedOn | src/network.rs:179-281 | a connect with a socket goes on to the worker its identifier routes to, one without is over |
| Effects.RemoteIsRegistered | src/adapters/tcp/tcp_driver.rs:236-296 | a remote handed to its worker is registered there, not ready, at the beginning of its handshake |
| Effects.ListenerIsRegistered | src/adapters/tcp/tcp_driver.rs:298-316 | a listener is registered on the master exactly if its socket could be made |
| Draining.DrainInOrder | src/network.rs:172-288 | a drain carries out queued and arriving commands in order, loses and repeats none, takes at most 1024, and leaves the queue empty if it takes fewer |
| ThreadRuns.DrainIsRun | src/network.rs:172-288 | in every reachable state a drain is the run of its commands: none panics, none adds to the queue being drained, what it shows is the growth of every resource's events and what it posts the growth of every other queue |
| ThreadsTogether.ForeignLeavesAlone | src/node.rs:494-509 | a step that is no poll event and no command of a thread leaves its registries and the events of its resources alone, and only adds to its queue |
| ThreadsTogether.DrainAmongOthers | src/network.rs:172-288 | whatever users and other threads do between its commands, a drain carries out what they post, panics nowhere, and agrees with the node in registries, queue, events and every command posted |
| ThreadsTogether.ThreadAmongOthers | src/network.rs:140-291 | the same from any reachable state for any sequence of poll events, with any steps of others before each event and each command, and for resources issued at any time |
| WorkerObjects.MultiplexorWorker.ProcessCommands | src/network.rs:172-288 | the counted loop, with commands arriving before each is taken, refines that drain: registries, queue, posts and events |
| WorkerObjects.MultiplexorWorker.ProcessPollEvents | src/network.rs:140-291 | any sequence of poll events refines the turns of the thread |
| Lifecycle.ProcessReadOk | src/adapters/tcp/tcp_driver.rs:174-234 | a poll event on a registered remote leads from legal to legal events and never panics |
| Lifecycle.CommandOwn | src/network.rs:179-281 | every command at the head of its queue keeps the invariant of its resource |
| Lifecycle.MintKeeps | src/network/resource_id.rs:132-135 | a new identifier is unused, so minting keeps the invariant |
| Lifecycle.PostMintedKeeps | src/node.rs:193-208 | a minted resource has one command in flight, on the queue where it belongs |
| Lifecycle.UserSendKeeps | src/node.rs:418-421 | posted sends are those processed followed by those queued on the worker the identifier routes to |
| Lifecycle.UserCloseKeeps | src/node.rs:465-476 | a posted close keeps the invariant |
| Effects.CloseGoesHome | src/node.rs:465-476 | the user's close is posted to the thread on which the resource lives, and nowhere else |
| Effects.SendGoesHome | src/node.rs:418-421 | the user's send is posted to the worker the resource routes to, and nowhere else |
| Effects.RequestGoesToMaster | src/node.rs:193-208 | a connect or listen is posted to the master |
| Effects.MintIssues | src/network/resource_id.rs:132-135 | a new identifier is made of the adapter, the type and the next number of its generator |
| Effects.AcceptIssues | src/adapters/tcp/tcp_driver.rs:119-147 | an accepted connection gets a new remote identifier of the listener's adapter |
| Effects.AcceptIsHandedOn | src/node.rs:494-509 | and goes to the worker it routes to |
| Lifecycle.TakeKeeps | src/network.rs:148-290 | every step of every thread and user keeps the invariant |
| Lifecycle.RunKeeps | src/network.rs:148-290 | the invariant holds in every reachable state |
| Runs.EventsOfEveryRun | src/adapters/tcp/tcp_driver.rs:61-157 | in every run no thread panics, and the events of every resource are: none; one failed connection; or one ready event of the right kind, messages, and at most one ending |
| Effects.MessagesOfEveryRun | src/adapters/tcp/tcp_driver.rs:101-116 | in every run, the data of the messages shown for a resource are the buffers its remote received while ready: every one, once, in order |
| Runs.NothingAfterTheEnd | src/network/net_event.rs:32-40 | after a disconnection, a failed connection or a close that found the resource, no event follows in any continuation |
| Runs.AcceptedByAListener | src/adapters/tcp/tcp_driver.rs:72-75 | an `Accepted` event comes first and names the listener that accepted the resource, which was issued as a listener in this run |
| Runs.SendsOfEveryRun | src/adapters/tcp/tcp_driver.rs:348-373 | buffers given to a transport are a contiguous block of those posted, in order |
| Runs.SocketOfEveryRun | src/adapters/tcp/tcp_adapter.rs:108-136 | for TCP resources: the socket took exactly that block, or all before the last and a prefix of it |
| Runs.PlacementInEveryRun | src/node.rs:65-67 | identifiers are distinct, made of their fields and survive their tokens; a remote is registered at most on the worker it routes to, a listener only on the master |
| Runs.WebSocketStatesInEveryRun | src/adapters/ws/ws_adapter.rs:144-348 | a ready WebSocket remote is in state `WebSocket`, one that is not ready holds its handshake |
| Handshakes.NextProgress | src/adapters/ws/handshake/machine.rs:42-95 | every round that continues shortens what is left: bytes to write, or rounds within the budget |
| Handshakes.Handshake | src/adapters/ws/handshake/mod.rs:38-52 | the loop ends, within a bound given by the bytes to write and 512 reading rounds |
| Handshakes.CallDoesNotPanic | src/adapters/ws/handshake/machine.rs:74-93 | if every successful write takes a byte, no assertion of a round fails, in this call or a resumed one |
| Handshakes.RoundEndsIff | src/adapters/ws/handshake/machine.rs:42-95 | exactly when a round fails: by the budget, the parser, the role, the stream or an error answer written; and exactly when it is interrupted, with nothing changed |
| Handshakes.RequestJudged | src/adapters/ws/handshake/server.rs:236-272 | a server answers a request that parses with nothing behind it and is not refused, and fails otherwise |
| Handshakes.LastBytesWritten | src/adapters/ws/handshake/machine.rs:74-95 | what the last bytes written lead to, by role |
| Handshakes.HandshakeAccounted | src/adapters/ws/handshake/mod.rs:38-52 | bytes written and bytes left make up the message throughout a call |
| Handshakes.WritesThePrefix | src/adapters/ws/handshake/mod.rs:38-52 | from any point at which the message is settled, over any interruptions and however the last call ends: the bytes written are a prefix of the message, and equal to it exactly when the writing stage is finished |
| Handshakes.ClientWritesRequest | src/adapters/ws/handshake/client.rs:60-83 | so for a client from its start, with its request |
| Handshakes.ServerWritesResponse | src/adapters/ws/handshake/server.rs:236-272 | and for a server whose request has arrived, with the response made of it |
| Handshakes.CompletesIff | src/adapters/ws/handshake/machine.rs:45-72 | a call can complete a handshake if and only if unread bytes are buffered within the budget, or a server has only its good answer to write |
| Handshakes.NeverCompletes | src/adapters/ws/handshake/machine.rs:45-53 | no handshake that was started as client or server ever completes, however often it is resumed |
| HandshakeObjects.AttackCheck.CheckIncomingPacketSize | src/adapters/ws/handshake/machine.rs:178-204 | counts a packet and its bytes and tolerates at most 65536 bytes, 512 packets, and beyond 64 packets at least 128 bytes each on average |

## Left out

- Sockets, binding, keepalive, TLS: operating system and rustls calls; their answers are parameters of the steps and streams.
- `src/adapters/ssl/ssl_driver.rs`: the same lifecycle as the TCP driver; `src/adapters/udp.rs` is not compiled in.
- HTTP parsing and generation, SHA-1, base64, random keys: what a buffer parses to and which response is made are answers from outside.
- The node handler as an object: its methods are steps of the node (`Nodes.Take`), because several threads use it at once.
- The accept loop of a listener: each accepted connection is a mint step and a post step of the node, so other threads may act in between.
- Interrupted polls, which are repeated, and the time-out of a poll.
- Peer addresses, endpoints, connection and listen callbacks, names of threads, logging.
- `Greet`, `Stop`, `IsReady` and the blocking wrappers with their promises and sleeps; `SendSync` is queued and processed like `Send`.
- Commands made up by a user and posted raw, and identifiers made from integers: users send to and close identifiers that were issued.
- Runs of a node in which a generator passes its 48-bit range: it issues nothing more there; what the generator itself does then is `ResourceIds.BaseDecodesIff` and `ResourceIds.AllDistinctIff`.
- Liveness: that queues are drained, wakers wake, or a blocked stream ever goes on.
- Panics of the operating system layer: registering a source with the poll, `local_addr`, address parsing.
- A driver step takes the buffers received and the status of a WebSocket send as answers; which answers the loops of the adapter give is proved in `WsAdapter.dfy`, on its own.
- The adapter on Windows, which does not peek, and the lock that a WebSocket send holds while it waits for its stream.
- Runs.EventsOfEveryRun: a close that found the resource is recorded among the events although the user is not told of it.
- Remotes.SendTcp: the bytes written by a WebSocket send are not tracked on the socket, only that the message was taken.
- `FrameCodec` declares optional buffers and uses plain ones; the model uses byte sequences. `into_data` is read as `into_buffer`.
- `Frame::close(None)` makes no frame although `do_close` passes it on; the model queues nothing.
- `set_config`: the limits of a context do not change during a session.
- Codecs.ReadFramesRefineStream: after an invalid operation code the stream is not followed further.
- Reading.SessionAssembles: error-free reads only; after a capacity or UTF-8 error the source keeps the fragment state and so does the model.
- Closing.NothingAfterClose: sessions without raw frame writes, which bypass the closing logic.
- Reserved operation codes and close codes carry numbers in their reserved ranges only.
- Links.BothHearInOrder: conversations without raw frames, and with pings, pongs and close reasons that fit a control frame.
- `DriverObjects` registers are shared objects; that a removed register is destroyed when its last holder lets go is not modelled.
