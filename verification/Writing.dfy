/**
 What each write, flush and failing read of a WebSocket connection does, call by call
 (`src/adapters/ws/protocol/mod.rs`, `src/adapters/ws/protocol/frame/mod.rs`).
 */
module Writes {
  import opened Base
  import opened Coding
  import opened Frames
  import opened Streams
  import opened Codecs
  import opened Messages
  import opened Contexts
  import opened Sessions
  import opened Closing
  import opened Ending
  import opened EndToEnd

  // ---------------------------------------------------------------- when bytes go to the stream

  /** What the stream takes of `bytes` by its answers to come: some of the front, all of it if none refuses. */
  ghost predicate Handed(bytes: Bytes, s: Stream, left: Bytes, s': Stream, failure: Option<ErrorKind>) {
    && s'.accepted + left == s.accepted + bytes && |left| <= |bytes|
    && (failure.None? <==> left == [])
    && (bytes != [] && s.writes == [] ==> s' == s && failure == Some(WouldBlock))
    && (bytes != [] && s.writes != [] ==>
          match s.writes[0]
          case Accepts(count) =>
            && |s'.accepted| >= |s.accepted| + Min(count, |bytes|)
            && (count == 0 ==> failure == Some(ConnectionReset) && s'.accepted == s.accepted)
            && |s'.writes| < |s.writes|
          case WriteFails(kind) => failure == Some(kind) && s' == s.(writes := s.writes[1..]))
  }

  lemma {:induction false} DrainHands(bytes: Bytes, s: Stream)
    ensures var d := WriteOut(bytes, s); |d.stream.writes| <= |s.writes|
    decreases |bytes|
  {
    if bytes != [] && s.writes != [] && s.writes[0].Accepts? && s.writes[0].count > 0 {
      var n := Min(s.writes[0].count, |bytes|);
      DrainHands(bytes[n..], s.(writes := s.writes[1..], accepted := s.accepted + bytes[..n]));
    }
  }

  lemma DrainIsHanded(bytes: Bytes, s: Stream)
    ensures var d := WriteOut(bytes, s); Handed(bytes, s, d.output, d.stream, d.failure)
  {
    WriteOutConserves(bytes, s);
    DrainedIffNoFailure(bytes, s);
    if bytes != [] && s.writes != [] && s.writes[0].Accepts? && s.writes[0].count > 0 {
      var n := Min(s.writes[0].count, |bytes|);
      var s' := s.(writes := s.writes[1..], accepted := s.accepted + bytes[..n]);
      assert WriteOut(bytes, s) == WriteOut(bytes[n..], s');
      DrainHands(bytes[n..], s');
    }
  }

  /**
   A frame with room goes into the buffer.  If that brings the buffer above the write length, the whole
   buffer is offered to the stream at once; at or below it, nothing is written and the stream is not asked.
   A frame without room changes nothing and comes back.
   */
  lemma BufferOffersIff(c: Codec, s: Stream, f: Frame)
    ensures var b, all := BufferFrame(c, s, f), c.output + FormatFrame(f);
            if |all| > c.maxOutput then b == Buffered(c, s, Err(WriteBufferFull(f)))
            else if |all| <= c.writeLen then
              b == Buffered(c.(output := all, sent := c.sent + [f]), s, Ok(()))
            else
              && b.codec == c.(output := b.codec.output, sent := c.sent + [f])
              && (b.result.Ok? || b.result.error.Io?)
              && Handed(all, s, b.codec.output, b.stream,
                        if b.result.Ok? then None else Some(b.result.error.kind))
  {
    hide WriteOut, FormatFrame, Handed;
    FrameLenIsFormatted(f);
    DrainIsHanded(c.output + FormatFrame(f), s);
  }

  /** A client draws a mask for every frame it buffers or has refused; a server draws none. */
  lemma MaskIsDrawn(ctx: Context, s: Stream, f: Frame)
    ensures var b := Buffer(ctx, s, f);
            if ctx.role.Server? || s.masks == [] then b.stream.masks == s.masks
            else
              && b.stream.masks == s.masks[1..]
              && (if Full(b.result) then b.result.error.frame.header.mask == Some(s.masks[0])
                  else
                    && b.ctx.codec.sent != [] && b.ctx.codec.sent[..|b.ctx.codec.sent| - 1] == ctx.codec.sent
                    && b.ctx.codec.sent[|b.ctx.codec.sent| - 1].header.mask == Some(s.masks[0]))
  {
    hide FormatFrame, WriteOut;
    var (f', s') := Prepared(ctx.role, s, f);
    WriteOutConserves(Appended(ctx.codec, f').output, s');
  }

  /** A stream that resets while a frame is buffered: a clean close behind the peer's Close, an error before. */
  lemma ResetWhileWriting(ctx: Context, s: Stream, f: Frame)
    requires HasRoom(ctx, s, f) && |ctx.codec.output| + Prepared(ctx.role, s, f).0.Len() > ctx.codec.writeLen
    requires s.writes != [] && (s.writes[0] == WriteFails(ConnectionReset) || s.writes[0] == Accepts(0))
    ensures Buffer(ctx, s, f).result == Err(if ctx.state.CanRead() then Io(ConnectionReset) else ConnectionClosed)
  {
    hide FormatFrame;
    var f' := Prepared(ctx.role, s, f).0;
    FrameLenIsFormatted(f');
    assert ctx.codec.output + FormatFrame(f') != [] by { assert |FormatFrame(f')| >= 2; }
  }

  // ---------------------------------------------------------------- what a write sends

  /** `f` is `plain` as a writer of this role sends it: a client masks it, a server leaves it as it is. */
  predicate SentAs(role: Role, plain: Frame, f: Frame) {
    && f.payload == plain.payload && f.header == plain.header.(mask := f.header.mask)
    && (if role.Client? then f.header.mask.Some? else f.header.mask == plain.header.mask)
  }

  /** The frame of a message that is written at once: a whole one, or a raw frame just as it is. */
  function FrameWritten(m: Message): Frame
    requires m.Text? || m.Binary? || m.Ping? || m.Raw?
  {
    match m
    case Text(data) => Frame(Header(true, false, false, false, Data(DataOp.Text), None), data)
    case Binary(data) => Frame(Header(true, false, false, false, Data(DataOp.Binary), None), data)
    case Ping(data) => Frame(Header(true, false, false, false, Control(ControlOp.Ping), None), data)
    case Raw(f) => f
  }

  lemma PreparedIsSent(role: Role, s: Stream, f: Frame)
    ensures SentAs(role, f, Prepared(role, s, f).0)
  {
  }

  /** What buffering does to the frames sent. */
  ghost predicate OneSent(role: Role, before: seq<Frame>, plain: Frame, after: seq<Frame>) {
    exists f :: SentAs(role, plain, f) && after == before + [f]
  }

  lemma BufferSendsOne(ctx: Context, s: Stream, f: Frame)
    ensures var b := Buffer(ctx, s, f);
            if HasRoom(ctx, s, f) then
              !Full(b.result) && OneSent(ctx.role, ctx.codec.sent, f, b.ctx.codec.sent)
            else
              && Full(b.result) && b.ctx == ctx && b.stream.accepted == s.accepted
              && SentAs(ctx.role, f, b.result.error.frame)
  {
    hide Buffer, HasRoom, Prepared, SentAs;
    PreparedIsSent(ctx.role, s, f);
    FullIffNoRoom(ctx, s, f);
    BufferSends(ctx, s, f);
    BufferFull(ctx, s, f);
    RefusedWritesNothing(ctx, s, f);
  }

  lemma RefusedWritesNothing(ctx: Context, s: Stream, f: Frame)
    ensures var b := Buffer(ctx, s, f); Full(b.result) ==> b.stream.accepted == s.accepted
  {
    hide FormatFrame, WriteOut;
  }

  /** A pending reply was sent, or is pending still, masked perhaps. */
  ghost predicate ReplySent(role: Role, reply: Option<Frame>, before: seq<Frame>, after: seq<Frame>,
                            left: Option<Frame>) {
    || (after == before && reply.None? == left.None? && (reply.Some? ==> MayBeMasked(reply.value, left.value)))
    || (reply.Some? && left.None? && OneSent(role, before, reply.value, after))
  }

  predicate MayBeMasked(plain: Frame, f: Frame) {
    f.payload == plain.payload && f.header == plain.header.(mask := f.header.mask)
  }

  lemma ReplyIsSent(ctx: Context, s: Stream)
    ensures var a := SendAdditional(ctx, s);
            && ReplySent(ctx.role, ctx.additional, ctx.codec.sent, a.ctx.codec.sent, a.ctx.additional)
            && (a.result == Ok(true) <==> a.result.Ok? && ctx.additional.Some? && a.ctx.additional.None?)
            && (ctx.additional.Some? ==>
                  (a.ctx.additional.None? <==> HasRoom(ctx, s, ctx.additional.value)))
  {
    hide Buffer, HasRoom, SentAs;
    if ctx.additional.Some? {
      BufferSendsOne(ctx.(additional := None), s, ctx.additional.value);
      RoomWithoutPending(ctx, s, ctx.additional.value);
      SentMayBeMasked(ctx.role);
    }
  }

  lemma SentMayBeMasked(role: Role)
    ensures forall plain, f :: SentAs(role, plain, f) ==> MayBeMasked(plain, f)
  {
  }

  /** With nothing pending, a flush of an active connection sends no frame, and empties the buffer if it is `Ok`. */
  lemma FlushOnly(ctx: Context, s: Stream)
    requires ctx.state.Active? && ctx.additional.None?
    ensures var f := Flush(ctx, s);
            && f.ctx.codec.sent == ctx.codec.sent && f.ctx.additional.None?
            && (f.result.Ok? ==> f.ctx.codec.output == [])
  {
    hide Buffer, WriteOut;
    DrainedIffNoFailure(ctx.codec.output, s);
  }

  lemma ReplyUnsent(role: Role, reply: Option<Frame>, sent: seq<Frame>)
    ensures ReplySent(role, reply, sent, sent, reply)
  {
    assert reply.Some? ==> MayBeMasked(reply.value, reply.value);
  }

  lemma WriteFrameSends(ctx: Context, s: Stream, f: Frame)
    requires ctx.state.Active?
    ensures var r := WriteFrame(ctx, s, f);
            if HasRoom(ctx, s, f) then
              && (exists f' :: SentAs(ctx.role, f, f')
                    && ReplySent(ctx.role, ctx.additional, ctx.codec.sent + [f'], r.ctx.codec.sent, r.ctx.additional))
              && (r.result.Ok? && ctx.additional.Some? && r.ctx.additional.None? ==> r.ctx.codec.output == [])
            else
              && Full(r.result) && SentAs(ctx.role, f, r.result.error.frame)
              && r.ctx == ctx && r.stream.accepted == s.accepted
  {
    hide Buffer, SendAdditional, Flush, HasRoom, SentAs, ReplySent;
    var b := Buffer(ctx, s, f);
    BufferSendsOne(ctx, s, f);
    if HasRoom(ctx, s, f) {
      var f' :| SentAs(ctx.role, f, f') && b.ctx.codec.sent == ctx.codec.sent + [f'];
      ReplyUnsent(ctx.role, ctx.additional, ctx.codec.sent + [f']);
      ReplyIsSent(b.ctx, b.stream);
      var a := SendAdditional(b.ctx, b.stream);
      if b.result.Ok? && a.result == Ok(true) {
        FlushOnly(a.ctx, a.stream);
      }
    }
  }

  /**
   A write to an active connection, of anything but a Pong or a Close.  Without room the frame is refused and
   nothing changes.  With room exactly the message's frame is sent, a raw frame just as it is given, and
   behind it at most the pending reply; if that went out and the write is `Ok`, the buffer has been flushed.
   */
  lemma WriteSendsFrame(ctx: Context, s: Stream, m: Message)
    requires ctx.state.Active? && (m.Text? || m.Binary? || m.Ping? || m.Raw?)
    ensures var r, f := Write(ctx, s, m), FrameWritten(m);
            if HasRoom(ctx, s, f) then
              && (exists f' :: SentAs(ctx.role, f, f')
                    && ReplySent(ctx.role, ctx.additional, ctx.codec.sent + [f'], r.ctx.codec.sent, r.ctx.additional))
              && (r.result.Ok? && ctx.additional.Some? && r.ctx.additional.None? ==> r.ctx.codec.output == [])
            else
              && Full(r.result) && SentAs(ctx.role, f, r.result.error.frame)
              && r.ctx == ctx && r.stream.accepted == s.accepted
  {
    hide WriteFrame, HasRoom, SentAs, ReplySent;
    WriteFrameSends(ctx, s, FrameWritten(m));
    assert m.Text? ==> MessageFrame(m.data, DataOp.Text, true) == FrameWritten(m);
    assert m.Binary? ==> MessageFrame(m.data, DataOp.Binary, true) == FrameWritten(m);
    assert m.Ping? ==> PingFrame(m.data) == FrameWritten(m);
  }

  /** On a connection that is not active any more, a write changes nothing and says why. */
  lemma WriteIsRefused(ctx: Context, s: Stream, m: Message)
    requires !ctx.state.Active?
    ensures Write(ctx, s, m) == Step(ctx, s, Err(if ctx.state.Terminated? then AlreadyClosed
                                                 else Violation(SendAfterClosing)))
  {
  }

  // ---------------------------------------------------------------- flushing

  lemma FlushOfStream(s: Stream)
    ensures var f := FlushStream(s);
            && (s.flushes == [] ==> f == (s, Ok(())))
            && (s.flushes != [] && s.flushes[0].Flushes? ==> f == (s.(flushes := s.flushes[1..]), Ok(())))
            && (s.flushes != [] && s.flushes[0].FlushFails? ==> f.1 == Err(Io(s.flushes[0].kind)))
  {
  }

  lemma FlushesKept(ctx: Context, s: Stream, data: Option<Frame>)
    ensures WriteInner(ctx, s, data).stream.flushes == s.flushes
    ensures WriteOutBuffer(ctx.codec, s).stream.flushes == s.flushes
  {
    hide Buffer, SendAdditional, WriteOut;
    var b := if data.Some? then Buffer(ctx, s, data.value) else Step(ctx, s, Ok(()));
    if data.Some? {
      BufferKeepsAllFlushes(ctx, s, data.value);
    }
    ReplyKeepsFlushes(b.ctx, b.stream);
    var a := SendAdditional(b.ctx, b.stream);
    DrainKeepsFlushes(a.ctx.codec.output, a.stream);
    DrainKeepsFlushes(ctx.codec.output, s);
  }

  lemma BufferKeepsAllFlushes(ctx: Context, s: Stream, f: Frame)
    ensures Buffer(ctx, s, f).stream.flushes == s.flushes
  {
    hide FormatFrame, WriteOut;
    var (f', s') := Prepared(ctx.role, s, f);
    DrainKeepsFlushes(Appended(ctx.codec, f').output, s');
  }

  lemma ReplyKeepsFlushes(ctx: Context, s: Stream)
    ensures SendAdditional(ctx, s).stream.flushes == s.flushes
  {
    hide Buffer;
    if ctx.additional.Some? {
      BufferKeepsAllFlushes(ctx.(additional := None), s, ctx.additional.value);
    }
  }

  lemma {:induction false} DrainKeepsFlushes(bytes: Bytes, s: Stream)
    ensures WriteOut(bytes, s).stream.flushes == s.flushes
    decreases |bytes|
  {
    if bytes != [] && s.writes != [] && s.writes[0].Accepts? && s.writes[0].count > 0 {
      var n := Min(s.writes[0].count, |bytes|);
      DrainKeepsFlushes(bytes[n..], s.(writes := s.writes[1..], accepted := s.accepted + bytes[..n]));
    }
  }

  /** A flush that is `Ok` has emptied the buffer and has flushed the stream; a failing flush of it is reported. */
  lemma FlushReachesStream(ctx: Context, s: Stream)
    ensures var f := Flush(ctx, s);
            && (f.result.Ok? ==> f.ctx.codec.output == [])
            && (f.result.Ok? && s.flushes != [] ==> s.flushes[0].Flushes? && f.stream.flushes == s.flushes[1..])
            && (f.ctx.codec.output == [] && s.flushes != [] && s.flushes[0].FlushFails? ==> f.result.Err?)
  {
    hide WriteInner, WriteOut, FlushStream;
    FlushesKept(ctx, s, None);
    var w := WriteInner(ctx, s, None);
    FlushesKept(w.ctx, w.stream, None);
    DrainedIffNoFailure(w.ctx.codec.output, w.stream);
    FlushOfStream(WriteOut(w.ctx.codec.output, w.stream).stream);
  }

  /** So has a close that is `Ok`. */
  lemma CloseReachesStream(ctx: Context, s: Stream, reason: Option<CloseReason>)
    ensures var c := Shut(ctx, s, reason);
            c.result.Ok? ==> c.ctx.codec.output == [] && (s.flushes != [] ==> s.flushes[0].Flushes?)
  {
    hide Flush, WriteInner;
    FlushReachesStream(ctx, s);
    if ctx.state.Active? {
      var ctx' := ctx.(state := ClosedByUs);
      var w := WriteInner(ctx', s, CloseFrame(reason));
      FlushesKept(ctx', s, CloseFrame(reason));
      FlushReachesStream(w.ctx, w.stream);
    }
  }

  /** A Pong of the user on a connection with nothing pending is buffered like any frame; it flushes nothing. */
  lemma PongIsBuffered(ctx: Context, s: Stream, data: Bytes)
    requires ctx.state.Active? && ctx.additional.None?
    ensures var f := Frame(Header(true, false, false, false, Control(ControlOp.Pong), None), data);
            var b, w := Buffer(ctx, s, f), Write(ctx, s, Message.Pong(data));
            && w.stream == b.stream
            && (if Full(b.result) then w.result == Ok(()) && w.ctx == ctx.(additional := Some(b.result.error.frame))
                else w.result == b.result && w.ctx == b.ctx)
  {
    hide Buffer;
    var f := PongFrame(data);
    assert ctx.(additional := Some(f)).(additional := None) == ctx;
    var b := Buffer(ctx, s, f);
    BufferFull(ctx, s, f);
    if b.result.Ok? {
      assert b.result.value == ();
    }
  }

  // ---------------------------------------------------------------- who ends a connection

  /** Sending: a client never ends the connection. */
  lemma ClientWritesOn(ctx: Context, s: Stream, data: Option<Frame>)
    ensures ctx.role.Client? ==>
              WriteInner(ctx, s, data).ctx.state == ctx.state && Flush(ctx, s).ctx.state == ctx.state
  {
    hide Buffer, WriteOut;
  }

  /**
   A call that does not read ends the connection only if this is a server and the peer's Close has come; a
   client leaves it to the server.
   */
  lemma OnlyServersEnd(ctx: Context, s: Stream, call: Call)
    requires !call.ReadCall? && !ctx.state.Terminated?
    ensures Perform(ctx, s, call).ctx.state.Terminated? ==> ctx.role.Server? && PeerClosed(ctx.state)
  {
    hide WriteInner, Flush;
    match call
    case WriteCall(m) => ActiveWriteGoesOn(ctx, s, m);
    case FlushCall =>
      FlushEnding(ctx, s);
      ClientWritesOn(ctx, s, None);
    case CloseCall(reason) => ShutGoesOn(ctx, s, reason);
  }

  lemma ShutGoesOn(ctx: Context, s: Stream, reason: Option<CloseReason>)
    requires !ctx.state.Terminated?
    ensures Shut(ctx, s, reason).ctx.state.Terminated? ==> ctx.role.Server? && PeerClosed(ctx.state)
  {
    hide WriteInner, Flush;
    var ctx' := ctx.(state := ClosedByUs);
    WriteInnerEnding(ctx', s, CloseFrame(reason));
    var w := WriteInner(ctx', s, CloseFrame(reason));
    FlushEnding(w.ctx, w.stream);
    FlushEnding(ctx, s);
    ClientWritesOn(ctx, s, None);
  }

  lemma ActiveWriteGoesOn(ctx: Context, s: Stream, m: Message)
    requires !ctx.state.Terminated?
    ensures !Write(ctx, s, m).ctx.state.Terminated?
  {
    hide WriteInner, Flush, Shut;
    if ctx.state.Active? {
      forall f ensures !WriteFrame(ctx, s, f).ctx.state.Terminated? {
        WriteInnerEnding(ctx, s, Some(f));
        var w := WriteInner(ctx, s, Some(f));
        FlushEnding(w.ctx, w.stream);
      }
      if m.Pong? {
        WriteInnerEnding(SetAdditional(ctx, PongFrame(m.data)), s, None);
      } else if m.Close? {
        ShutGoesOn(ctx, s, m.reason);
      }
    }
  }

  /** And a server with nothing pending does end it: exactly when the stream takes all that is buffered. */
  lemma ServerEndsIff(ctx: Context, s: Stream)
    requires ctx.role.Server? && PeerClosed(ctx.state) && ctx.additional.None?
    ensures var f := Flush(ctx, s);
            && (f.ctx.state.Terminated? <==> f.ctx.codec.output == [])
            && (f.ctx.state.Terminated? <==> f.result == Err(ConnectionClosed))
            && (f.result != Err(ConnectionClosed) ==> f.result.Err? && f.result.error.Io?)
  {
    hide WriteOut;
    DrainedIffNoFailure(ctx.codec.output, s);
  }

  // ---------------------------------------------------------------- pending replies go out by reading

  lemma {:induction false} ReadLoopGrows(ctx: Context, s: Stream)
    ensures ctx.codec.sent <= ReadLoop(ctx, s).ctx.codec.sent
    decreases Unread(ctx.codec, s)
  {
    hide ReadFrame, HandleFrame;
    BeforeReadGrows(ctx, s);
    hide Flush, BeforeRead;
    var b := BeforeRead(ctx, s);
    if b.result.Ok? {
      var r := ReadMessageFrame(b.ctx, b.stream);
      ReadProgress(ctx, s);
      if r.result == Ok(None) {
        ReadLoopGrows(r.ctx, r.stream);
      }
    }
  }

  lemma BeforeReadGrows(ctx: Context, s: Stream)
    ensures ctx.codec.sent <= BeforeRead(ctx, s).ctx.codec.sent
  {
    hide WriteInner, WriteOut;
    SentGrows(ctx, s, None);
  }

  lemma FlushSendsReplyAs(ctx: Context, s: Stream)
    requires ctx.additional.Some? && HasRoom(ctx, s, ctx.additional.value)
    ensures OneSent(ctx.role, ctx.codec.sent, ctx.additional.value, Flush(ctx, s).ctx.codec.sent)
  {
    hide Buffer, WriteOut, HasRoom, OneSent;
    BufferSendsOne(ctx.(additional := None), s, ctx.additional.value);
    RoomWithoutPending(ctx, s, ctx.additional.value);
  }

  /** Every read of a connection that has not ended first sends the pending reply, if it has room. */
  lemma ReadPushesReply(ctx: Context, s: Stream)
    requires !ctx.state.Terminated? && ctx.additional.Some?
    requires HasRoom(ctx, s, ctx.additional.value)
    ensures exists f :: SentAs(ctx.role, ctx.additional.value, f)
              && ctx.codec.sent + [f] <= Read(ctx, s).ctx.codec.sent
  {
    hide Flush, ReadFrame, HandleFrame, SentAs, HasRoom;
    FlushSendsReplyAs(ctx, s);
    var b := BeforeRead(ctx, s);
    var f :| SentAs(ctx.role, ctx.additional.value, f) && b.ctx.codec.sent == ctx.codec.sent + [f];
    if b.result.Ok? {
      var r := ReadMessageFrame(b.ctx, b.stream);
      ReadLoopGrows(r.ctx, r.stream);
      assert b.ctx.codec.sent <= Read(ctx, s).ctx.codec.sent;
    }
  }

  /** A stream that fails while the reply is pushed out stops the read; one that is blocked does not. */
  lemma ReadStopsAtFailure(ctx: Context, s: Stream)
    requires !ctx.state.Terminated? && ctx.additional.Some?
    ensures var f, r := Flush(ctx, s), Read(ctx, s);
            if f.result.Ok? || f.result == Err(Io(WouldBlock)) then
              var m := ReadMessageFrame(f.ctx, f.stream);
              m.result != Ok(None) ==> r.ctx == m.ctx && r.stream == m.stream
            else r == Step(f.ctx, f.stream, Err(f.result.error))
  {
    hide Flush, ReadMessageFrame;
  }

  /** A server with nothing to read and nothing to answer is done. */
  lemma ServerReadEnds(ctx: Context, s: Stream)
    requires ctx.role.Server? && PeerClosed(ctx.state) && ctx.additional.None?
    ensures Read(ctx, s) == Step(ctx.(state := Terminated), s, Err(ConnectionClosed))
  {
  }

  // ---------------------------------------------------------------- reads that find no frame

  /** What is buffered makes no frame, and the next event of the stream is this one. */
  predicate Meets(ctx: Context, s: Stream, event: ReadEvent) {
    && ctx.additional.None? && !ctx.state.Terminated? && (ctx.role.Server? ==> ctx.state.CanRead())
    && TakeFrame(ctx.codec, ctx.config.FrameLimit()).Short?
    && s.incoming != [] && s.incoming[0] == event
  }

  /** The end of the stream ends the connection: as a clean close behind the peer's Close, as a reset before. */
  lemma EndTerminates(ctx: Context, s: Stream)
    requires Meets(ctx, s, Chunk([]))
    ensures var r := Read(ctx, s);
            && r.ctx.state.Terminated? && r.stream == s.(incoming := s.incoming[1..])
            && r.result == Err(if PeerClosed(ctx.state) then ConnectionClosed
                               else Violation(ResetWithoutClosingHandshake))
  {
    hide TakeFrame;
  }

  /** A failing read is reported as it is, but for a reset behind the peer's Close, which is a clean close. */
  lemma FailureIsReported(ctx: Context, s: Stream, kind: ErrorKind)
    requires Meets(ctx, s, ReadFails(kind))
    ensures var r := Read(ctx, s);
            && r.ctx.state == ctx.state && r.stream == s.(incoming := s.incoming[1..])
            && r.result == Err(if PeerClosed(ctx.state) && kind == ConnectionReset then ConnectionClosed else Io(kind))
  {
    hide TakeFrame;
  }

  // ---------------------------------------------------------------- a constant

  /** The reason with which a forbidden close code is answered, in ASCII. */
  lemma ViolationInWords()
    ensures var words := "Protocol violation";
            && |PROTOCOL_VIOLATION| == |words|
            && forall i | 0 <= i < |words| :: PROTOCOL_VIOLATION[i] as int == words[i] as int
  {
  }
}
